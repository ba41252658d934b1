/** Values shared by every part of the libVPN model: C integer widths,
    the table entries, the outcomes of the external calls and the record
    of which external call a dispatcher issued. */
module Types {

  datatype Option<+T> = None | Some(value: T)

  const INT32_MIN: int := -0x8000_0000
  const INT32_MAX: int := 0x7fff_ffff
  const TWO_32: int := 0x1_0000_0000

  /** C's `int` / `int32_t`. */
  type int32 = x: int | INT32_MIN <= x <= INT32_MAX

  /** A byte of a caller's buffer. */
  newtype byte = b: int | 0 <= b < 256

  /** The identity of an `AppClient` object (a pointer); NULL is `None`. */
  type Handle = nat

  /** The bytes of a `struct sockaddr` handed to `connect`. */
  type Address = seq<byte>

  /** Conversion of an integer to `int32_t`: the value modulo 2^32, read as
      two's complement. */
  function WrapInt32(x: int): (r: int32)
    ensures (r - x) % TWO_32 == 0
    ensures INT32_MIN <= x <= INT32_MAX ==> r == x
  {
    var m := x % TWO_32;
    if m <= INT32_MAX then m else m - TWO_32
  }

  /** One element of `_vpn_clients_fd`: the owning client and the remote
      descriptor; a negative descriptor marks the slot free. */
  datatype Slot = Slot(client: Option<Handle>, fd: int32)

  /** One element of `_vpn_clients`: the host name and its client.  An
      entry whose client could not be created has neither. */
  datatype ClientEntry = ClientEntry(name: Option<string>, client: Option<Handle>)

  /** What `appclient_call` reports for "close", "connect" and "send":
      the call did not complete, or it completed with the remote result. */
  datatype Reply = TransportFailure | Returned(value: int32)

  /** What `appclient_call` reports for "recv": the remote result and the
      bytes the remote side left in the transient buffer. */
  datatype RecvReply = RecvFailure | Received(value: int32, data: seq<byte>)

  /** The external call a dispatcher issued, with its arguments. */
  datatype Event =
    | OriginalClose(fd: int32)
    | OriginalConnect(fd: int32, name: Address)
    | OriginalRead(fd: int32, count: nat)
    | OriginalWrite(fd: int32, bytes: seq<byte>)
    | RemoteClose(client: Handle, fd: int32)
    | RemoteConnect(client: Handle, fd: int32)
    | RemoteRecv(client: Handle, fd: int32, count: nat, flags: int32)
    | RemoteSend(client: Handle, fd: int32, bytes: seq<byte>, count: nat, flags: int32)
}
