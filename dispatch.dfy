/** The contracts that the data-moving entry points share: `read` and
    `recv` go through `RecvContract`, `send` and `write` through
    `SendContract`.  Each starts from what `_libvpn_get_appclient_fd`
    made of the caller's descriptor. */
module Dispatch {
  import opened Types
  import FdTable

  /** `count` bytes of `data` copied over the start of `into`. */
  function CopyIn(into: seq<byte>, data: seq<byte>, count: nat): (r: seq<byte>)
    requires count <= |into| && count <= |data|
    ensures |r| == |into|
    ensures forall k :: 0 <= k < count ==> r[k] == data[k]
    ensures forall k :: count <= k < |into| ==> r[k] == into[k]
  {
    data[..count] + into[count..]
  }

  /** The outcome of `recv(fd, buf, count, flags)` (and of `read`, with
      flags 0):
      - a descriptor that is not virtual goes to the original `read` with
        the descriptor as the lookup left it (`before`/`after` then say
        nothing: the original primitive's writes are not modelled);
      - a failed transient-buffer allocation, or a remote call that does
        not complete, returns -1 and leaves the caller's buffer alone;
      - a negative remote result `v` returns the translation of `-v`;
      - otherwise the result is returned and exactly that many bytes of
        the remote data land at the start of the caller's buffer. */
  ghost predicate RecvContract(h: FdTable.Resolved, count: nat, flags: int32, orig: int,
                               bufferOk: bool, reply: RecvReply, xlate: int -> int32,
                               before: seq<byte>, after: seq<byte>, ret: int, events: seq<Event>)
  {
    if h.client.None? then
      ret == orig && events == [OriginalRead(h.fd, count)]
    else if !bufferOk then
      ret == -1 && events == [] && after == before
    else
      && events == [RemoteRecv(h.client.value, h.fd, count, flags)]
      && match reply
         case RecvFailure => ret == -1 && after == before
         case Received(v, data) =>
           if v < 0 then ret == xlate(-(v as int)) && after == before
           else ret == v && v <= |before| && v <= |data| && after == CopyIn(before, data, v)
  }

  /** The outcome of `send(fd, buf, count, flags)` (and of `write`, with
      flags 0):
      - a descriptor that is not virtual goes to the original `write`
        with the first `count` bytes;
      - a failed transient-buffer allocation, or a remote call that does
        not complete, returns -1;
      - otherwise the remote "send" gets the remote descriptor, exactly
        the first `count` bytes, `count` and the flags, and its result is
        returned as it is, or translated from `-v` when negative. */
  ghost predicate SendContract(h: FdTable.Resolved, buf: seq<byte>, count: nat, flags: int32, orig: int,
                               bufferOk: bool, reply: Reply, xlate: int -> int32,
                               ret: int, events: seq<Event>)
    requires count <= |buf|
  {
    if h.client.None? then
      ret == orig && events == [OriginalWrite(h.fd, buf[..count])]
    else if !bufferOk then
      ret == -1 && events == []
    else
      && events == [RemoteSend(h.client.value, h.fd, buf[..count], count, flags)]
      && match reply
         case TransportFailure => ret == -1
         case Returned(v) => ret == if v < 0 then xlate(-(v as int)) else v
  }
}
