/** Call sequences against a fresh library, proved from the entry points'
    contracts alone.  Host "vpn1" gets client 7; the remote side hands
    out remote descriptor 5. */
module Scenarios {
  import opened Types
  import Offset
  import FdTable
  import LibVpn
  import Dispatch
  import Registry

  const Env: Offset.InitEnv := Offset.InitEnv(true, None)
  const Host: string := "vpn1"

  /** `close` as written: the remote close succeeds and `close` returns 0,
      yet the virtual descriptor 1024 still resolves to (7, 5), because the
      slot index handed to `_libvpn_deregister_fd` is the remote
      descriptor 5, past the end of the one-slot table. */
  method CloseLeavesSlotRegistered() returns (vfd: int, closed: int, after: FdTable.Resolved)
    ensures vfd == 1024 && closed == 0
    ensures after == FdTable.Resolved(Some(7), 5)
  {
    var lib := new LibVpn.Vpn();
    var xlate: int -> int32 := code => -1;
    var events;
    vfd, events := lib.Connect(3, [], Env, 0, Some(Host), true, Some(7), Returned(5), true, xlate);
    assert lib.fds == [Slot(Some(7), 5)];
    closed, events := lib.Close(1024, Env, 0, Returned(0), xlate);
    var client, fd := lib.GetAppClientFd(1024);
    after := FdTable.Resolved(client, fd);
  }

  /** The intended life of a virtual descriptor: `connect` yields 1024,
      `send(1024, "abc", 3, 0)` forwards exactly that to client 7 and
      remote descriptor 5 and returns 3, the corrected `close` frees slot
      0 so that a `read` of 1024 now goes to the original `read` (with the
      descriptor -1 left by the lookup), and the next `connect` reuses
      1024. */
  method IntendedScenario() returns (v1: int, sent: int, sendEvents: seq<Event>, closed: int,
                                     readEvents: seq<Event>, v2: int)
    ensures v1 == 1024 && sent == 3 && closed == 0 && v2 == 1024
    ensures sendEvents == [RemoteSend(7, 5, [97, 98, 99], 3, 0)]
    ensures readEvents == [OriginalRead(-1, 3)]
  {
    var lib := new LibVpn.Vpn();
    var xlate: int -> int32 := code => -1;
    var events, r;
    v1, events := lib.Connect(3, [], Env, 0, Some(Host), true, Some(7), Returned(5), true, xlate);
    assert lib.initialized && lib.offset == 1024;
    assert lib.clients == [ClientEntry(Some(Host), Some(7))];
    assert lib.fds == [Slot(Some(7), 5)];
    var abc: seq<byte> := [97, 98, 99];
    assert abc[..3] == abc;
    sent, sendEvents := lib.Send(1024, abc, 3, 0, Env, 0, true, Returned(3), xlate);
    closed, events := lib.CloseFixed(1024, Env, 0, Returned(0), xlate);
    assert lib.initialized && lib.offset == 1024;
    assert lib.fds == [Slot(None, -1)];
    var buf := new byte[3];
    r, readEvents := lib.Read(1024, buf, 3, Env, 0, true, RecvFailure, xlate);
    assert Registry.FindHost(lib.clients, Host) == Some(0);
    v2, events := lib.Connect(4, [], Env, 0, Some(Host), true, None, Returned(5), true, xlate);
  }

  /** Send-then-receive against a remote side that echoes what it was
      sent: `send` forwards all of `s` to client 7 and remote descriptor
      5, and when the remote side hands those same forwarded bytes back
      and reports `n`, the caller's buffer starts with exactly the first
      `n` bytes that were sent, and the rest of the buffer is untouched. */
  method EchoRoundTrip(s: seq<byte>, n: int32) returns (sent: int, sendEvents: seq<Event>,
                                                        received: int, buf: seq<byte>)
    requires 0 < n <= |s|
    ensures sendEvents == [RemoteSend(7, 5, s, |s|, 0)]
    ensures sent == n
    ensures received == n
    ensures |buf| == |s| && buf[..n] == s[..n] && forall k :: n <= k < |s| ==> buf[k] == 0
  {
    var lib := new LibVpn.Vpn();
    var xlate: int -> int32 := code => -1;
    var vfd, events := lib.Connect(3, [], Env, 0, Some(Host), true, Some(7), Returned(5), true, xlate);
    assert lib.fds == [Slot(Some(7), 5)];
    var v := 1024;
    assert s[..|s|] == s;
    sent, sendEvents := lib.Send(v, s, |s|, 0, Env, 0, true, Returned(n), xlate);
    var echoed := sendEvents[0].bytes;
    var a := new byte[|s|](k => 0);
    ghost var zeros := a[..];
    received, events := lib.Recv(v, a, |s|, 0, Env, 0, true, Received(n, echoed), xlate);
    buf := a[..];
    assert buf == Dispatch.CopyIn(zeros, echoed, n as nat);
  }

  /** `close` as written frees the wrong slot: with virtual descriptors
      1024 -> (7, 1) and 1025 -> (7, 0), `close(1024)` deregisters index 1,
      the remote descriptor, so 1025 loses its slot while 1024 stays
      registered. */
  method CloseFreesWrongSlot() returns (closed: int, first: FdTable.Resolved, second: FdTable.Resolved)
    ensures closed == 0
    ensures first == FdTable.Resolved(Some(7), 1)
    ensures second == FdTable.Resolved(None, -1)
  {
    var lib := new LibVpn.Vpn();
    var xlate: int -> int32 := code => -1;
    var v1, v2, events;
    v1, events := lib.Connect(3, [], Env, 0, Some(Host), true, Some(7), Returned(1), true, xlate);
    assert lib.initialized && lib.offset == 1024;
    assert lib.clients == [ClientEntry(Some(Host), Some(7))];
    assert lib.fds == [Slot(Some(7), 1)];
    assert Registry.FindHost(lib.clients, Host) == Some(0);
    assert Registry.GetClient(lib.clients, Some(Host), true, None) == Registry.Got(Some(7), lib.clients);
    assert FdTable.Register(lib.fds, 1024, 7, 0, true)
        == FdTable.Registered(0, 1025, [Slot(Some(7), 1), Slot(Some(7), 0)]);
    v2, events := lib.Connect(4, [], Env, 0, Some(Host), true, None, Returned(0), true, xlate);
    assert lib.initialized && lib.offset == 1024;
    assert lib.fds == [Slot(Some(7), 1), Slot(Some(7), 0)];
    assert FdTable.Lookup(lib.fds, 1024, 1024) == FdTable.Resolved(Some(7), 1);
    assert FdTable.Deregister(lib.fds, 7, 1).slots == [Slot(Some(7), 1), Slot(None, -1)];
    closed, events := lib.Close(1024, Env, 0, Returned(0), xlate);
    assert lib.fds == [Slot(Some(7), 1), Slot(None, -1)];
    var client, fd := lib.GetAppClientFd(1024);
    first := FdTable.Resolved(client, fd);
    client, fd := lib.GetAppClientFd(1025);
    second := FdTable.Resolved(client, fd);
  }

  /** A remote `connect` that answers -5 makes `connect` return the
      table's translation of 5, not of -5, and registers nothing. */
  method NegativeConnectTranslated(xlate: int -> int32) returns (ret: int, fds: seq<Slot>)
    ensures ret == xlate(5) && fds == []
  {
    var lib := new LibVpn.Vpn();
    var events;
    ret, events := lib.Connect(3, [], Env, 0, Some(Host), true, Some(7), Returned(-5), true, xlate);
    fds := lib.fds;
  }
}
