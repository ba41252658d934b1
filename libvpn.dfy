/** libVPN: the process-wide state of tools/vpn.c and its six intercepted
    entry points.  Everything outside the library is a parameter:
    - `env`: what the one-time set-up observes,
    - `orig`: the value the original primitive returns,
    - `reply`: what `appclient_call` reports,
    - `bufferOk`, `allocOk`, `fdAllocOk`: whether an allocation succeeds,
    - `created`: the client `appclient_new` returns,
    - `host`: the value of APPSERVER_VPN,
    - `xlate`: the error translation table, from a remote code to the
      value the entry point returns. */
module LibVpn {
  import opened Types
  import Offset
  import RemoteName
  import FdTable
  import Registry
  import Dispatch

  class Vpn {
    /** The C library image was opened and all symbols resolved. */
    var initialized: bool
    /** The set-up called `exit(1)`. */
    var exited: bool
    /** `_vpn_offset`. */
    var offset: int32
    /** `_vpn_clients[0 .. _vpn_clients_cnt)`. */
    var clients: seq<ClientEntry>
    /** `_vpn_clients_fd[0 .. _vpn_clients_fd_cnt)`. */
    var fds: seq<Slot>

    ghost predicate Valid()
      reads this
    {
      Offset.DEFAULT_OFFSET <= offset && Registry.Wf(clients)
    }

    /** The set-up ran, or had already run: it exited, or it left the
        library initialized with the offset `Offset.Startup` computes. */
    twostate predicate InitDone(env: Offset.InitEnv)
      reads this
    {
      var o := Offset.Startup(old(initialized), old(offset), env);
      exited == o.Exit? && (o.Ready? ==> initialized && offset == o.offset)
    }

    /** The state before any call: nothing resolved, offset 1024, both
        tables empty. */
    constructor ()
      ensures Valid() && !initialized && !exited
      ensures offset == Offset.DEFAULT_OFFSET && clients == [] && fds == []
    {
      initialized, exited := false, false;
      offset := Offset.DEFAULT_OFFSET;
      clients, fds := [], [];
    }

    /** `_libvpn_init`. */
    method Init(env: Offset.InitEnv)
      requires Valid() && !exited
      modifies this`initialized, this`offset, this`exited
      ensures Valid() && InitDone(env)
    {
      if initialized {
        return;
      }
      if !env.loaderOk {
        exited := true;
        return;
      }
      initialized := true;
      match Offset.ComputeOffset(offset, env.rlimMax) {
        case Exit =>
          exited := true;
        case Ready(o) =>
          offset := o;
      }
    }

    /** `_libvpn_get_appclient`: scan for the host, else grow by one entry
        and create its client. */
    method GetAppClient(host: Option<string>, allocOk: bool, created: Option<Handle>)
      returns (client: Option<Handle>)
      requires Valid()
      requires created.Some? ==> created.value !in Registry.Handles(clients)
      modifies this`clients
      ensures Valid()
      ensures Registry.GetClient(old(clients), host, allocOk, created) == Registry.Got(client, clients)
    {
      Registry.GetClientKeepsWf(clients, host, allocOk, created);
      if host.None? {
        return None;
      }
      var name := host.value;
      var i := 0;
      while i < |clients|
        invariant 0 <= i <= |clients|
        invariant forall j :: 0 <= j < i ==> clients[j].name != Some(name)
      {
        if clients[i].name.Some? && clients[i].name.value == name {
          return clients[i].client;
        }
        i := i + 1;
      }
      if !allocOk {
        return None;
      }
      clients := clients + [ClientEntry(None, None)];
      if created.None? {
        return None;
      }
      clients := clients[i := ClientEntry(host, created)];
      client := created;
    }

    /** `_libvpn_get_appclient_fd(&fd)`: the client behind a virtual
        descriptor, and the caller's descriptor after the call. */
    method GetAppClientFd(fd: int32) returns (client: Option<Handle>, fd': int32)
      ensures FdTable.Resolved(client, fd') == FdTable.Lookup(fds, offset, fd)
    {
      if fd < offset {
        return None, fd;
      }
      var i := fd - offset;
      if i >= |fds| {
        return None, fd;
      }
      fd' := fds[i].fd;
      client := fds[i].client;
    }

    /** `_libvpn_deregister_fd(client, index)`. */
    method DeregisterFd(client: Handle, index: int32) returns (ret: int)
      modifies this`fds
      ensures FdTable.Deregister(old(fds), client, index) == FdTable.Deregistered(ret, fds)
    {
      if index < 0 || index >= |fds| {
        return -1;
      }
      if fds[index].client != Some(client) {
        return -1;
      }
      fds := fds[index := Slot(None, -1)];
      ret := 0;
    }

    /** `_libvpn_register_fd(client, &fd)`: scan for a free slot, else
        grow by one. */
    method RegisterFd(client: Handle, fd: int32, allocOk: bool) returns (ret: int, fd': int32)
      modifies this`fds
      ensures FdTable.Register(old(fds), offset, client, fd, allocOk) == FdTable.Registered(ret, fd', fds)
    {
      var i := 0;
      while i < |fds|
        invariant 0 <= i <= |fds|
        invariant forall j :: 0 <= j < i ==> fds[j].fd >= 0
      {
        if fds[i].fd < 0 {
          fds := fds[i := Slot(Some(client), fd)];
          return 0, WrapInt32(offset + i);
        }
        i := i + 1;
      }
      if !allocOk {
        return -1, fd;
      }
      fds := fds + [Slot(Some(client), fd)];
      ret, fd' := 0, WrapInt32(offset + i);
    }

    /** `close(fd)` as written: after a successful remote close it hands
        the REMOTE descriptor to `_libvpn_deregister_fd`, which uses it as
        a table index.  Any non-zero remote result is translated. */
    method Close(fd: int32, env: Offset.InitEnv, orig: int, reply: Reply, xlate: int -> int32)
      returns (ret: int, events: seq<Event>)
      requires Valid() && !exited
      modifies this`initialized, this`offset, this`exited, this`fds
      ensures Valid() && InitDone(env)
      ensures exited ==> events == [] && fds == old(fds)
      ensures !exited ==>
        var h := FdTable.Lookup(old(fds), offset, fd);
        && (h.client.None? ==> ret == orig && events == [OriginalClose(h.fd)] && fds == old(fds))
        && (h.client.Some? ==> events == [RemoteClose(h.client.value, h.fd)])
        && (h.client.Some? && reply.TransportFailure? ==> ret == -1 && fds == old(fds))
        && (h.client.Some? && reply.Returned? && reply.value != 0 ==>
              ret == xlate(-(reply.value as int)) && fds == old(fds))
        && (h.client.Some? && reply == Returned(0) ==>
              ret == 0 && fds == FdTable.Deregister(old(fds), h.client.value, h.fd).slots)
    {
      Init(env);
      if exited {
        return -1, [];
      }
      var client, rfd := GetAppClientFd(fd);
      if client.None? {
        return orig, [OriginalClose(rfd)];
      }
      events := [RemoteClose(client.value, rfd)];
      match reply {
        case TransportFailure =>
          ret := -1;
        case Returned(v) =>
          if v != 0 {
            ret := xlate(-(v as int));
          } else {
            var _ := DeregisterFd(client.value, rfd);
            ret := v;
          }
      }
    }

    /** `close(fd)` as evidently intended: the slot freed is the one the
        virtual descriptor names, so afterwards it resolves to no client. */
    method CloseFixed(fd: int32, env: Offset.InitEnv, orig: int, reply: Reply, xlate: int -> int32)
      returns (ret: int, events: seq<Event>)
      requires Valid() && !exited
      modifies this`initialized, this`offset, this`exited, this`fds
      ensures Valid() && InitDone(env)
      ensures exited ==> events == [] && fds == old(fds)
      ensures !exited ==>
        var h := FdTable.Lookup(old(fds), offset, fd);
        && (h.client.None? ==> ret == orig && events == [OriginalClose(h.fd)] && fds == old(fds))
        && (h.client.Some? ==> events == [RemoteClose(h.client.value, h.fd)])
        && (h.client.Some? && reply.TransportFailure? ==> ret == -1 && fds == old(fds))
        && (h.client.Some? && reply.Returned? && reply.value != 0 ==>
              ret == xlate(-(reply.value as int)) && fds == old(fds))
        && (h.client.Some? && reply == Returned(0) ==>
              ret == 0 && fds == old(fds)[fd - offset := Slot(None, -1)]
              && FdTable.Lookup(fds, offset, fd) == FdTable.Resolved(None, -1))
    {
      Init(env);
      if exited {
        return -1, [];
      }
      var client, rfd := GetAppClientFd(fd);
      if client.None? {
        return orig, [OriginalClose(rfd)];
      }
      events := [RemoteClose(client.value, rfd)];
      match reply {
        case TransportFailure =>
          ret := -1;
        case Returned(v) =>
          if v != 0 {
            ret := xlate(-(v as int));
          } else {
            var index := fd - offset;
            var freed := DeregisterFd(client.value, index);
            assert freed == 0;
            ret := v;
          }
      }
    }

    /** `connect(fd, name, namelen)`: the remote path obtains the host's
        client, asks the remote side to connect, and registers the remote
        descriptor it returns under a new virtual descriptor; when
        registration fails it closes the remote descriptor again. */
    method Connect(fd: int32, name: Address, env: Offset.InitEnv, orig: int,
                   host: Option<string>, allocOk: bool, created: Option<Handle>,
                   reply: Reply, fdAllocOk: bool, xlate: int -> int32)
      returns (ret: int, events: seq<Event>)
      requires Valid() && !exited
      requires created.Some? ==> created.value !in Registry.Handles(clients)
      modifies this`initialized, this`offset, this`exited, this`fds, this`clients
      ensures Valid() && InitDone(env)
      ensures exited ==> events == [] && fds == old(fds) && clients == old(clients)
      ensures !exited && !RemoteName.IsRemote(name) ==>
        ret == orig && events == [OriginalConnect(fd, name)] && fds == old(fds) && clients == old(clients)
      ensures !exited && RemoteName.IsRemote(name) ==>
        var g := Registry.GetClient(old(clients), host, allocOk, created);
        && clients == g.entries
        && (g.client.None? ==> ret == -1 && events == [] && fds == old(fds))
        && (g.client.Some? ==> |events| >= 1 && events[0] == RemoteConnect(g.client.value, fd))
        && (g.client.Some? && reply.TransportFailure? ==> ret == -1 && |events| == 1 && fds == old(fds))
        && (g.client.Some? && reply.Returned? && reply.value < 0 ==>
              ret == xlate(-(reply.value as int)) && |events| == 1 && fds == old(fds))
        && (g.client.Some? && reply.Returned? && reply.value >= 0 ==>
              var reg := FdTable.Register(old(fds), offset, g.client.value, reply.value, fdAllocOk);
              && fds == reg.slots
              && (reg.ret == 0 ==> ret == reg.fd && |events| == 1)
              && (reg.ret != 0 ==> ret == -1 && events == [RemoteConnect(g.client.value, fd), RemoteClose(g.client.value, reply.value)]))
    {
      Init(env);
      if exited {
        return -1, [];
      }
      if !RemoteName.IsRemote(name) {
        return orig, [OriginalConnect(fd, name)];
      }
      var client := GetAppClient(host, allocOk, created);
      if client.None? {
        return -1, [];
      }
      events := [RemoteConnect(client.value, fd)];
      match reply {
        case TransportFailure =>
          ret := -1;
        case Returned(v) =>
          if v < 0 {
            ret := xlate(-(v as int));
          } else {
            var status, vfd := RegisterFd(client.value, v, fdAllocOk);
            if status != 0 {
              events := events + [RemoteClose(client.value, v)];
              ret := -1;
            } else {
              ret := vfd;
            }
          }
      }
    }

    /** `recv(fd, buf, count, flags)`.  The remote side is trusted to
        report no more bytes than were asked for and than it supplied. */
    method Recv(fd: int32, buf: array<byte>, count: nat, flags: int32, env: Offset.InitEnv, orig: int,
                bufferOk: bool, reply: RecvReply, xlate: int -> int32)
      returns (ret: int, events: seq<Event>)
      requires Valid() && !exited
      requires count <= buf.Length
      requires reply.Received? && reply.value > 0 ==> reply.value <= count && reply.value <= |reply.data|
      modifies this`initialized, this`offset, this`exited, buf
      ensures Valid() && InitDone(env)
      ensures exited ==> events == [] && buf[..] == old(buf[..])
      ensures !exited ==>
        Dispatch.RecvContract(FdTable.Lookup(fds, offset, fd), count, flags, orig, bufferOk, reply,
                              xlate, old(buf[..]), buf[..], ret, events)
    {
      Init(env);
      if exited {
        return -1, [];
      }
      var client, rfd := GetAppClientFd(fd);
      if client.None? {
        return orig, [OriginalRead(rfd, count)];
      }
      if !bufferOk {
        return -1, [];
      }
      events := [RemoteRecv(client.value, rfd, count, flags)];
      match reply {
        case RecvFailure =>
          ret := -1;
        case Received(v, data) =>
          if v < 0 {
            ret := xlate(-(v as int));
          } else {
            if v > 0 {
              forall k | 0 <= k < v {
                buf[k] := data[k];
              }
            }
            assert buf[..] == Dispatch.CopyIn(old(buf[..]), data, v);
            ret := v;
          }
      }
    }

    /** `read(fd, buf, count)`: `recv` with flags 0; both fall back to the
        original `read`. */
    method Read(fd: int32, buf: array<byte>, count: nat, env: Offset.InitEnv, orig: int,
                bufferOk: bool, reply: RecvReply, xlate: int -> int32)
      returns (ret: int, events: seq<Event>)
      requires Valid() && !exited
      requires count <= buf.Length
      requires reply.Received? && reply.value > 0 ==> reply.value <= count && reply.value <= |reply.data|
      modifies this`initialized, this`offset, this`exited, buf
      ensures Valid() && InitDone(env)
      ensures exited ==> events == [] && buf[..] == old(buf[..])
      ensures !exited ==>
        Dispatch.RecvContract(FdTable.Lookup(fds, offset, fd), count, 0, orig, bufferOk, reply,
                              xlate, old(buf[..]), buf[..], ret, events)
    {
      ret, events := Recv(fd, buf, count, 0, env, orig, bufferOk, reply, xlate);
    }

    /** `send(fd, buf, count, flags)`; it falls back to the original
        `write`, dropping the flags. */
    method Send(fd: int32, buf: seq<byte>, count: nat, flags: int32, env: Offset.InitEnv, orig: int,
                bufferOk: bool, reply: Reply, xlate: int -> int32)
      returns (ret: int, events: seq<Event>)
      requires Valid() && !exited
      requires count <= |buf|
      modifies this`initialized, this`offset, this`exited
      ensures Valid() && InitDone(env)
      ensures exited ==> events == []
      ensures !exited ==>
        Dispatch.SendContract(FdTable.Lookup(fds, offset, fd), buf, count, flags, orig, bufferOk, reply,
                              xlate, ret, events)
    {
      Init(env);
      if exited {
        return -1, [];
      }
      var client, rfd := GetAppClientFd(fd);
      if client.None? {
        return orig, [OriginalWrite(rfd, buf[..count])];
      }
      if !bufferOk {
        return -1, [];
      }
      events := [RemoteSend(client.value, rfd, buf[..count], count, flags)];
      match reply {
        case TransportFailure =>
          ret := -1;
        case Returned(v) =>
          ret := if v < 0 then xlate(-(v as int)) else v;
      }
    }

    /** `write(fd, buf, count)`: `send` with flags 0. */
    method Write(fd: int32, buf: seq<byte>, count: nat, env: Offset.InitEnv, orig: int,
                 bufferOk: bool, reply: Reply, xlate: int -> int32)
      returns (ret: int, events: seq<Event>)
      requires Valid() && !exited
      requires count <= |buf|
      modifies this`initialized, this`offset, this`exited
      ensures Valid() && InitDone(env)
      ensures exited ==> events == []
      ensures !exited ==>
        Dispatch.SendContract(FdTable.Lookup(fds, offset, fd), buf, count, 0, orig, bufferOk, reply,
                              xlate, ret, events)
    {
      ret, events := Send(fd, buf, count, 0, env, orig, bufferOk, reply, xlate);
    }
  }
}
