/** The virtual descriptor table `_vpn_clients_fd` as a value: slot `i`
    stands for the virtual descriptor `offset + i`. */
module FdTable {
  import opened Types

  /** The lowest index whose slot is free (stored descriptor negative). */
  function FirstFree(slots: seq<Slot>): (r: Option<nat>)
    ensures r.Some? ==> r.value < |slots| && slots[r.value].fd < 0
    ensures r.Some? ==> forall j :: 0 <= j < r.value ==> slots[j].fd >= 0
    ensures r.None? ==> forall j :: 0 <= j < |slots| ==> slots[j].fd >= 0
  {
    if slots == [] then None
    else if slots[0].fd < 0 then Some(0)
    else match FirstFree(slots[1..])
      case Some(i) => Some(i + 1)
      case None => None
  }

  /** Status, new value of the caller's `*fd`, and new table of
      `_libvpn_register_fd`. */
  datatype Registered = Registered(ret: int, fd: int32, slots: seq<Slot>)

  /** `_libvpn_register_fd(client, &fd)`: store `(client, fd)` in the
      lowest free slot, else in one new slot at the end when the table
      can grow (`allocOk`); hand back the virtual descriptor of that slot
      through `*fd`. */
  function Register(slots: seq<Slot>, offset: int32, client: Handle, fd: int32, allocOk: bool): (r: Registered)
    ensures forall i :: 0 <= i < |slots| && slots[i].fd < 0 && (forall j :: 0 <= j < i ==> slots[j].fd >= 0) ==>
      r == Registered(0, WrapInt32(offset + i), slots[i := Slot(Some(client), fd)])
    ensures (forall j :: 0 <= j < |slots| ==> slots[j].fd >= 0) ==>
      r == if allocOk then Registered(0, WrapInt32(offset + |slots|), slots + [Slot(Some(client), fd)])
           else Registered(-1, fd, slots)
  {
    match FirstFree(slots)
    case Some(i) => Registered(0, WrapInt32(offset + i), slots[i := Slot(Some(client), fd)])
    case None =>
      if allocOk then Registered(0, WrapInt32(offset + |slots|), slots + [Slot(Some(client), fd)])
      else Registered(-1, fd, slots)
  }

  /** The client `_libvpn_get_appclient_fd` returns and the new value of
      the caller's `*fd`. */
  datatype Resolved = Resolved(client: Option<Handle>, fd: int32)

  /** `_libvpn_get_appclient_fd(&fd)`: a descriptor below the offset or
      past the end of the table is not virtual; any other one yields the
      slot's client (NULL for a freed slot) and its remote descriptor. */
  function Lookup(slots: seq<Slot>, offset: int32, fd: int32): Resolved
  {
    if fd < offset then Resolved(None, fd)
    else if fd - offset >= |slots| then Resolved(None, fd)
    else Resolved(slots[fd - offset].client, slots[fd - offset].fd)
  }

  /** Status and new table of `_libvpn_deregister_fd`. */
  datatype Deregistered = Deregistered(ret: int, slots: seq<Slot>)

  /** `_libvpn_deregister_fd(client, index)`: free the slot at `index`
      when it is in range and owned by `client`; otherwise fail and change
      nothing.  The argument is used as a table index as it is. */
  function Deregister(slots: seq<Slot>, client: Handle, index: int32): (r: Deregistered)
    ensures r.ret == 0 <==> 0 <= index < |slots| && slots[index].client == Some(client)
    ensures r.ret != 0 ==> r.ret == -1 && r.slots == slots
    ensures r.ret == 0 ==> |r.slots| == |slots| && r.slots[index] == Slot(None, -1)
    ensures r.ret == 0 ==> forall j :: 0 <= j < |slots| && j != index ==> r.slots[j] == slots[j]
  {
    if index < 0 || index >= |slots| then Deregistered(-1, slots)
    else if slots[index].client != Some(client) then Deregistered(-1, slots)
    else Deregistered(0, slots[index := Slot(None, -1)])
  }

  /** Descriptors below the offset are never virtual, whatever the table
      holds. */
  lemma BelowOffsetNeverVirtual(slots: seq<Slot>, offset: int32, fd: int32)
    requires fd < offset
    ensures Lookup(slots, offset, fd) == Resolved(None, fd)
  {
  }

  /** A successful registration yields a descriptor at or above the
      offset, and resolving it at once gives back exactly the client and
      remote descriptor just stored (as long as the descriptor fits in an
      `int32` without wrapping). */
  lemma RegisterThenLookup(slots: seq<Slot>, offset: int32, client: Handle, fd: int32, allocOk: bool)
    requires offset + |slots| <= INT32_MAX
    requires Register(slots, offset, client, fd, allocOk).ret == 0
    ensures var r := Register(slots, offset, client, fd, allocOk);
      offset <= r.fd && Lookup(r.slots, offset, r.fd) == Resolved(Some(client), fd)
  {
  }

  /** After a successful deregistration of slot `index`, its virtual
      descriptor resolves to no client, and the next registration reuses
      that slot when every lower slot is still taken (reuse before growth). */
  lemma DeregisterThenReuse(slots: seq<Slot>, offset: int32, owner: Handle, index: int32,
                            client: Handle, fd: int32, allocOk: bool)
    requires offset + index <= INT32_MAX
    requires Deregister(slots, owner, index).ret == 0
    requires forall j :: 0 <= j < index ==> slots[j].fd >= 0
    ensures var freed := Deregister(slots, owner, index).slots;
      Lookup(freed, offset, offset + index) == Resolved(None, -1)
      && Register(freed, offset, client, fd, allocOk)
         == Registered(0, offset + index, freed[index := Slot(Some(client), fd)])
  {
  }
}
