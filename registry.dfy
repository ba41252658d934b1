/** The remote endpoint registry `_vpn_clients` as a value: an
    append-only list of (host, client) entries searched in order. */
module Registry {
  import opened Types

  /** The index of the first entry named `host`; entries without a name
      (a client that could not be created) never match. */
  function FindHost(entries: seq<ClientEntry>, host: string): (r: Option<nat>)
    ensures r.Some? ==> r.value < |entries| && entries[r.value].name == Some(host)
    ensures r.Some? ==> forall j :: 0 <= j < r.value ==> entries[j].name != Some(host)
    ensures r.None? ==> forall j :: 0 <= j < |entries| ==> entries[j].name != Some(host)
  {
    if entries == [] then None
    else if entries[0].name == Some(host) then Some(0)
    else match FindHost(entries[1..], host)
      case Some(i) => Some(i + 1)
      case None => None
  }

  /** Every client the registry holds. */
  function Handles(entries: seq<ClientEntry>): set<Handle>
  {
    set i | 0 <= i < |entries| && entries[i].client.Some? :: entries[i].client.value
  }

  /** The registry invariant: an entry has a name exactly when it has a
      client, no host name is stored twice, and no client is stored twice. */
  ghost predicate Wf(entries: seq<ClientEntry>)
  {
    && (forall i :: 0 <= i < |entries| ==> (entries[i].name.Some? <==> entries[i].client.Some?))
    && (forall i, j :: 0 <= i < j < |entries| && entries[i].name.Some? ==> entries[i].name != entries[j].name)
    && (forall i, j :: 0 <= i < j < |entries| && entries[i].client.Some? ==> entries[i].client != entries[j].client)
  }

  /** The client `_libvpn_get_appclient` returns and the registry after it. */
  datatype Got = Got(client: Option<Handle>, entries: seq<ClientEntry>)

  /** `_libvpn_get_appclient`: with no host name, NULL; a host already
      present yields its stored client; otherwise, when the list can grow
      (`allocOk`), one entry is appended before `appclient_new` runs
      (`created`), and it stays, nameless, when that fails. */
  function GetClient(entries: seq<ClientEntry>, host: Option<string>, allocOk: bool, created: Option<Handle>): (r: Got)
    ensures |entries| <= |r.entries| <= |entries| + 1 && r.entries[..|entries|] == entries
    ensures host.None? ==> r == Got(None, entries)
    ensures r.client.Some? ==> host.Some? && r.client.value in Handles(r.entries)
    ensures host.Some? && FindHost(entries, host.value).Some? ==>
      r == Got(entries[FindHost(entries, host.value).value].client, entries)
    ensures host.Some? && FindHost(entries, host.value).None? && !allocOk ==> r == Got(None, entries)
    ensures host.Some? && FindHost(entries, host.value).None? && allocOk ==>
      r.client == created
      && r.entries == entries + [if created.None? then ClientEntry(None, None) else ClientEntry(host, created)]
  {
    match host
    case None => Got(None, entries)
    case Some(h) =>
      match FindHost(entries, h)
      case Some(i) => Got(entries[i].client, entries)
      case None =>
        if !allocOk then Got(None, entries)
        else if created.None? then Got(None, entries + [ClientEntry(None, None)])
        else
          var grown := entries + [ClientEntry(host, created)];
          assert grown[|entries|].client.value in Handles(grown);
          Got(created, grown)
  }

  /** The client stored under a host name is the one a lookup of that name
      returns, on a hit and on a fresh creation alike. */
  lemma {:induction false} GetClientIsStoredUnderHost(entries: seq<ClientEntry>, host: string, allocOk: bool, created: Option<Handle>)
    requires GetClient(entries, Some(host), allocOk, created).client.Some?
    ensures var g := GetClient(entries, Some(host), allocOk, created);
      var i := FindHost(g.entries, host);
      i.Some? && g.entries[i.value].client == g.client
  {
    var g := GetClient(entries, Some(host), allocOk, created);
    if FindHost(entries, host).None? {
      assert g.entries == entries + [ClientEntry(Some(host), created)];
      FindHostAppend(entries, host, ClientEntry(Some(host), created));
    }
  }

  /** Appending an entry keeps an earlier match, and a miss plus an
      appended match finds the new entry. */
  lemma {:induction false} FindHostAppend(entries: seq<ClientEntry>, host: string, e: ClientEntry)
    ensures FindHost(entries + [e], host) ==
      match FindHost(entries, host)
      case Some(i) => Some(i)
      case None => if e.name == Some(host) then Some(|entries|) else None
  {
    if entries != [] {
      assert (entries + [e])[1..] == entries[1..] + [e];
      FindHostAppend(entries[1..], host, e);
    }
  }

  /** `GetClient` keeps the registry invariant, given that `appclient_new`
      returns an object the registry does not hold yet. */
  lemma GetClientKeepsWf(entries: seq<ClientEntry>, host: Option<string>, allocOk: bool, created: Option<Handle>)
    requires Wf(entries)
    requires created.Some? ==> created.value !in Handles(entries)
    ensures Wf(GetClient(entries, host, allocOk, created).entries)
  {
  }

  /** Asking twice for the same host gives the identical client, and the
      second request changes nothing. */
  lemma SameHostSameClient(entries: seq<ClientEntry>, host: string,
                           allocOk: bool, created: Option<Handle>,
                           allocOk': bool, created': Option<Handle>)
    requires GetClient(entries, Some(host), allocOk, created).client.Some?
    ensures var g := GetClient(entries, Some(host), allocOk, created);
      GetClient(g.entries, Some(host), allocOk', created') == g
  {
    GetClientIsStoredUnderHost(entries, host, allocOk, created);
  }

  /** Two requests for different hosts that both succeed give different
      clients. */
  lemma DistinctHostsDistinctClients(entries: seq<ClientEntry>, h1: string, h2: string,
                                     allocOk1: bool, created1: Option<Handle>,
                                     allocOk2: bool, created2: Option<Handle>)
    requires Wf(entries) && h1 != h2
    requires created1.Some? ==> created1.value !in Handles(entries)
    requires var g1 := GetClient(entries, Some(h1), allocOk1, created1);
      created2.Some? ==> created2.value !in Handles(g1.entries)
    requires var g1 := GetClient(entries, Some(h1), allocOk1, created1);
      g1.client.Some? && GetClient(g1.entries, Some(h2), allocOk2, created2).client.Some?
    ensures var g1 := GetClient(entries, Some(h1), allocOk1, created1);
      GetClient(g1.entries, Some(h2), allocOk2, created2).client != g1.client
  {
  }
}
