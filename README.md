# libVPN: virtual descriptors over an RPC channel

`tools/vpn.c` of DeforaOS VPN is a preloadable library. It shadows `close`,
`connect`, `read`, `recv`, `send` and `write`. A `connect` that goes through
the remote path obtains an `AppClient` for the remote host. It asks that
host to connect and hands the caller a *virtual descriptor*: the remote
descriptor is stored in slot `i` of a process-wide table, and the caller
gets `offset + i`. The offset is at least 1024, which keeps virtual
descriptors clear of the kernel's own. Later calls on a virtual descriptor
are forwarded as RPCs. Any other descriptor goes to the original C library
function.

This project models that library in Dafny:

- `Types` holds C's `int32_t` with explicit wrap-around, the table entries,
  the outcomes of the external calls, and `Event`. `Event` records which
  external call an entry point issued, and with which arguments.
- `Offset` is the one-time set-up of `_libvpn_init` and its choice of the
  offset.
- `RemoteName` is the placeholder classification of addresses.
- `FdTable` is the descriptor table `_vpn_clients_fd` as a value: register,
  look up, deregister.
- `Registry` is the host/client list `_vpn_clients` as a value, with its
  invariant: no host twice, no client twice.
- `Dispatch` holds the contracts that `read`/`recv` and `send`/`write` share.
- `LibVpn.Vpn` is a class. Its fields are the library's globals, and its
  methods are the C functions, with the same loops, branches and error
  paths. Each method is proved against the value-level functions above.
- `Scenarios` holds call sequences on a fresh library, proved from the
  methods' contracts alone.

Everything outside the library is a parameter of the entry points:
- the value the original primitive returns;
- what `appclient_call` reports (`TransportFailure` or `Returned(v)`, and
  for "recv" the bytes it left in the transient buffer);
- whether `realloc`/`buffer_new` succeed;
- the client `appclient_new` returns, assumed to be an object the registry
  does not already hold;
- the value of `APPSERVER_VPN`;
- what the set-up observes: whether the loader succeeded, and `rlim_max`
  or its absence;
- the error translation `_vpn_errno`, an arbitrary function from the code
  to the return value.

The model keeps these behaviours of the code, which a reader may not
expect:
- `close` translates every non-zero remote result, not only the negative
  ones.
- `_libvpn_get_appclient` keeps the appended entry when `appclient_new`
  fails. That entry has no name and no client.
- `recv` falls back to the original `read`, and `send` to the original
  `write` (dropping the flags). Because of this, `read` is exactly `recv`
  with flags 0, and `write` is exactly `send` with flags 0, and the model
  defines them that way.
- A lookup that lands on a freed slot returns NULL but still overwrites
  the caller's descriptor with -1. The original function then receives -1.

## Model

| member | source | states |
|---|---|---|
| Types.WrapInt32 | tools/vpn.c:252 | storing `offset + i` into an `int32_t` keeps it modulo 2^32, and keeps it unchanged when it fits |
| Offset.ComputeOffset | tools/vpn.c:124-134 | the process exits exactly when `rlim_max` exceeds INT_MAX; otherwise the offset is the larger of the current offset and `rlim_max`, and it is unchanged when `getrlimit` fails |
| Offset.Startup | tools/vpn.c:102-134 | once set up, nothing changes (one-shot); a loader failure exits; the offset never decreases |
| Offset.StartupOffsetBounds | tools/vpn.c:59 | starting from 1024, a set-up that carries on leaves an offset between 1024 and INT_MAX, at least `rlim_max`, and exactly 1024 when the limit is unknown or smaller |
| RemoteName.GetRemoteName | tools/vpn.c:206-214 | returns 0 exactly when neither the remote name nor its length is asked for, and -1 otherwise |
| RemoteName.IsRemote | tools/vpn.c:218-223 | under the placeholder, every address is classified remote |
| FdTable.FirstFree | tools/vpn.c:247-248 | the lowest index whose stored descriptor is negative, or none when every slot is taken |
| FdTable.Register | tools/vpn.c:242-263 | a free slot exists: the lowest one gets `(client, fd)`, `*fd` becomes `offset + index`, and no other slot and not the count changes. No free slot: exactly one slot is appended at index `count` and `offset + count` is returned. On allocation failure: -1, with table and `*fd` unchanged |
| FdTable.Deregister | tools/vpn.c:228-238 | succeeds exactly when the index is in range and the slot is owned by the caller's client; then that slot becomes `(NULL, -1)` and every other slot is kept; otherwise -1 and nothing changes |
| FdTable.BelowOffsetNeverVirtual | tools/vpn.c:183-184 | a descriptor below the offset never resolves to a client, and is left as it is, whatever the table holds |
| FdTable.RegisterThenLookup | tools/vpn.c:242-263 | after a successful registration (without int32 wrap-around) the virtual descriptor is at least the offset, and looking it up yields exactly the stored `(client, remote fd)` |
| FdTable.DeregisterThenReuse | tools/vpn.c:228-253 | after freeing slot `i`, its virtual descriptor resolves to no client; the next registration reuses slot `i` when all lower slots are taken (reuse before growth) |
| Registry.FindHost | tools/vpn.c:153-160 | the first entry whose name equals the host; entries without a name never match |
| Registry.GetClient | tools/vpn.c:144-175 | no host gives NULL and no change; a host already present yields its stored client and changes nothing; otherwise a failed `realloc` gives NULL and no change, and a successful one appends exactly one entry, `(host, client)` when `appclient_new` succeeds and a nameless, clientless entry when it fails, and returns that client (NULL on failure); a returned client is held by the registry |
| Registry.FindHostAppend | tools/vpn.c:153-160 | appending an entry keeps an earlier match; after a miss, the appended entry is found when it carries the host |
| Registry.GetClientIsStoredUnderHost | tools/vpn.c:156-174 | a client returned for a host is the one stored under that host afterwards, whether it was found or just created |
| Registry.GetClientKeepsWf | tools/vpn.c:161-174 | the registry invariant is preserved, given an `appclient_new` result the registry does not hold: names go with clients, no host twice, no client twice |
| Registry.SameHostSameClient | tools/vpn.c:153-160 | asking twice for the same host returns the identical client, and the second request changes nothing |
| Registry.DistinctHostsDistinctClients | tools/vpn.c:144-175 | two successful requests for different hosts return different clients |
| Dispatch.CopyIn | tools/vpn.c:343-344 | the first `count` bytes come from the remote data, and the rest of the caller's buffer is unchanged |
| LibVpn.Vpn.constructor | tools/vpn.c:53-59 | the state before any call: not set up, offset 1024, both tables empty |
| LibVpn.Vpn.Init | tools/vpn.c:92-139 | does nothing once set up; otherwise exits or sets the offset as `Offset.Startup` says; keeps the offset at least 1024 |
| LibVpn.Vpn.GetAppClient | tools/vpn.c:144-175 | the scanning loop returns the client and registry that `Registry.GetClient` gives, and keeps the registry invariant |
| LibVpn.Vpn.GetAppClientFd | tools/vpn.c:179-190 | the client and new `*fd` are those of `FdTable.Lookup`: below the offset, or at or past `offset + count`, NULL with `*fd` untouched; otherwise the slot's client, with `*fd` overwritten by the slot's remote descriptor |
| LibVpn.Vpn.DeregisterFd | tools/vpn.c:228-238 | status and new table are those of `FdTable.Deregister` |
| LibVpn.Vpn.RegisterFd | tools/vpn.c:242-263 | the scanning loop yields the status, new `*fd` and new table of `FdTable.Register` |
| LibVpn.Vpn.Close | tools/vpn.c:269-288 | a miss goes to the original `close` with the looked-up descriptor; on a hit the remote "close" gets the remote descriptor; transport failure gives -1; a non-zero result `v` gives the translation of `-v`; a zero result deregisters using the remote descriptor as index and returns 0 |
| LibVpn.Vpn.CloseFixed | tools/vpn.c:283-287 | as `Close`, except that a zero result frees the slot the virtual descriptor names, which afterwards resolves to no client |
| LibVpn.Vpn.Connect | tools/vpn.c:292-315 | the original `connect` is used only for non-remote addresses (none under the placeholder); no client or transport failure gives -1; a negative result `r` gives the translation of `-r`; otherwise the remote descriptor is registered and the virtual descriptor returned; a failed registration issues a remote "close" of the remote descriptor and gives -1 |
| LibVpn.Vpn.Recv | tools/vpn.c:351-379 | `Dispatch.RecvContract`: a miss goes to the original `read`; buffer or transport failure gives -1; a negative result `r` gives the translation of `-r`; otherwise exactly `r` bytes are copied into the caller's buffer (none when `r` is 0) and `r` is returned |
| LibVpn.Vpn.Read | tools/vpn.c:319-347 | the contract of `Recv` with flags 0 |
| LibVpn.Vpn.Send | tools/vpn.c:383-408 | `Dispatch.SendContract`: a miss goes to the original `write` with the first `count` bytes; buffer or transport failure gives -1; the remote "send" gets exactly those bytes, `count` and the flags; a negative result `r` gives the translation of `-r`, otherwise the result is returned unchanged |
| LibVpn.Vpn.Write | tools/vpn.c:412-437 | the contract of `Send` with flags 0 |
| Scenarios.CloseLeavesSlotRegistered | tools/vpn.c:283-287 | as written, `close(1024)` returns 0 after a successful remote close, yet 1024 still resolves to the closed remote descriptor |
| Scenarios.IntendedScenario | tools/vpn.c:292-315 | `connect` gives 1024; `send(1024, "abc", 3, 0)` forwards `(client, 5, "abc", 3, 0)` and returns 3; the corrected close frees slot 0; a `read` of 1024 then goes to the original `read`; the next `connect` reuses 1024 |
| Scenarios.EchoRoundTrip | tools/vpn.c:373-376 | `send` forwards all of `s` to client 7 and remote descriptor 5; when the remote side hands back the bytes that event carried and reports `n`, exactly the first `n` bytes of the caller's buffer are the first `n` bytes sent, and the rest is untouched |
| Scenarios.CloseFreesWrongSlot | tools/vpn.c:275-286 | as written, with 1024 naming remote descriptor 1 and 1025 naming remote descriptor 0, `close(1024)` returns 0, frees the slot of 1025 and leaves 1024 registered |
| Scenarios.NegativeConnectTranslated | tools/vpn.c:307-308 | a remote "connect" answering -5 makes `connect` return the translation of 5, and nothing is registered |

## Left out

- `dlopen`/`dlsym`/`dlclose`, the list of library paths tried, and the `exit(1)` on failure are foreign loader calls. `InitEnv.loaderOk` stands for their combined outcome, and `exited` for the process ending.
- `getrlimit` is an input (`InitEnv.rlimMax`, `None` when it fails).
- `appclient_call` and `appclient_new` (the RPC transport) are oracles. `buffer_new`, `buffer_get_data` and `buffer_delete` are a success flag plus byte sequences. Releasing the transient buffer on every path is not modelled, because the model has no heap buffers to leak.
- `_vpn_errno` and its table come from a file that is not part of this model. The translation is an arbitrary function parameter, and the `errno` it sets is not modelled.
- The effect of the original primitives on the caller's buffer (`old_read`) is not modelled: only their arguments and return value are.
- Memory ownership is not modelled: `string_delete` on the `getenv` result, and the uninitialised name of an entry whose client could not be created. The model gives such an entry no name.
- `DEBUG` `fprintf` output is not modelled.
- src/main.c is a launcher: it parses `-R` and calls `vpn()`, which is defined in a file that is not part of this model. It has no logic to model.
- Concurrency is not modelled. The library has no locks and no threads, so the model is single-threaded.
- LibVpn.Vpn.Recv: requires that the remote side report at most `count` bytes, and no more than it supplied. The source copies `ret` bytes without checking either bound. A larger report would overrun the caller's buffer, which the model cannot express.
- LibVpn.Vpn.Read: carries the same bound on the remote report as `LibVpn.Vpn.Recv`, for the same reason, since it is `recv` with flags 0.
- LibVpn.Vpn.Close, LibVpn.Vpn.Connect, LibVpn.Vpn.Recv, LibVpn.Vpn.Send (and so `CloseFixed`, `Read`, `Write`, `Dispatch.RecvContract`, `Dispatch.SendContract`): a negative remote result `v` is translated as `-v` over unbounded integers. For `v` = INT_MIN the C negation is signed overflow, which C leaves undefined; the model passes 2^31 to the translation there.
- FdTable.RegisterThenLookup: only covers tables where `offset + index` fits in an `int32_t`. Past that, the stored value wraps, as `Register` models with `WrapInt32`, and it no longer resolves.

## Findings

| source | as written | input that shows it | evidently intended | confidence | as-written member | corrected member |
|---|---|---|---|---|---|---|
| tools/vpn.c:275-286 | `close` overwrites `fd` with the remote descriptor during lookup, then passes it to `_libvpn_deregister_fd`, which uses it as a table index with no offset subtracted | one `connect` whose remote side returns descriptor 5 gives virtual descriptor 1024 in slot 0; `close(1024)` with a remote result of 0 returns 0, but index 5 is past the one-slot table, so slot 0 stays `(client, 5)` and 1024 still resolves to it. When the remote descriptor is a valid index, the wrong slot is freed: with 1024 naming remote descriptor 1 and 1025 naming remote descriptor 0, `close(1024)` frees the slot of 1025 | free the slot `virtual fd - offset`, so that the closed descriptor resolves to nothing and its slot is reused | not executed | LibVpn.Vpn.Close, shown by Scenarios.CloseLeavesSlotRegistered and Scenarios.CloseFreesWrongSlot | LibVpn.Vpn.CloseFixed, used by Scenarios.IntendedScenario |
