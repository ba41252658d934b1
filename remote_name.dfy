/** The placeholder address classification of libVPN. */
module RemoteName {
  import opened Types

  /** `_libvpn_get_remote_name`: the placeholder resolves nothing; it
      reports success (0) exactly when the caller asks for neither the
      remote name nor its length, and -1 otherwise.  The address itself
      is ignored. */
  function GetRemoteName(name: Address, wantName: bool, wantNameLen: bool): (r: int)
    ensures r == 0 || r == -1
    ensures r == 0 <==> !wantName && !wantNameLen
  {
    if !wantName && !wantNameLen then 0 else -1
  }

  /** `_libvpn_is_remote`: whether `connect` should go through the remote
      path.  It asks `GetRemoteName` for no output, so under the
      placeholder every address is remote. */
  function IsRemote(name: Address): (r: bool)
    ensures r
  {
    GetRemoteName(name, false, false) == 0
  }
}
