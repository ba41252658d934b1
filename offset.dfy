/** The one-time set-up of `_libvpn_init`: symbol resolution (an opaque
    success flag here) and the choice of the virtual descriptor offset. */
module Offset {
  import opened Types

  /** The initial value of `_vpn_offset`. */
  const DEFAULT_OFFSET: int32 := 1024

  /** What the set-up observes: whether the C library image opened and
      all six symbols resolved, and the `rlim_max` of RLIMIT_NOFILE
      (`None` when `getrlimit` fails). */
  datatype InitEnv = InitEnv(loaderOk: bool, rlimMax: Option<nat>)

  /** The process exits, or carries on with the given offset. */
  datatype InitOutcome = Exit | Ready(offset: int32)

  /** The offset after the resource-limit step: the larger of the current
      offset and `rlim_max`; an `rlim_max` beyond INT_MAX ends the process
      and a failed `getrlimit` keeps the current offset. */
  function ComputeOffset(current: int32, rlimMax: Option<nat>): (r: InitOutcome)
    ensures r.Exit? <==> rlimMax.Some? && rlimMax.value > INT32_MAX
    ensures r.Ready? ==> current <= r.offset
    ensures r.Ready? && rlimMax.Some? ==> rlimMax.value <= r.offset
    ensures r.Ready? ==> r.offset == current || (rlimMax.Some? && r.offset == rlimMax.value)
    ensures rlimMax.None? ==> r == Ready(current)
  {
    match rlimMax
    case None => Ready(current)
    case Some(m) =>
      if m > INT32_MAX then Exit
      else if current < m then Ready(m)
      else Ready(current)
  }

  /** The whole of `_libvpn_init` on the state it touches: nothing once
      the library is set up, an exit when the loader fails, else the
      offset step. */
  function Startup(initialized: bool, current: int32, env: InitEnv): (r: InitOutcome)
    ensures initialized ==> r == Ready(current)
    ensures !initialized && !env.loaderOk ==> r == Exit
    ensures r.Ready? ==> current <= r.offset
  {
    if initialized then Ready(current)
    else if !env.loaderOk then Exit
    else ComputeOffset(current, env.rlimMax)
  }

  /** Starting from `_vpn_offset = 1024`, a set-up that does not exit
      leaves an offset of at least 1024, a value of C's `int`, and one no
      smaller than the descriptor limit it read. */
  lemma StartupOffsetBounds(env: InitEnv)
    requires Startup(false, DEFAULT_OFFSET, env).Ready?
    ensures var o := Startup(false, DEFAULT_OFFSET, env).offset;
      DEFAULT_OFFSET <= o <= INT32_MAX
      && (env.rlimMax.Some? ==> env.rlimMax.value <= o)
      && (env.rlimMax.None? || env.rlimMax.value <= DEFAULT_OFFSET ==> o == DEFAULT_OFFSET)
  {
  }
}
