/** The profiler's state and its transitions as functions on values. */
module ProfilerStates {
  import opened Common
  import opened Sampling
  import opened Ticks

  const CHECK_INTERVAL: nat := 512

  datatype ProfilerState = ProfilerState(
    ready: bool, running: bool, capped: bool,
    period: nat, maxDepth: nat, deadline: nat,
    profile: Profile, counters: Counters,
    checkedInterrupts: nat, checkedTicks: nat,
    pendingTicks: nat, pendingDeliveries: nat)

  function Initial(ready: bool): ProfilerState {
    ProfilerState(ready, false, false, 0, 0, 0, EMPTY, ZERO, 0, 0, 0, 0)
  }

  /** The timer signal. */
  function Ticked(s: ProfilerState, ticks: nat): ProfilerState {
    s.(pendingTicks := s.pendingTicks + Max(ticks, 1), pendingDeliveries := s.pendingDeliveries + 1)
  }

  function Stopped(s: ProfilerState): ProfilerState {
    if !s.running then s else s.(running := false, pendingTicks := 0, pendingDeliveries := 0)
  }

  function WasReset(s: ProfilerState): ProfilerState {
    if !s.ready then s
    else s.(profile := EMPTY, counters := ZERO, checkedInterrupts := 0, checkedTicks := 0, capped := false)
  }

  /** Starting discards the last profile; `armed` is whether the timer could be armed. */
  function Started(s: ProfilerState, period: nat, maxDepth: nat, duration: nat, now: nat, armed: bool): (ProfilerState, bool) {
    if !s.ready || period == 0 then (s, false)
    else
      var s' := WasReset(s).(maxDepth := EffectiveDepth(maxDepth), period := period,
                             deadline := if duration == 0 then 0 else now + duration);
      if armed then (s'.(running := true), true) else (s'.(period := 0), false)
  }

  /** The valve is looked at once enough interrupts, or enough ticks, have gone by. */
  predicate CheckDue(s: ProfilerState) {
    && s.deadline != 0
    && (s.counters.interrupts - s.checkedInterrupts >= CHECK_INTERVAL
        || s.counters.ticks - s.checkedTicks >= CHECK_INTERVAL)
  }

  function DeadlineChecked(s: ProfilerState, now: nat): ProfilerState {
    if !CheckDue(s) then s
    else
      var s' := s.(checkedInterrupts := s.counters.interrupts, checkedTicks := s.counters.ticks);
      if now > s.deadline then Stopped(s').(capped := true) else s'
  }

  /** The interrupt at a safe point, taking both pending counters as one step. */
  ghost function Interrupted(s: ProfilerState, limits: Limits, stack: Stack, now: nat): ProfilerState
    requires s.profile.tree.nodes != []
  {
    var taken := s.(pendingTicks := 0, pendingDeliveries := 0);
    if s.pendingTicks > 0 && s.running && s.ready then
      var booked := taken.(
        counters := Book(s.counters, s.pendingTicks, s.pendingDeliveries),
        profile := Collected(s.profile, limits, s.maxDepth, stack, s.pendingTicks));
      DeadlineChecked(booked, now)
    else taken
  }

  function AfterFork(s: ProfilerState): ProfilerState {
    WasReset(s.(running := false, pendingTicks := 0, pendingDeliveries := 0))
  }
}
