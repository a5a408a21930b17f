/** What holds over every run of calls, signals, safe points and forks of one process. */
module Lifecycle {
  import opened Common
  import opened CallPaths
  import opened Ops
  import opened Sampling
  import opened Telemetry
  import opened Ticks
  import P = ProfilerStates
  import R = ProfilerRuns

  /** `Looked` is a call that only looks whether the process was forked, such as status. */
  datatype Event =
    | Signal(ticks: nat)
    | SafePoint(stack: Stack, now: nat)
    | OpBegin(kind: nat, now: nat)
    | OpEnd(token: Token, now: nat)
    | RequestStart(period: int, maxDepth: int, env: Env)
    | RequestEnd
    | Begin(want: Context, env: Env)
    | Finish(handle: int, env: Env)
    | Looked(pid: nat)

  ghost function Next(c: Config, s: TelemetryState, e: Event): TelemetryState
    requires Shaped(s.ops) && s.profiler.profile.tree.nodes != []
  {
    match e
    case Signal(ticks) => s.(profiler := P.Ticked(s.profiler, ticks))
    case SafePoint(stack, now) => s.(profiler := P.Interrupted(s.profiler, c.limits, stack, now))
    case OpBegin(kind, now) => OpBegun(s, kind, now).0
    case OpEnd(token, now) => OpEnded(s, token, now)
    case RequestStart(period, maxDepth, env) => RequestStarted(c, s, period, maxDepth, env)
    case RequestEnd => RequestEnded(s)
    case Begin(want, env) => UnitBegun(c, s, want, env).0
    case Finish(handle, env) => UnitFinished(c, s, handle, env).0
    case Looked(pid) => ForkDetected(c, s, pid)
  }

  // ---------------------------------------------------------- what every state keeps

  ghost predicate Clean(p: P.ProfilerState) {
    p.profile == EMPTY && p.counters == ZERO && !p.running && !p.capped
  }

  /** The open unit is the newest; an operation table always has its shape. */
  ghost predicate UnitSound(c: Config, s: TelemetryState) {
    && Shaped(s.ops)
    && (if s.unit.handle == 0 then s.unit == NO_UNIT else s.unit.handle == s.nextHandle)
    && (s.unit.adopted ==> s.unit.automatic)
    && (s.unit.profiling ==> s.unit.sampled && c.profilerEnabled)
  }

  /** The profiler runs only for an open unit marked profiling; its deadline is for units nobody claimed. */
  ghost predicate ProfilerSound(c: Config, s: TelemetryState) {
    var unit, p := s.unit, s.profiler;
    && (c.profilerEnabled ==> p.ready)
    && (p.running ==> unit.handle != 0 && unit.profiling)
    && (p.running ==> (p.deadline != 0 <==> unit.automatic && !unit.adopted))
    && (!unit.profiling ==> Clean(p))
    && R.Paired(p) && R.Balanced(p) && R.RecentlyChecked(p)
  }

  ghost predicate Sound(c: Config, s: TelemetryState) {
    UnitSound(c, s) && ProfilerSound(c, s)
  }

  lemma ForkKeepsSound(c: Config, s: TelemetryState, pid: nat)
    requires Sound(c, s)
    ensures Sound(c, ForkDetected(c, s, pid))
  {
    EmptyIsConsistent();
  }

  lemma OpeningKeepsSound(c: Config, s: TelemetryState, kind: nat, want: Context, automatic: bool, env: Env)
    requires Sound(c, s) && StartedUp(c) && !s.profiler.running
    ensures Sound(c, UnitOpened(c, s, kind, want, automatic, env))
  {
    EmptyIsConsistent();
  }

  lemma AdoptingKeepsSound(c: Config, s: TelemetryState, want: Context, env: Env)
    requires Sound(c, s) && Adoptable(s.unit)
    ensures Sound(c, UnitAdopted(c, s, want, env))
  {
    EmptyIsConsistent();
  }

  lemma ClosingKeepsSound(c: Config, s: TelemetryState)
    requires Sound(c, s)
    ensures Sound(c, UnitClosed(s)) && Clean(UnitClosed(s).profiler)
  {
    EmptyIsConsistent();
  }

  lemma BeginKeepsSound(c: Config, s: TelemetryState, want: Context, env: Env)
    requires Sound(c, s) && StartedUp(c)
    ensures Sound(c, UnitBegun(c, s, want, env).0)
  {
    ForkKeepsSound(c, s, env.pid);
    var mine := ForkDetected(c, s, env.pid);
    if Adoptable(mine.unit) {
      AdoptingKeepsSound(c, mine, want, env);
    } else {
      var stopped := mine.(profiler := if mine.unit.handle != 0 then P.Stopped(mine.profiler) else mine.profiler);
      OpeningKeepsSound(c, stopped, want.kind.UnwrapOr(UNIT_OTHER), want, false, env);
    }
  }

  lemma RequestStartKeepsSound(c: Config, s: TelemetryState, period: int, maxDepth: int, env: Env)
    requires Sound(c, s) && StartedUp(c)
    ensures Sound(c, RequestStarted(c, s, period, maxDepth, env))
  {
    ForkKeepsSound(c, s, env.pid);
    var mine := ForkDetected(c, s, env.pid);
    if mine.unit.handle == 0 {
      OpeningKeepsSound(c, mine, c.sapiKind, Context(None, true, true, period, maxDepth), true, env);
    }
  }

  lemma SamplingKeepsSound(c: Config, s: TelemetryState, e: Event)
    requires Sound(c, s) && (e.Signal? || e.SafePoint?)
    ensures Sound(c, Next(c, s, e))
  {
    var event := if e.Signal? then R.Signal(e.ticks) else R.SafePoint(e.stack, e.now);
    assert Next(c, s, e).profiler == R.Next(s.profiler, c.limits, event);
    R.NextKeepsBalance(s.profiler, c.limits, event);
  }

  lemma NextKeepsSound(c: Config, s: TelemetryState, e: Event)
    requires Sound(c, s) && StartedUp(c)
    ensures Sound(c, Next(c, s, e))
  {
    match e
    case Signal(_) => SamplingKeepsSound(c, s, e);
    case SafePoint(_, _) => SamplingKeepsSound(c, s, e);
    case OpBegin(_, _) =>
    case OpEnd(_, _) =>
    case RequestStart(period, maxDepth, env) => RequestStartKeepsSound(c, s, period, maxDepth, env);
    case RequestEnd => ClosingKeepsSound(c, s);
    case Begin(want, env) => BeginKeepsSound(c, s, want, env);
    case Finish(_, env) =>
      ForkKeepsSound(c, s, env.pid);
      ClosingKeepsSound(c, ForkDetected(c, s, env.pid));
    case Looked(pid) => ForkKeepsSound(c, s, pid);
  }

  ghost function After(c: Config, s: TelemetryState, events: seq<Event>): (s': TelemetryState)
    requires Sound(c, s) && StartedUp(c)
    ensures Sound(c, s')
    decreases |events|
  {
    if events == [] then s
    else
      var before, last := After(c, s, events[..|events| - 1]), events[|events| - 1];
      NextKeepsSound(c, before, last);
      Next(c, before, last)
  }

  lemma StartupIsSound(c: Config, ready: bool, pid: nat)
    requires c.profilerEnabled ==> ready
    ensures Sound(c, Startup(ready, pid))
  {
    EmptyIsConsistent();
  }

  /** In every state a process can reach. */
  lemma EveryRun(c: Config, ready: bool, pid: nat, events: seq<Event>)
    requires StartedUp(c) && (c.profilerEnabled ==> ready)
    ensures Sound(c, Startup(ready, pid))
    ensures var s := After(c, Startup(ready, pid), events);
      && (s.profiler.running ==> s.unit.handle != 0 && s.unit.profiling)
      && (s.profiler.running ==> (s.profiler.deadline != 0 <==> s.unit.automatic && !s.unit.adopted))
      && (s.unit.handle == 0 || !s.unit.profiling ==> Clean(s.profiler))
      && s.profiler.profile.samples + s.profiler.profile.dropped == s.profiler.counters.ticks
      && s.profiler.profile.tree.total == s.profiler.profile.samples
  {
    StartupIsSound(c, ready, pid);
  }

  /** The profiler samples at the period asked for, in microseconds and clamped, and to the depth asked for, clamped. */
  ghost predicate SetAsAsked(p: P.ProfilerState, periodUs: int, maxDepth: int) {
    && p.period == 1000 * (if periodUs < 100 then 100 else if periodUs > 100000 then 100000 else periodUs)
    && p.maxDepth == (if maxDepth < 1 then 1 else if maxDepth > 256 then 256 else maxDepth)
  }

  /** A request opens no unit of its own while one is open, or when that is not configured. */
  lemma RequestLeavesUnit(c: Config, s: TelemetryState, period: int, maxDepth: int, env: Env)
    requires !c.active || !c.enabled || !c.autoStart || ForkDetected(c, s, env.pid).unit.handle != 0
    ensures RequestStarted(c, s, period, maxDepth, env) == ForkDetected(c, s, env.pid)
  {
  }

  /** An automatic unit is sampled from an empty profile as configured, until a deadline between a second and an hour away. */
  lemma AutomaticStart(c: Config, s: TelemetryState, period: int, maxDepth: int, env: Env)
    requires Sound(c, s) && StartedUp(c)
    requires c.active && c.enabled && c.autoStart && ForkDetected(c, s, env.pid).unit.handle == 0
    ensures var t := RequestStarted(c, s, period, maxDepth, env);
      && Adoptable(t.unit) && t.unit.handle == s.nextHandle + 1 && t.unit.sampled && t.unit.start == env.now
      && t.unit.kind == c.sapiKind
      && (t.unit.profiling <==> t.profiler.running) && (t.profiler.running <==> c.profilerEnabled && env.armed)
      && t.profiler.profile == EMPTY && t.profiler.counters == ZERO
      && (t.profiler.running ==> t.profiler.deadline == env.now + c.autoMaxMs * 1_000_000)
      && (t.profiler.running ==> env.now + 1_000_000_000 <= t.profiler.deadline <= env.now + 3600_000_000_000)
      && (t.profiler.running ==> SetAsAsked(t.profiler, period, maxDepth))
  {
    ForkKeepsSound(c, s, env.pid);
  }

  // ------------------------------------------------------------------------ adoption

  /**
   The first begin in an automatic unit keeps its handle, its start and its operations; it keeps
   every sample and pending tick if a profile is running and still wanted, and lifts the deadline.
   */
  lemma AdoptionKeeps(c: Config, s: TelemetryState, want: Context, env: Env)
    requires Sound(c, s) && c.active && c.enabled && env.pid == s.pid && Adoptable(s.unit)
    ensures var (t, handle) := UnitBegun(c, s, want, env);
      && handle == s.unit.handle == t.unit.handle && t.unit.start == s.unit.start && t.ops == s.ops
      && t.nextHandle == s.nextHandle && !Adoptable(t.unit)
      && (want.sampled && want.profile && s.unit.profiling ==> t.profiler == s.profiler.(deadline := 0) && t.unit.profiling)
      && (!want.sampled || !want.profile ==> Clean(t.profiler) && !t.unit.profiling)
      && (t.profiler.running ==> t.profiler.deadline == 0)
      && t.unit.sampled == want.sampled && t.unit.kind == (if want.kind.Some? then want.kind.value else s.unit.kind)
      && (want.sampled && want.profile && !s.unit.profiling ==>
            && (t.unit.profiling <==> t.profiler.running) && (t.profiler.running <==> c.profilerEnabled && env.armed)
            && (t.profiler.running ==> SetAsAsked(t.profiler, want.period, want.maxDepth)))
  {
  }

  predicate WithinUnit(e: Event) {
    e.Signal? || e.SafePoint? || e.OpBegin? || e.OpEnd?
  }

  /** What an event within a unit means to the profiler. */
  function TimerEvent(e: Event): seq<R.Event> {
    match e
    case Signal(ticks) => [R.Signal(ticks)]
    case SafePoint(stack, now) => [R.SafePoint(stack, now)]
    case _ => []
  }

  function TimerEvents(events: seq<Event>): seq<R.Event> {
    if events == [] then [] else TimerEvents(events[..|events| - 1]) + TimerEvent(events[|events| - 1])
  }

  lemma SignalledJoins(front: seq<R.Event>, e: Event)
    ensures R.Signalled(front + TimerEvent(e)) == R.Signalled(front) + if e.Signal? then Max(e.ticks, 1) else 0
  {
    if TimerEvent(e) == [] {
      assert front + TimerEvent(e) == front;
    } else {
      assert (front + TimerEvent(e))[..|front|] == front;
    }
  }

  lemma ClaimedGoesOn(c: Config, s: TelemetryState, e: Event)
    requires Sound(c, s) && s.profiler.running && !Adoptable(s.unit) && WithinUnit(e)
    ensures var t := Next(c, s, e);
      && t.profiler.running && t.unit == s.unit && t.profiler.ready
      && t.profiler.counters.ticks + t.profiler.pendingTicks
           == s.profiler.counters.ticks + s.profiler.pendingTicks + if e.Signal? then Max(e.ticks, 1) else 0
  {
    hide Collected;
  }

  /** A claimed unit is never cut short: however long it runs, each of its ticks is booked or pending. */
  lemma {:induction false} ClaimedIsNeverCapped(c: Config, s: TelemetryState, events: seq<Event>)
    requires Sound(c, s) && StartedUp(c) && s.profiler.running && !Adoptable(s.unit)
    requires forall i :: 0 <= i < |events| ==> WithinUnit(events[i])
    ensures var t := After(c, s, events);
      && t.profiler.running && t.unit == s.unit && t.profiler.ready
      && t.profiler.counters.ticks + t.profiler.pendingTicks
           == s.profiler.counters.ticks + s.profiler.pendingTicks + R.Signalled(TimerEvents(events))
    decreases |events|
  {
    hide Next, TimerEvent;
    if events != [] {
      var last, front := events[|events| - 1], events[..|events| - 1];
      ClaimedIsNeverCapped(c, s, front);
      ClaimedGoesOn(c, After(c, s, front), last);
      SignalledJoins(TimerEvents(front), last);
    }
  }

  // ------------------------------------------------------------------- finishing

  /**
   A finish is answered exactly for the open unit of this very process, by its handle or by 0; any other
   only notices a fork.
   */
  lemma AnsweredIff(c: Config, s: TelemetryState, handle: int, env: Env)
    requires Sound(c, s)
    ensures var (t, report) := UnitFinished(c, s, handle, env);
      && (report.Some? <==> c.active && env.pid == s.pid && s.unit.handle != 0 && (handle == 0 || handle == s.unit.handle))
      && (report.None? ==> t == ForkDetected(c, s, env.pid))
  {
  }

  /** Each figure of a report is what the unit had when it was closed; the profile goes with it if asked for and not empty. */
  lemma ReportSays(c: Config, s: TelemetryState, handle: int, withProfile: bool, env: Env)
    requires Sound(c, s)
    ensures var (t, report) := UnitFinished(c, s, handle, env);
      report.Some? ==>
        var r, p := report.value, s.profiler;
        && r.duration == (if env.now > s.unit.start then env.now - s.unit.start else 0)
        && (forall k: nat :: k in r.operations <==> 0 < k < 6 && s.ops.agg[k].count > 0)
        && (forall k: nat :: k in r.operations ==> r.operations[k] == s.ops.agg[k])
        && r.overflow == s.ops.overflow
        && r.samples == p.profile.samples && r.dropped == p.profile.dropped && r.counters == p.counters
        && r.period == p.period && r.capped == p.capped
        && r.frameHits == p.profile.names.hits && r.nodeHits == p.profile.tree.hits
        && r.frames == |p.profile.names.ids| && r.nodes == |p.profile.tree.nodes|
        && Attached(ForkDetected(c, s, env.pid), withProfile)
             == (if withProfile && s.unit.profiling && r.samples > 0 then Some(p.profile) else None)
        && t.profiler.pendingTicks == (if p.running then 0 else p.pendingTicks)
        && t.nextHandle == s.nextHandle && t.ops.overflow == 0
  {
    AnsweredIff(c, s, handle, env);
  }

  /** Whatever led up to it, a report balances, and nothing of the unit outlives it. */
  lemma ReportsBalance(c: Config, s: TelemetryState, handle: int, withProfile: bool, env: Env)
    requires Sound(c, s)
    ensures var (t, report) := UnitFinished(c, s, handle, env);
      report.Some? ==>
        var r := report.value;
        && (r.kind, r.sampled, r.profiling, r.automatic) == (s.unit.kind, s.unit.sampled, s.unit.profiling, s.unit.automatic)
        && s.unit.start + r.duration == Max(s.unit.start, env.now)
        && r.samples + r.dropped == r.counters.ticks == r.counters.interrupts + r.counters.deferred + r.counters.overruns
        && (!r.profiling ==> r.counters == ZERO && r.samples == 0)
        && (var profile := Attached(ForkDetected(c, s, env.pid), withProfile);
            profile.Some? ==> Consistent(profile.value) && profile.value.samples == r.samples > 0)
        && t.unit == NO_UNIT && Clean(t.profiler) && t.ops == Ops.WasReset(s.ops)
  {
    ForkKeepsSound(c, s, env.pid);
    ClosingKeepsSound(c, ForkDetected(c, s, env.pid));
  }

  /** The end of a request closes a unit left open as a finish would, unreported, and does nothing else. */
  lemma RequestEndCloses(c: Config, s: TelemetryState, now: nat, armed: bool)
    ensures s.unit.handle == 0 ==> RequestEnded(s) == s
    ensures Shaped(s.ops) && c.active && s.unit.handle != 0 ==> RequestEnded(s) == UnitFinished(c, s, 0, Env(s.pid, now, armed)).0
  {
  }

  /** A handle given out before, of a unit no longer open. */
  ghost predicate Spent(s: TelemetryState, handle: nat) {
    0 < handle <= s.nextHandle && s.unit.handle != handle
  }

  /** No event brings back a unit: the open one stays, or is closed, or a new one has the next handle. */
  ghost predicate Moves(s: TelemetryState, s': TelemetryState) {
    || (s'.nextHandle == s.nextHandle && s'.unit.handle in {0, s.unit.handle})
    || s'.unit.handle == s'.nextHandle == s.nextHandle + 1
  }

  lemma ForkMoves(c: Config, s: TelemetryState, pid: nat)
    ensures ForkDetected(c, s, pid).nextHandle == s.nextHandle
    ensures ForkDetected(c, s, pid).unit.handle in {0, s.unit.handle}
  {
  }

  lemma NextMoves(c: Config, s: TelemetryState, e: Event)
    requires Sound(c, s)
    ensures Moves(s, Next(c, s, e))
  {
    match e
    case Signal(_) =>
    case SafePoint(_, _) =>
    case OpBegin(_, _) =>
    case OpEnd(_, _) =>
    case RequestStart(_, _, env) => ForkMoves(c, s, env.pid);
    case RequestEnd =>
    case Begin(_, env) => ForkMoves(c, s, env.pid);
    case Finish(_, env) => ForkMoves(c, s, env.pid);
    case Looked(pid) => ForkMoves(c, s, pid);
  }

  lemma {:induction false} SpentStaysSpent(c: Config, s: TelemetryState, handle: nat, events: seq<Event>)
    requires Sound(c, s) && StartedUp(c) && Spent(s, handle)
    ensures Spent(After(c, s, events), handle)
    decreases |events|
  {
    if events != [] {
      var front := events[..|events| - 1];
      SpentStaysSpent(c, s, handle, front);
      NextMoves(c, After(c, s, front), events[|events| - 1]);
    }
  }

  /** Finishing a unit spends its handle, and so does replacing it: a later finish with it changes nothing. */
  lemma FinishedOnce(c: Config, s: TelemetryState, handle: nat, events: seq<Event>, env: Env)
    requires Sound(c, s) && StartedUp(c) && Spent(s, handle)
    ensures var t := After(c, s, events);
      UnitFinished(c, t, handle, env) == (ForkDetected(c, t, env.pid), None)
  {
    SpentStaysSpent(c, s, handle, events);
  }

  lemma EndingSpends(c: Config, s: TelemetryState, want: Context, env: Env)
    requires Sound(c, s) && c.active && env.pid == s.pid && s.unit.handle != 0
    ensures Spent(UnitFinished(c, s, s.unit.handle, env).0, s.unit.handle)
    ensures Spent(RequestEnded(s), s.unit.handle)
    ensures c.enabled && !Adoptable(s.unit) ==> Spent(UnitBegun(c, s, want, env).0, s.unit.handle)
  {
  }

  /** A begin that does not adopt starts from nothing, whatever it abandons. */
  lemma BeginForgets(c: Config, s: TelemetryState, want: Context, env: Env)
    requires Sound(c, s) && c.active && c.enabled && !Adoptable(ForkDetected(c, s, env.pid).unit)
    ensures var (t, handle) := UnitBegun(c, s, want, env);
      && handle == t.unit.handle == s.nextHandle + 1 && t.unit.start == env.now && t.unit.sampled == want.sampled
      && !t.unit.automatic && (t.unit.profiling <==> t.profiler.running)
      && (t.profiler.running <==> want.profile && want.sampled && c.profilerEnabled && env.armed)
      && (t.profiler.running ==> t.profiler.deadline == 0 && SetAsAsked(t.profiler, want.period, want.maxDepth))
      && t.unit.kind == (if want.kind.Some? then want.kind.value else 5)
      && t.profiler.profile == EMPTY && t.profiler.counters == ZERO && !t.profiler.capped
      && t.ops == Ops.WasReset(ForkDetected(c, s, env.pid).ops) && t.ops.overflow == 0
  {
    ForkKeepsSound(c, s, env.pid);
  }

  /** A begin is refused, without effect, exactly when the extension is inactive or switched off. */
  lemma BeginRefusedIff(c: Config, s: TelemetryState, want: Context, env: Env)
    requires Sound(c, s)
    ensures var (t, handle) := UnitBegun(c, s, want, env);
      && (handle == 0 <==> !c.active || !c.enabled)
      && (handle == 0 ==> t == s) && (handle != 0 ==> t.unit.handle == handle)
  {
  }

  /**
   With no unit open, a stray tick arrives; the unit begun next reports it as its own sample, although
   no signal came between its begin and its finish.
   */
  lemma StrayTickIsReported(c: Config, s: TelemetryState, want: Context, env: Env, at: nat)
    requires Sound(c, s) && s.unit.handle == 0 && s.profiler.pendingTicks == 0
    requires c.active && c.enabled && c.profilerEnabled && want.profile && want.sampled && env.armed && env.pid == s.pid
    requires c.limits.frames > 0 && c.limits.nodes > 1 && c.limits.arena > |ENGINE_NAME|
    ensures var begun := Next(c, Next(c, s, Event.Signal(1)), Begin(want, env));
      var t := Next(c, begun, SafePoint([], at));
      && begun.unit.handle == t.unit.handle == s.nextHandle + 1
      && var report := UnitFinished(c, t, t.unit.handle, env).1;
         report.Some? && report.value.samples == 1 && report.value.counters.ticks == 1
  {
    var stray := Next(c, s, Event.Signal(1));
    var period := Clamp(want.period, PERIOD_US_MIN, PERIOD_US_MAX) * 1000;
    R.StrayTickIsBooked(s.profiler, c.limits, period, Clamp(want.maxDepth, 1, DEPTH_MAX), 0, env.now, at);
    assert Next(c, stray, Begin(want, env)).profiler ==
      P.Started(P.Ticked(s.profiler, 1), period, Clamp(want.maxDepth, 1, DEPTH_MAX), 0, env.now, true).0;
  }

  /** Outside a unit an operation is not counted, but its token says what it is; inside one it is the table's affair. */
  lemma OperationsNeedUnit(s: TelemetryState, kind: nat, token: Token, now: nat)
    requires Shaped(s.ops)
    ensures s.unit.handle == 0 ==>
      && OpBegun(s, kind, now) == (s, Token(kind, now, OP_NO_SLOT, s.ops.generation)) && OpEnded(s, token, now) == s
    ensures s.unit.handle != 0 ==>
      var (ops, made) := Ops.Begun(s.ops, kind, now);
      && OpBegun(s, kind, now) == (s.(ops := ops), made) && OpEnded(s, token, now) == s.(ops := Ops.Ended(s.ops, token, now))
  {
  }

  // ------------------------------------------------------------------------ forks

  /** The first call of a forked child finds no unit, no samples, no ticks and no operations. */
  lemma ChildSeesNothing(c: Config, s: TelemetryState, handle: int, env: Env)
    requires Sound(c, s) && c.active && env.pid != s.pid
    ensures var child := ForkDetected(c, s, env.pid);
      && child.unit == NO_UNIT && Clean(child.profiler)
      && child.profiler.pendingTicks == 0 && child.profiler.pendingDeliveries == 0
      && child.ops == Ops.WasReset(s.ops)
      && UnitFinished(c, s, handle, env) == (child, None)
  {
    ForkKeepsSound(c, s, env.pid);
  }

  /** A child's first unit does not depend on what its parent was doing. */
  lemma ChildOwesNothing(c: Config, s: TelemetryState, t: TelemetryState, want: Context, env: Env)
    requires Sound(c, s) && Sound(c, t) && c.active && c.enabled && env.pid != s.pid && env.pid != t.pid
    requires s.nextHandle == t.nextHandle && s.ops.generation == t.ops.generation && s.profiler.ready == t.profiler.ready
    requires want.profile && want.sampled && c.profilerEnabled
    ensures UnitBegun(c, s, want, env) == UnitBegun(c, t, want, env)
  {
    ForkKeepsSound(c, s, env.pid);
    ForkKeepsSound(c, t, env.pid);
  }
}
