/** What one process's profile and operation counts are made of: every tick and every operation by name. */
module Ledgers {
  import opened Common
  import opened Lifecycle
  import opened Ops
  import opened Sampling
  import opened Telemetry
  import C = CallPaths
  import P = ProfilerStates

  // ------------------------------------------------------------------------- ticks

  /** A delivery of the timer: where it arrived, its number among all of them, and how many ticks it stood for. */
  datatype Tick = Tick(pid: nat, number: nat, weight: nat)

  /** The ticks waiting, those booked since the last reset, and the samples they were booked with. */
  datatype TickLog = TickLog(pending: seq<Tick>, booked: seq<Tick>, taken: seq<C.Sample>)

  const NO_TICKS: TickLog := TickLog([], [], [])

  function Weigh(ticks: seq<Tick>): nat {
    if ticks == [] then 0 else Weigh(ticks[..|ticks| - 1]) + ticks[|ticks| - 1].weight
  }

  lemma {:induction false} WeighJoins(a: seq<Tick>, b: seq<Tick>)
    ensures Weigh(a + b) == Weigh(a) + Weigh(b)
    decreases |b|
  {
    if b == [] {
      assert a + b == a;
    } else {
      assert (a + b)[..|a + b| - 1] == a + b[..|b| - 1];
      WeighJoins(a, b[..|b| - 1]);
    }
  }

  function Emptied(p: P.ProfilerState, t: TickLog): TickLog {
    if p.running then t.(pending := []) else t
  }

  function Forgotten(t: TickLog): TickLog {
    TickLog(t.pending, [], [])
  }

  function Closed(p: P.ProfilerState, t: TickLog): TickLog {
    Forgotten(Emptied(p, t))
  }

  function Forked(c: Config, s: TelemetryState, t: TickLog, pid: nat): TickLog {
    if s.pid == pid || !c.active then t else NO_TICKS
  }

  function Adopted(c: Config, s: TelemetryState, t: TickLog, want: Context): TickLog {
    if !want.sampled || !want.profile then Closed(s.profiler, t)
    else if !s.unit.profiling && c.profilerEnabled then Forgotten(t)
    else t
  }

  function Begun(c: Config, s: TelemetryState, t: TickLog, want: Context): TickLog {
    if Adoptable(s.unit) then Adopted(c, s, t, want)
    else Forgotten(if s.unit.handle != 0 then Emptied(s.profiler, t) else t)
  }

  function Booked(p: P.ProfilerState, t: TickLog, stack: Stack): TickLog {
    if p.pendingTicks > 0 && p.running && p.ready
    then TickLog([], t.booked + t.pending, t.taken + [C.Sample(stack, Weigh(t.pending))])
    else t.(pending := [])
  }

  /** Where an event in process `pid` moves the ticks; a new one gets the next number. */
  ghost function Ticked(c: Config, s: TelemetryState, t: TickLog, pid: nat, e: Event, number: nat): TickLog
  {
    match e
    case Signal(ticks) => t.(pending := t.pending + [Tick(pid, number, Max(ticks, 1))])
    case SafePoint(stack, _) => Booked(s.profiler, t, stack)
    case OpBegin(_, _) => t
    case OpEnd(_, _) => t
    case RequestStart(_, _, env) =>
      var mine, kept := ForkDetected(c, s, env.pid), Forked(c, s, t, env.pid);
      if c.active && c.enabled && c.autoStart && mine.unit.handle == 0 then Forgotten(kept) else kept
    case RequestEnd => if s.unit.handle != 0 then Closed(s.profiler, t) else t
    case Begin(want, env) =>
      if !c.active || !c.enabled then t
      else Begun(c, ForkDetected(c, s, env.pid), Forked(c, s, t, env.pid), want)
    case Finish(handle, env) =>
      var mine, kept := ForkDetected(c, s, env.pid), Forked(c, s, t, env.pid);
      if Answers(c, mine, handle) then Closed(mine.profiler, kept) else kept
    case Looked(pid) => Forked(c, s, t, pid)
  }

  /** The counters count exactly the ticks logged, and the profile is what the samples make of empty tables. */
  ghost predicate Logged(limits: Limits, p: P.ProfilerState, t: TickLog) {
    && p.pendingTicks == Weigh(t.pending)
    && p.counters.ticks == Weigh(t.booked) == C.WeightOf(t.taken)
    && p.profile == C.Run(EMPTY, limits, p.maxDepth, t.taken)
  }

  ghost predicate TicksLogged(c: Config, s: TelemetryState, t: TickLog) {
    Logged(c.limits, s.profiler, t)
  }

  /** Nothing but the profiler bears on the ticks. */
  lemma LoggedByProfiler(c: Config, s: TelemetryState, t: TickLog, s': TelemetryState)
    requires s'.profiler == s.profiler
    ensures TicksLogged(c, s, t) ==> TicksLogged(c, s', t)
  {
  }

  lemma SignalLogged(c: Config, s: TelemetryState, t: TickLog, tick: Tick)
    requires TicksLogged(c, s, t) && tick.weight > 0
    ensures TicksLogged(c, s.(profiler := P.Ticked(s.profiler, tick.weight)), t.(pending := t.pending + [tick]))
  {
    WeighJoins(t.pending, [tick]);
  }

  lemma ForkLogged(c: Config, s: TelemetryState, t: TickLog, pid: nat)
    requires Sound(c, s) && TicksLogged(c, s, t)
    ensures TicksLogged(c, ForkDetected(c, s, pid), Forked(c, s, t, pid))
  {
  }

  lemma CloseLogged(c: Config, s: TelemetryState, t: TickLog)
    requires Sound(c, s) && TicksLogged(c, s, t)
    ensures TicksLogged(c, UnitClosed(s), Closed(s.profiler, t))
  {
  }

  lemma OpenLogged(c: Config, s: TelemetryState, t: TickLog, kind: nat, want: Context, automatic: bool, env: Env)
    requires Sound(c, s) && TicksLogged(c, s, t) && !s.profiler.running
    ensures TicksLogged(c, UnitOpened(c, s, kind, want, automatic, env), Forgotten(t))
  {
  }

  lemma AdoptLogged(c: Config, s: TelemetryState, t: TickLog, want: Context, env: Env)
    requires Sound(c, s) && TicksLogged(c, s, t) && Adoptable(s.unit)
    ensures TicksLogged(c, UnitAdopted(c, s, want, env), Adopted(c, s, t, want))
  {
  }

  lemma BeginLogged(c: Config, s: TelemetryState, t: TickLog, want: Context, env: Env)
    requires Sound(c, s) && TicksLogged(c, s, t)
    ensures TicksLogged(c, OwnBegun(c, s, want, env).0, Begun(c, s, t, want))
  {
    if Adoptable(s.unit) {
      AdoptLogged(c, s, t, want, env);
    } else {
      var stopped := s.(profiler := if s.unit.handle != 0 then P.Stopped(s.profiler) else s.profiler);
      OpenLogged(c, stopped, if s.unit.handle != 0 then Emptied(s.profiler, t) else t,
                 want.kind.UnwrapOr(UNIT_OTHER), want, false, env);
    }
  }

  lemma SafePointLogged(c: Config, s: TelemetryState, t: TickLog, stack: Stack, now: nat)
    requires Sound(c, s) && TicksLogged(c, s, t)
    ensures TicksLogged(c, Next(c, s, SafePoint(stack, now)), Booked(s.profiler, t, stack))
  {
    WeighJoins(t.booked, t.pending);
    var sample := C.Sample(stack, Weigh(t.pending));
    assert (t.taken + [sample])[..|t.taken|] == t.taken;
  }

  lemma NextLogged(c: Config, s: TelemetryState, t: TickLog, pid: nat, e: Event, number: nat)
    requires Sound(c, s) && TicksLogged(c, s, t)
    ensures TicksLogged(c, Next(c, s, e), Ticked(c, s, t, pid, e, number))
  {
    hide TicksLogged;
    match e
    case Signal(ticks) => SignalLogged(c, s, t, Tick(pid, number, Max(ticks, 1)));
    case SafePoint(stack, now) => SafePointLogged(c, s, t, stack, now);
    case OpBegin(kind, now) => LoggedByProfiler(c, s, t, OpBegun(s, kind, now).0);
    case OpEnd(token, now) => LoggedByProfiler(c, s, t, OpEnded(s, token, now));
    case RequestStart(period, maxDepth, env) =>
      ForkKeepsSound(c, s, env.pid);
      ForkLogged(c, s, t, env.pid);
      RequestOpenLogged(c, ForkDetected(c, s, env.pid), Forked(c, s, t, env.pid), period, maxDepth, env);
    case RequestEnd => CloseLogged(c, s, t);
    case Begin(want, env) =>
      ForkKeepsSound(c, s, env.pid);
      ForkLogged(c, s, t, env.pid);
      BeginLogged(c, ForkDetected(c, s, env.pid), Forked(c, s, t, env.pid), want, env);
    case Finish(_, env) =>
      ForkKeepsSound(c, s, env.pid);
      ForkLogged(c, s, t, env.pid);
      CloseLogged(c, ForkDetected(c, s, env.pid), Forked(c, s, t, env.pid));
    case Looked(self) => ForkLogged(c, s, t, self);
  }

  lemma RequestOpenLogged(c: Config, s: TelemetryState, t: TickLog, period: int, maxDepth: int, env: Env)
    requires Sound(c, s) && TicksLogged(c, s, t)
    ensures s.unit.handle == 0 ==>
      TicksLogged(c, UnitOpened(c, s, c.sapiKind, Context(None, true, true, period, maxDepth), true, env), Forgotten(t))
  {
    if s.unit.handle == 0 {
      OpenLogged(c, s, t, c.sapiKind, Context(None, true, true, period, maxDepth), true, env);
    }
  }

  // -------------------------------------------------------------------- operations

  /** A unit by the process that opened it and its handle; handle 0 means outside any unit. */
  datatype UnitId = UnitId(pid: nat, handle: nat)

  /** An operation by its number among all of them and the unit it began in. */
  datatype OpId = OpId(number: nat, began: UnitId)

  datatype Held = Held(id: OpId, token: Token)
  datatype EndedOp = EndedOp(id: OpId, kind: nat, elapsed: nat, ended: UnitId)

  /** The operations begun and not ended, and all that have ended. */
  datatype OpLog = OpLog(held: seq<Held>, done: seq<EndedOp>)

  function Current(s: TelemetryState): UnitId {
    UnitId(s.pid, s.unit.handle)
  }

  predicate EndsHeld(o: OpLog, e: Event, i: nat) {
    e.OpEnd? ==> i < |o.held| && o.held[i].token == e.token
  }

  /** A begin takes the next number; an end is of the i-th operation held. */
  function OpsMoved(s: TelemetryState, o: OpLog, e: Event, i: nat, number: nat): OpLog
    requires Shaped(s.ops) && EndsHeld(o, e, i)
  {
    match e
    case OpBegin(kind, now) => o.(held := o.held + [Held(OpId(number, Current(s)), OpBegun(s, kind, now).1)])
    case OpEnd(token, now) =>
      OpLog(o.held[..i] + o.held[i + 1..],
            o.done + [EndedOp(o.held[i].id, token.kind, Elapsed(token.start, now), Current(s))])
    case _ => o
  }

  /** Both ends of the operation fall inside the unit. */
  predicate Inside(d: EndedOp, unit: UnitId) {
    d.id.began == unit == d.ended
  }

  /** The ended operations both of whose ends fall inside one unit. */
  function InsideUnit(done: seq<EndedOp>, unit: UnitId): seq<EndedOp> {
    if done == [] then []
    else
      var last, front := done[|done| - 1], InsideUnit(done[..|done| - 1], unit);
      if Inside(last, unit) then front + [last] else front
  }

  function Durations(done: seq<EndedOp>): seq<Done> {
    seq(|done|, i requires 0 <= i < |done| => Done(done[i].kind, done[i].elapsed))
  }

  /** A token is of the current generation exactly if its operation began in the open unit. */
  ghost predicate HeldSound(s: TelemetryState, h: Held) {
    && h.token.generation <= s.ops.generation && h.id.began.handle <= s.nextHandle
    && (s.unit.handle != 0 ==> (h.token.generation == s.ops.generation <==> h.id.began == Current(s)))
  }

  /** An operation is in the open unit's aggregates exactly if it began and ended inside that unit. */
  ghost predicate OpsLogged(s: TelemetryState, o: OpLog) {
    && Shaped(s.ops)
    && (forall i :: 0 <= i < |o.held| ==> HeldSound(s, o.held[i]))
    && (forall i :: 0 <= i < |o.done| ==> o.done[i].id.began.handle <= s.nextHandle)
    && (s.unit.handle != 0 ==>
          forall k :: OP_NONE < k < OP_MAX ==> s.ops.agg[k] == Aggregate(Durations(InsideUnit(o.done, Current(s))), k))
  }

  lemma {:induction false} NoneInside(done: seq<EndedOp>, unit: UnitId)
    requires forall i :: 0 <= i < |done| ==> done[i].id.began != unit
    ensures InsideUnit(done, unit) == []
    decreases |done|
  {
    if done != [] {
      NoneInside(done[..|done| - 1], unit);
    }
  }

  lemma OneMoreEnded(done: seq<EndedOp>, d: EndedOp, unit: UnitId, k: nat)
    ensures Aggregate(Durations(InsideUnit(done + [d], unit)), k) ==
      var before := Aggregate(Durations(InsideUnit(done, unit)), k);
      if Inside(d, unit) && d.kind == k then Added(before, d.elapsed) else before
  {
    assert (done + [d])[..|done|] == done;
    var inside := InsideUnit(done, unit);
    assert Durations(inside + [d])[..|inside|] == Durations(inside);
  }

  lemma FreshUnitLogged(s: TelemetryState, s': TelemetryState, o: OpLog)
    requires OpsLogged(s, o) && s'.ops == Ops.WasReset(s.ops)
    requires if s'.unit.handle == 0 then s'.nextHandle == s.nextHandle else s'.unit.handle == s'.nextHandle == s.nextHandle + 1
    ensures OpsLogged(s', o)
  {
    if s'.unit.handle != 0 {
      NoneInside(o.done, Current(s'));
    }
  }

  lemma OpEndLogged(s: TelemetryState, o: OpLog, token: Token, now: nat, i: nat)
    requires OpsLogged(s, o) && i < |o.held| && o.held[i].token == token
    ensures OpsLogged(OpEnded(s, token, now), OpsMoved(s, o, OpEnd(token, now), i, 0))
  {
    var d := EndedOp(o.held[i].id, token.kind, Elapsed(token.start, now), Current(s));
    assert HeldSound(s, o.held[i]);
    forall k | OP_NONE < k < OP_MAX && s.unit.handle != 0
      ensures OpEnded(s, token, now).ops.agg[k] == Aggregate(Durations(InsideUnit(o.done + [d], Current(s))), k)
    {
      OneMoreEnded(o.done, d, Current(s), k);
    }
  }

  /** Ending an operation changes the aggregates exactly if it began inside the unit now open. */
  lemma EndCountsIff(s: TelemetryState, o: OpLog, i: nat, now: nat)
    requires OpsLogged(s, o) && i < |o.held| && ValidKind(o.held[i].token.kind)
    ensures OpEnded(s, o.held[i].token, now).ops.agg != s.ops.agg <==>
      s.unit.handle != 0 && o.held[i].id.began == Current(s)
  {
    assert HeldSound(s, o.held[i]);
    StaleEndsAreIgnored(s.ops, o.held[i].token, now);
    if o.held[i].token.generation == s.ops.generation {
      CountGrows(s.ops, o.held[i].token, now);
    }
  }

  lemma CountGrows(ops: OpState, token: Token, now: nat)
    requires Shaped(ops) && ValidKind(token.kind) && token.generation == ops.generation
    ensures Ended(ops, token, now).agg != ops.agg
  {
    assert Ended(ops, token, now).agg[token.kind].count == ops.agg[token.kind].count + 1;
  }

  /** The operations counted in a unit are all those with both ends inside it. */
  lemma {:induction false} CountedIffInside(done: seq<EndedOp>, unit: UnitId, d: EndedOp)
    ensures d in InsideUnit(done, unit) <==> d in done && Inside(d, unit)
    decreases |done|
  {
    if done != [] {
      CountedIffInside(done[..|done| - 1], unit, d);
      assert done == done[..|done| - 1] + [done[|done| - 1]];
    }
  }

  lemma ForkOpsLogged(c: Config, s: TelemetryState, o: OpLog, pid: nat)
    requires Sound(c, s) && OpsLogged(s, o) && c.active
    ensures OpsLogged(ForkDetected(c, s, pid), o)
  {
    if s.pid != pid {
      FreshUnitLogged(s, ForkDetected(c, s, pid), o);
    }
  }

  lemma BeginOpsLogged(c: Config, s: TelemetryState, o: OpLog, want: Context, env: Env)
    requires Sound(c, s) && OpsLogged(s, o)
    ensures OpsLogged(OwnBegun(c, s, want, env).0, o)
  {
    if !Adoptable(s.unit) {
      FreshUnitLogged(s, UnitReplaced(c, s, want, env), o);
    }
  }

  lemma RequestStartOpsLogged(c: Config, s: TelemetryState, o: OpLog, period: int, maxDepth: int, env: Env)
    requires Sound(c, s) && OpsLogged(s, o) && c.active
    ensures OpsLogged(RequestStarted(c, s, period, maxDepth, env), o)
  {
    ForkOpsLogged(c, s, o, env.pid);
    ForkKeepsSound(c, s, env.pid);
    var mine := ForkDetected(c, s, env.pid);
    if c.enabled && c.autoStart && mine.unit.handle == 0 {
      FreshUnitLogged(mine, RequestStarted(c, s, period, maxDepth, env), o);
    }
  }

  lemma OpBeginLogged(s: TelemetryState, o: OpLog, kind: nat, now: nat, number: nat)
    requires OpsLogged(s, o) && s.unit.handle <= s.nextHandle
    ensures OpsLogged(OpBegun(s, kind, now).0, OpsMoved(s, o, OpBegin(kind, now), 0, number))
  {
    var (s', token) := OpBegun(s, kind, now);
    var held := o.held + [Held(OpId(number, Current(s)), token)];
    forall i | 0 <= i < |held|
      ensures HeldSound(s', held[i])
    {
      assert i < |o.held| ==> HeldSound(s, o.held[i]);
    }
  }

  /** The profiler has no bearing on the operations. */
  lemma LoggedByOps(s: TelemetryState, o: OpLog, s': TelemetryState)
    requires s'.pid == s.pid && s'.unit == s.unit && s'.ops == s.ops && s'.nextHandle == s.nextHandle
    ensures OpsLogged(s, o) ==> OpsLogged(s', o)
  {
  }

  lemma NextOpsLogged(c: Config, s: TelemetryState, o: OpLog, e: Event, i: nat, number: nat)
    requires Sound(c, s) && OpsLogged(s, o) && EndsHeld(o, e, i) && c.active
    ensures OpsLogged(Next(c, s, e), OpsMoved(s, o, e, i, number))
  {
    hide OpsLogged;
    match e
    case Signal(ticks) => LoggedByOps(s, o, s.(profiler := P.Ticked(s.profiler, ticks)));
    case SafePoint(stack, now) => LoggedByOps(s, o, s.(profiler := P.Interrupted(s.profiler, c.limits, stack, now)));
    case OpBegin(kind, now) => OpBeginLogged(s, o, kind, now, number);
    case OpEnd(token, now) => OpEndLogged(s, o, token, now, i);
    case RequestStart(period, maxDepth, env) => RequestStartOpsLogged(c, s, o, period, maxDepth, env);
    case RequestEnd => FreshUnitLogged(s, UnitClosed(s), o);
    case Begin(want, env) =>
      ForkOpsLogged(c, s, o, env.pid);
      ForkKeepsSound(c, s, env.pid);
      BeginOpsLogged(c, ForkDetected(c, s, env.pid), o, want, env);
    case Finish(_, env) =>
      ForkOpsLogged(c, s, o, env.pid);
      FreshUnitLogged(ForkDetected(c, s, env.pid), UnitClosed(ForkDetected(c, s, env.pid)), o);
    case Looked(self) => ForkOpsLogged(c, s, o, self);
  }
}
