/** A tree of forking processes: which ticks and operations their reports are made of. */
module Processes {
  import opened Common
  import opened Ledgers
  import opened Lifecycle
  import opened Ops
  import opened Sampling
  import opened Telemetry
  import C = CallPaths
  import P = ProfilerStates

  datatype Proc = Proc(s: TelemetryState, ticks: TickLog, ops: OpLog)

  /** All processes ever forked, by pid, and everything any finish has reported. */
  datatype World = World(procs: map<nat, Proc>, next: nat, ticksReported: seq<Tick>, opsReported: seq<OpId>)

  /** A process lets something happen, ending its i-th held operation if that is what it is, or forks. */
  datatype Step = Act(pid: nat, e: Event, i: nat) | Fork(parent: nat, child: nat)

  /** A process gets its own pid from the system. */
  predicate OwnPid(e: Event, pid: nat) {
    match e
    case RequestStart(_, _, env) => env.pid == pid
    case Begin(_, env) => env.pid == pid
    case Finish(_, env) => env.pid == pid
    case Looked(self) => self == pid
    case _ => true
  }

  predicate Enabled(w: World, step: Step) {
    match step
    case Act(pid, e, i) => pid in w.procs && OwnPid(e, pid) && EndsHeld(w.procs[pid].ops, e, i)
    case Fork(parent, child) => parent in w.procs && child !in w.procs
  }

  function Ids(done: seq<EndedOp>): seq<OpId> {
    seq(|done|, i requires 0 <= i < |done| => done[i].id)
  }

  /** What a finish reports: the ticks booked and the operations inside the unit, unless it answers nothing. */
  function Reported(c: Config, p: Proc, e: Event): (seq<Tick>, seq<OpId>) {
    if e.Finish? then
      var mine := ForkDetected(c, p.s, e.env.pid);
      if Answers(c, mine, e.handle)
      then (Forked(c, p.s, p.ticks, e.env.pid).booked, Ids(InsideUnit(p.ops.done, Current(mine))))
      else ([], [])
    else ([], [])
  }

  ghost function Moved(c: Config, p: Proc, pid: nat, e: Event, i: nat, number: nat): Proc
    requires Lifecycle.Sound(c, p.s) && EndsHeld(p.ops, e, i)
  {
    Proc(Lifecycle.Next(c, p.s, e), Ticked(c, p.s, p.ticks, pid, e, number), OpsMoved(p.s, p.ops, e, i, number))
  }

  ghost function Acted(c: Config, w: World, pid: nat, e: Event, i: nat): World
    requires Enabled(w, Act(pid, e, i)) && Lifecycle.Sound(c, w.procs[pid].s)
  {
    var p := w.procs[pid];
    World(w.procs[pid := Moved(c, p, pid, e, i, w.next)], w.next + 1,
          w.ticksReported + Reported(c, p, e).0, w.opsReported + Reported(c, p, e).1)
  }

  /** The child's memory is its parent's, including who it thinks it is. */
  function ForkedOff(w: World, parent: nat, child: nat): World
    requires parent in w.procs
  {
    w.(procs := w.procs[child := w.procs[parent]])
  }

  // ------------------------------------------------------ what one report is made of

  /** The logs say what the counters, the profile and the aggregates of a process are made of. */
  ghost predicate ProcSound(c: Config, p: Proc) {
    Lifecycle.Sound(c, p.s) && TicksLogged(c, p.s, p.ticks) && OpsLogged(p.s, p.ops)
  }

  /**
   A report counts exactly the ticks and the operations charged to it, with number, sum and maximum of
   their durations, and the profile attached gives every call path the summed weight of the samples
   recorded under it.
   */
  lemma ReportIsMadeOf(c: Config, p: Proc, handle: int, withProfile: bool, env: Env, path: C.CallPath, k: nat)
    requires ProcSound(c, p) && OP_NONE < k < OP_MAX
    ensures var report, charged := UnitFinished(c, p.s, handle, env).1, Reported(c, p, Finish(handle, env));
      report.Some? ==>
        var inside := InsideUnit(p.ops.done, Current(p.s));
        var durations := DurationsOf(Durations(inside), k);
        && charged == (p.ticks.booked, Ids(inside))
        && report.value.counters.ticks == Weigh(p.ticks.booked)
        && (if durations == [] then k !in report.value.operations
            else k in report.value.operations && Measures(report.value.operations[k], durations))
        && (p.s.unit.profiling && withProfile && report.value.samples > 0 ==>
              var profile, depth, taken := Attached(p.s, withProfile).value, p.s.profiler.maxDepth, p.ticks.taken;
              && C.Consistent(profile)
              && C.Weight(profile.names, profile.tree, path) == C.Booked(EMPTY, c.limits, depth, taken, Some(path))
              && report.value.dropped == C.Booked(EMPTY, c.limits, depth, taken, None)
              && report.value.samples + report.value.dropped == C.WeightOf(taken) == Weigh(p.ticks.booked))
  {
    C.ProfileIsTheMap(c.limits, p.s.profiler.maxDepth, p.ticks.taken, path);
    AggregateMeasures(Durations(InsideUnit(p.ops.done, Current(p.s))), k);
  }

  // ---------------------------------------------------------------- nothing is reported twice

  ghost predicate NoRepeats<T>(s: seq<T>) {
    forall i, j :: 0 <= i < j < |s| ==> s[i] != s[j]
  }

  function AllTicks(t: TickLog): seq<Tick> {
    t.booked + t.pending
  }

  /** A process that knows its own pid holds only ticks of its own, each once and none reported. */
  ghost predicate OwnTicks(pid: nat, t: TickLog, reported: seq<Tick>) {
    && NoRepeats(AllTicks(t))
    && (forall i :: 0 <= i < |AllTicks(t)| ==> AllTicks(t)[i].pid == pid && AllTicks(t)[i] !in reported)
  }

  ghost predicate Numbered(ticks: seq<Tick>, next: nat) {
    forall i :: 0 <= i < |ticks| ==> ticks[i].number < next
  }

  ghost predicate TicksOf(pid: nat, p: Proc, reported: seq<Tick>, next: nat) {
    Numbered(AllTicks(p.ticks), next) && (p.s.pid == pid ==> OwnTicks(pid, p.ticks, reported))
  }

  /** Every tick is reported at most once, and what a process holds of its own is still unreported. */
  ghost predicate TicksSound(w: World) {
    && NoRepeats(w.ticksReported) && Numbered(w.ticksReported, w.next)
    && (forall pid :: pid in w.procs ==> TicksOf(pid, w.procs[pid], w.ticksReported, w.next))
  }

  /** Whose memory a process started from is in the tree, and so is the process of every unit reported. */
  ghost predicate PidsSound(w: World) {
    && (forall pid :: pid in w.procs ==> w.procs[pid].s.pid in w.procs)
    && (forall i :: 0 <= i < |w.opsReported| ==> w.opsReported[i].began.pid in w.procs)
  }

  /** The ticks of one log are a stretch of those of another. */
  ghost predicate Part(t': TickLog, t: TickLog) {
    exists a, b :: 0 <= a <= b <= |AllTicks(t)| && AllTicks(t') == AllTicks(t)[a..b]
  }

  lemma StretchIsPart(t': TickLog, t: TickLog, a: nat, b: nat)
    requires a <= b <= |AllTicks(t)| && AllTicks(t') == AllTicks(t)[a..b]
    ensures Part(t', t)
  {
  }

  lemma StagesArePart(c: Config, s: TelemetryState, t: TickLog, stack: Stack)
    ensures Part(t, t) && Part(NO_TICKS, t)
    ensures Part(Emptied(s.profiler, t), t) && Part(Forgotten(t), t) && Part(Closed(s.profiler, t), t)
    ensures Part(Booked(s.profiler, t, stack), t)
  {
    var all, n := AllTicks(t), |t.booked|;
    StretchIsPart(t, t, 0, |all|);
    StretchIsPart(NO_TICKS, t, 0, 0);
    StretchIsPart(Emptied(s.profiler, t), t, 0, if s.profiler.running then n else |all|);
    StretchIsPart(Forgotten(t), t, n, |all|);
    StretchIsPart(Closed(s.profiler, t), t, n, if s.profiler.running then n else |all|);
    var p := s.profiler;
    StretchIsPart(Booked(p, t, stack), t, 0, if p.pendingTicks > 0 && p.running && p.ready then |all| else n);
  }

  lemma BegunIsPart(c: Config, s: TelemetryState, t: TickLog, want: Context)
    ensures Part(Ledgers.Begun(c, s, t, want), t)
  {
    StagesArePart(c, s, t, []);
    if s.unit.handle != 0 && !Adoptable(s.unit) {
      assert Ledgers.Begun(c, s, t, want) == Closed(s.profiler, t);
    }
  }

  lemma RestIsPart(c: Config, s: TelemetryState, t: TickLog, e: Event, pid: nat)
    requires e.RequestStart? || e.Finish?
    ensures Part(Ticked(c, s, t, pid, e, 0), t)
  {
    var mine := ForkDetected(c, s, e.env.pid);
    StagesArePart(c, mine, t, []);
    assert Forked(c, s, t, e.env.pid) in {t, NO_TICKS};
  }

  /** Except for a tick arriving, ticks are only dropped from the ends of a process's log. */
  lemma TickedIsPart(c: Config, s: TelemetryState, t: TickLog, pid: nat, e: Event, number: nat)
    requires !e.Signal?
    ensures Part(Ticked(c, s, t, pid, e, number), t)
  {
    match e
    case SafePoint(stack, _) => StagesArePart(c, s, t, stack);
    case OpBegin(_, _) => StagesArePart(c, s, t, []);
    case OpEnd(_, _) => StagesArePart(c, s, t, []);
    case RequestStart(_, _, _) => RestIsPart(c, s, t, e, pid);
    case RequestEnd => StagesArePart(c, s, t, []);
    case Begin(want, env) =>
      StagesArePart(c, s, t, []);
      BegunIsPart(c, ForkDetected(c, s, env.pid), t, want);
      BegunIsPart(c, ForkDetected(c, s, env.pid), NO_TICKS, want);
    case Finish(_, _) => RestIsPart(c, s, t, e, pid);
    case Looked(_) => StagesArePart(c, s, t, []);
  }

  /** A process learns its own pid only by dropping everything it inherited. */
  lemma LearnersAreEmpty(c: Config, s: TelemetryState, t: TickLog, pid: nat, e: Event, number: nat)
    requires Lifecycle.Sound(c, s) && OwnPid(e, pid) && c.active && s.pid != pid
    ensures Lifecycle.Next(c, s, e).pid == pid ==> AllTicks(Ticked(c, s, t, pid, e, number)) == []
    ensures Lifecycle.Next(c, s, e).pid in {s.pid, pid}
  {
  }

  lemma KnowersStay(c: Config, s: TelemetryState, pid: nat, e: Event)
    requires Lifecycle.Sound(c, s) && OwnPid(e, pid) && s.pid == pid
    ensures Lifecycle.Next(c, s, e).pid == pid
  {
  }

  lemma PartStaysOwn(t': TickLog, t: TickLog, pid: nat, reported: seq<Tick>, next: nat)
    requires Part(t', t)
    ensures Numbered(AllTicks(t), next) ==> Numbered(AllTicks(t'), next)
    ensures OwnTicks(pid, t, reported) ==> OwnTicks(pid, t', reported)
  {
    var a, b :| 0 <= a <= b <= |AllTicks(t)| && AllTicks(t') == AllTicks(t)[a..b];
    assert forall i :: 0 <= i < |AllTicks(t')| ==> AllTicks(t')[i] == AllTicks(t)[a + i];
  }

  /** Only a process that knows its own pid reports, and then the ticks booked in its unit. */
  lemma ReportedTicks(c: Config, p: Proc, pid: nat, e: Event)
    requires Lifecycle.Sound(c, p.s) && OwnPid(e, pid) && c.active
    ensures Reported(c, p, e).0 != [] || Reported(c, p, e).1 != [] ==>
      e.Finish? && p.s.pid == pid && p.s.unit.handle != 0 && Answers(c, p.s, e.handle)
    ensures Reported(c, p, e).0 in {[], p.ticks.booked}
  {
  }

  /** What an event leaves of a process's ticks is still its own, and what it reports is its own and new. */
  lemma TicksStayOwn(c: Config, p: Proc, pid: nat, e: Event, number: nat, reported: seq<Tick>)
    requires Lifecycle.Sound(c, p.s) && OwnPid(e, pid) && c.active
    requires p.s.pid == pid && OwnTicks(pid, p.ticks, reported)
    requires Numbered(AllTicks(p.ticks), number) && Numbered(reported, number)
    ensures OwnTicks(pid, Ticked(c, p.s, p.ticks, pid, e, number), reported + Reported(c, p, e).0)
  {
    var t, t', added := p.ticks, Ticked(c, p.s, p.ticks, pid, e, number), Reported(c, p, e).0;
    ReportedTicks(c, p, pid, e);
    if e.Signal? {
      assert AllTicks(t') == AllTicks(t) + [Tick(pid, number, Max(e.ticks, 1))];
    } else {
      TickedIsPart(c, p.s, t, pid, e, number);
      PartStaysOwn(t', t, pid, reported, number);
      if added == [] {
        assert reported + added == reported;
      } else {
        assert t' == Closed(p.s.profiler, t);
        BookedIsGone(p.s.profiler, t, pid, reported);
      }
    }
  }

  lemma BookedIsGone(profiler: P.ProfilerState, t: TickLog, pid: nat, reported: seq<Tick>)
    requires OwnTicks(pid, t, reported)
    ensures OwnTicks(pid, Closed(profiler, t), reported + t.booked)
  {
    var all, left := AllTicks(t), Closed(profiler, t);
    forall i | 0 <= i < |AllTicks(left)|
      ensures AllTicks(left)[i] == all[|t.booked| + i]
      ensures AllTicks(left)[i] !in t.booked
    {
      forall j | 0 <= j < |t.booked|
        ensures t.booked[j] != all[|t.booked| + i]
      {
        assert t.booked[j] == all[j];
      }
    }
  }

  lemma NumbersGrow(c: Config, p: Proc, pid: nat, e: Event, number: nat)
    requires Numbered(AllTicks(p.ticks), number)
    ensures Numbered(AllTicks(Ticked(c, p.s, p.ticks, pid, e, number)), number + 1)
  {
    var t' := Ticked(c, p.s, p.ticks, pid, e, number);
    if e.Signal? {
      assert AllTicks(t') == AllTicks(p.ticks) + [Tick(pid, number, Max(e.ticks, 1))];
    } else {
      TickedIsPart(c, p.s, p.ticks, pid, e, number);
      PartStaysOwn(t', p.ticks, pid, [], number);
    }
  }

  lemma ReportsStayDistinct(pid: nat, t: TickLog, reported: seq<Tick>, next: nat)
    requires OwnTicks(pid, t, reported) && NoRepeats(reported)
    requires Numbered(AllTicks(t), next) && Numbered(reported, next)
    ensures NoRepeats(reported + t.booked) && Numbered(reported + t.booked, next)
    ensures forall i :: 0 <= i < |t.booked| ==> t.booked[i].pid == pid
  {
    assert forall i :: 0 <= i < |t.booked| ==> t.booked[i] == AllTicks(t)[i];
  }

  ghost predicate AllSound(c: Config, procs: map<nat, Proc>) {
    forall pid :: pid in procs ==> ProcSound(c, procs[pid])
  }

  lemma ProcKeepsSound(c: Config, pid: nat, p: Proc, e: Event, i: nat, number: nat)
    requires ProcSound(c, p) && EndsHeld(p.ops, e, i) && StartedUp(c) && c.active
    ensures ProcSound(c, Moved(c, p, pid, e, i, number))
  {
    NextKeepsSound(c, p.s, e);
    NextLogged(c, p.s, p.ticks, pid, e, number);
    NextOpsLogged(c, p.s, p.ops, e, i, number);
  }

  lemma PutKeepsSound(c: Config, procs: map<nat, Proc>, pid: nat, p: Proc)
    requires AllSound(c, procs) && ProcSound(c, p)
    ensures AllSound(c, procs[pid := p])
  {
  }

  lemma ActKeepsSound(c: Config, w: World, pid: nat, e: Event, i: nat)
    requires Enabled(w, Act(pid, e, i)) && AllSound(c, w.procs) && StartedUp(c) && c.active
    ensures AllSound(c, Acted(c, w, pid, e, i).procs)
  {
    assert ProcSound(c, w.procs[pid]);
    ProcKeepsSound(c, pid, w.procs[pid], e, i, w.next);
    PutKeepsSound(c, w.procs, pid, Moved(c, w.procs[pid], pid, e, i, w.next));
  }

  lemma ReportsKeepTicks(pid: nat, p: Proc, reported: seq<Tick>, next: nat, added: seq<Tick>)
    requires NoRepeats(reported) && Numbered(reported, next) && TicksOf(pid, p, reported, next)
    requires added == [] || (added == p.ticks.booked && p.s.pid == pid)
    ensures NoRepeats(reported + added) && Numbered(reported + added, next + 1)
    ensures forall i :: 0 <= i < |added| ==> added[i].pid == pid
  {
    if added == [] {
      assert reported + added == reported;
    } else {
      ReportsStayDistinct(pid, p.ticks, reported, next);
    }
  }

  lemma ActorKeepsTicks(c: Config, pid: nat, p: Proc, e: Event, i: nat, reported: seq<Tick>, next: nat)
    requires TicksOf(pid, p, reported, next) && Numbered(reported, next)
    requires Lifecycle.Sound(c, p.s) && c.active && OwnPid(e, pid) && EndsHeld(p.ops, e, i)
    ensures TicksOf(pid, Moved(c, p, pid, e, i, next), reported + Reported(c, p, e).0, next + 1)
  {
    NumbersGrow(c, p, pid, e, next);
    if p.s.pid == pid {
      TicksStayOwn(c, p, pid, e, next, reported);
    } else {
      LearnersAreEmpty(c, p.s, p.ticks, pid, e, next);
    }
  }

  lemma OtherKeepsTicks(pid: nat, p: Proc, reported: seq<Tick>, next: nat, added: seq<Tick>)
    requires TicksOf(pid, p, reported, next)
    requires forall i :: 0 <= i < |added| ==> added[i].pid != pid
    ensures TicksOf(pid, p, reported + added, next + 1)
  {
  }

  lemma MoveKeepsTicks(w: World, pid: nat, p: Proc, added: seq<Tick>, ops: seq<OpId>)
    requires TicksSound(w) && pid in w.procs
    requires TicksOf(pid, p, w.ticksReported + added, w.next + 1)
    requires NoRepeats(w.ticksReported + added) && Numbered(w.ticksReported + added, w.next + 1)
    requires forall i :: 0 <= i < |added| ==> added[i].pid == pid
    ensures TicksSound(World(w.procs[pid := p], w.next + 1, w.ticksReported + added, ops))
  {
    forall q | q in w.procs && q != pid
      ensures TicksOf(q, w.procs[q], w.ticksReported + added, w.next + 1)
    {
      OtherKeepsTicks(q, w.procs[q], w.ticksReported, w.next, added);
    }
  }

  lemma ActKeepsTicks(c: Config, w: World, pid: nat, e: Event, i: nat)
    requires Enabled(w, Act(pid, e, i)) && TicksSound(w) && c.active && Lifecycle.Sound(c, w.procs[pid].s)
    ensures TicksSound(Acted(c, w, pid, e, i))
  {
    var p := w.procs[pid];
    var ticks, ops := Reported(c, p, e).0, Reported(c, p, e).1;
    ReportedTicks(c, p, pid, e);
    ReportsKeepTicks(pid, p, w.ticksReported, w.next, ticks);
    ActorKeepsTicks(c, pid, p, e, i, w.ticksReported, w.next);
    MoveKeepsTicks(w, pid, Moved(c, p, pid, e, i, w.next), ticks, w.opsReported + ops);
  }

  lemma ForkKeepsTicks(w: World, parent: nat, child: nat)
    requires parent in w.procs && child !in w.procs && TicksSound(w) && PidsSound(w)
    ensures TicksSound(ForkedOff(w, parent, child))
  {
    assert TicksOf(parent, w.procs[parent], w.ticksReported, w.next);
  }

  // -------------------------------------------------------------------- operations

  function HeldNumbers(held: seq<Held>): seq<nat> {
    seq(|held|, i requires 0 <= i < |held| => held[i].id.number)
  }

  function DoneNumbers(done: seq<EndedOp>): seq<nat> {
    seq(|done|, i requires 0 <= i < |done| => done[i].id.number)
  }

  /** How often each number names an operation held or ended. */
  function Uses(o: OpLog): multiset<nat> {
    multiset(HeldNumbers(o.held)) + multiset(DoneNumbers(o.done))
  }

  /** No number names two operations, and from the next on none is used. */
  ghost predicate OpsNumbered(o: OpLog, next: nat) {
    forall n: nat :: Uses(o)[n] <= if n < next then 1 else 0
  }

  /** Nothing has been reported from a unit a process has not opened yet, or has opened and still has open. */
  ghost predicate Unreported(pid: nat, s: TelemetryState, reported: seq<OpId>) {
    forall i :: 0 <= i < |reported| && reported[i].began.pid == pid ==>
      && reported[i].began.handle <= s.nextHandle
      && (s.pid == pid && s.unit.handle != 0 ==> reported[i].began.handle != s.unit.handle)
  }

  ghost predicate OpsOf(pid: nat, p: Proc, reported: seq<OpId>, next: nat) {
    OpsNumbered(p.ops, next) && Unreported(pid, p.s, reported)
  }

  /** Every operation is reported at most once. */
  ghost predicate OpsSound(w: World) {
    && NoRepeats(w.opsReported)
    && (forall pid :: pid in w.procs ==> OpsOf(pid, w.procs[pid], w.opsReported, w.next))
  }

  lemma EndingKeepsUses(o: OpLog, i: nat, d: EndedOp)
    requires i < |o.held| && d.id == o.held[i].id
    ensures Uses(OpLog(o.held[..i] + o.held[i + 1..], o.done + [d])) == Uses(o)
  {
    var numbers := HeldNumbers(o.held);
    assert HeldNumbers(o.held[..i] + o.held[i + 1..]) == numbers[..i] + numbers[i + 1..];
    assert numbers == numbers[..i] + [numbers[i]] + numbers[i + 1..];
    assert DoneNumbers(o.done + [d]) == DoneNumbers(o.done) + [numbers[i]];
  }

  lemma BeginningUsesOne(o: OpLog, h: Held)
    ensures Uses(o.(held := o.held + [h])) == Uses(o) + multiset{h.id.number}
  {
    assert HeldNumbers(o.held + [h]) == HeldNumbers(o.held) + [h.id.number];
  }

  lemma MovesKeepNumbers(s: TelemetryState, o: OpLog, e: Event, i: nat, next: nat)
    requires Shaped(s.ops) && EndsHeld(o, e, i) && OpsNumbered(o, next)
    ensures OpsNumbered(OpsMoved(s, o, e, i, next), next + 1)
  {
    if e.OpBegin? {
      BeginningUsesOne(o, Held(OpId(next, Current(s)), OpBegun(s, e.kind, e.now).1));
    } else if e.OpEnd? {
      EndingKeepsUses(o, i, EndedOp(o.held[i].id, e.token.kind, Elapsed(e.token.start, e.now), Current(s)));
    }
  }

  lemma {:induction false} InsideIsDistinct(done: seq<EndedOp>, unit: UnitId)
    requires forall n: nat :: multiset(DoneNumbers(done))[n] <= 1
    ensures var inside := InsideUnit(done, unit);
      && NoRepeats(Ids(inside))
      && forall i :: 0 <= i < |inside| ==> inside[i].id.began == unit && inside[i].id.number in DoneNumbers(done)
    decreases |done|
  {
    if done != [] {
      var last, front := done[|done| - 1], done[..|done| - 1];
      assert DoneNumbers(done) == DoneNumbers(front) + [last.id.number];
      assert multiset(DoneNumbers(done)) == multiset(DoneNumbers(front)) + multiset{last.id.number};
      assert forall n: nat :: multiset(DoneNumbers(front))[n] <= multiset(DoneNumbers(done))[n];
      InsideIsDistinct(front, unit);
      assert multiset(DoneNumbers(done))[last.id.number] == multiset(DoneNumbers(front))[last.id.number] + 1;
      assert last.id.number !in multiset(DoneNumbers(front));
      AddDistinct(InsideUnit(front, unit), last);
    }
  }

  lemma AddDistinct(inside: seq<EndedOp>, last: EndedOp)
    requires NoRepeats(Ids(inside)) && forall i :: 0 <= i < |inside| ==> inside[i].id != last.id
    ensures NoRepeats(Ids(inside + [last]))
  {
    assert Ids(inside + [last]) == Ids(inside) + [last.id];
    assert forall i :: 0 <= i < |inside| ==> Ids(inside)[i] == inside[i].id;
  }

  /** A unit a process has open is one it has just opened or the one it had open; closing a unit opens none. */
  lemma UnitsOnlyGrow(c: Config, p: Proc, pid: nat, e: Event)
    requires Lifecycle.Sound(c, p.s) && OwnPid(e, pid) && c.active
    ensures var s' := Lifecycle.Next(c, p.s, e);
      && s'.nextHandle >= p.s.nextHandle
      && (s'.pid == pid && s'.unit.handle != 0 ==>
            s'.unit.handle > p.s.nextHandle
            || (p.s.pid == pid && p.s.unit.handle == s'.unit.handle && Reported(c, p, e).1 == []))
  {
  }

  /** What a finish reports was not reported before. */
  lemma ReportsKeepOps(c: Config, pid: nat, p: Proc, e: Event, reported: seq<OpId>, next: nat)
    requires Lifecycle.Sound(c, p.s) && OwnPid(e, pid) && c.active
    requires OpsOf(pid, p, reported, next) && NoRepeats(reported)
    ensures var added := Reported(c, p, e).1;
      && NoRepeats(reported + added)
      && (forall i :: 0 <= i < |added| ==> added[i].began == Current(p.s) && added[i].began.pid == pid)
  {
    var added := Reported(c, p, e).1;
    ReportedTicks(c, p, pid, e);
    if added == [] {
      assert reported + added == reported;
    } else {
      var inside := InsideUnit(p.ops.done, Current(p.s));
      assert forall n: nat :: multiset(DoneNumbers(p.ops.done))[n] <= Uses(p.ops)[n];
      InsideIsDistinct(p.ops.done, Current(p.s));
      assert added == Ids(inside);
      JoinDistinct(reported, added, Current(p.s));
    }
  }

  lemma JoinDistinct(reported: seq<OpId>, added: seq<OpId>, unit: UnitId)
    requires NoRepeats(reported) && NoRepeats(added)
    requires forall i :: 0 <= i < |reported| ==> reported[i].began != unit
    requires forall i :: 0 <= i < |added| ==> added[i].began == unit
    ensures NoRepeats(reported + added)
  {
  }

  lemma ActorKeepsOps(c: Config, pid: nat, p: Proc, e: Event, i: nat, reported: seq<OpId>, next: nat)
    requires Lifecycle.Sound(c, p.s) && OwnPid(e, pid) && c.active && EndsHeld(p.ops, e, i)
    requires OpsOf(pid, p, reported, next) && NoRepeats(reported)
    ensures OpsOf(pid, Moved(c, p, pid, e, i, next), reported + Reported(c, p, e).1, next + 1)
  {
    MovesKeepNumbers(p.s, p.ops, e, i, next);
    UnitsOnlyGrow(c, p, pid, e);
    ReportsKeepOps(c, pid, p, e, reported, next);
    var s', added := Lifecycle.Next(c, p.s, e), Reported(c, p, e).1;
    UnreportedGrows(pid, p.s, s', reported, added);
  }

  lemma UnreportedGrows(pid: nat, s: TelemetryState, s': TelemetryState, reported: seq<OpId>, added: seq<OpId>)
    requires Unreported(pid, s, reported) && s.unit.handle <= s.nextHandle <= s'.nextHandle
    requires s'.pid == pid && s'.unit.handle != 0 ==>
      s'.unit.handle > s.nextHandle || (s.pid == pid && s.unit.handle == s'.unit.handle && added == [])
    requires forall i :: 0 <= i < |added| ==> added[i].began == Current(s)
    ensures Unreported(pid, s', reported + added)
  {
  }

  lemma OtherKeepsOps(pid: nat, p: Proc, reported: seq<OpId>, next: nat, added: seq<OpId>)
    requires OpsOf(pid, p, reported, next)
    requires forall i :: 0 <= i < |added| ==> added[i].began.pid != pid
    ensures OpsOf(pid, p, reported + added, next + 1)
  {
  }

  lemma MoveKeepsOps(w: World, pid: nat, p: Proc, added: seq<OpId>, ticks: seq<Tick>)
    requires OpsSound(w) && pid in w.procs
    requires OpsOf(pid, p, w.opsReported + added, w.next + 1) && NoRepeats(w.opsReported + added)
    requires forall i :: 0 <= i < |added| ==> added[i].began.pid == pid
    ensures OpsSound(World(w.procs[pid := p], w.next + 1, ticks, w.opsReported + added))
  {
    forall q | q in w.procs && q != pid
      ensures OpsOf(q, w.procs[q], w.opsReported + added, w.next + 1)
    {
      OtherKeepsOps(q, w.procs[q], w.opsReported, w.next, added);
    }
  }

  lemma ActKeepsOps(c: Config, w: World, pid: nat, e: Event, i: nat)
    requires Enabled(w, Act(pid, e, i)) && OpsSound(w) && c.active && Lifecycle.Sound(c, w.procs[pid].s)
    ensures OpsSound(Acted(c, w, pid, e, i))
  {
    var p := w.procs[pid];
    var ticks, ops := Reported(c, p, e).0, Reported(c, p, e).1;
    ReportsKeepOps(c, pid, p, e, w.opsReported, w.next);
    ActorKeepsOps(c, pid, p, e, i, w.opsReported, w.next);
    MoveKeepsOps(w, pid, Moved(c, p, pid, e, i, w.next), ops, w.ticksReported + ticks);
  }

  lemma ForkKeepsOps(w: World, parent: nat, child: nat)
    requires parent in w.procs && child !in w.procs && OpsSound(w) && PidsSound(w)
    ensures OpsSound(ForkedOff(w, parent, child))
  {
    var p := w.procs[parent];
    assert OpsOf(parent, p, w.opsReported, w.next);
    assert Unreported(child, p.s, w.opsReported);
    forall q | q in w.procs && q != child
      ensures OpsOf(q, w.procs[q], w.opsReported, w.next)
    {
    }
  }

  lemma ActorKeepsPids(c: Config, pid: nat, p: Proc, e: Event)
    requires Lifecycle.Sound(c, p.s) && OwnPid(e, pid) && c.active
    ensures Lifecycle.Next(c, p.s, e).pid in {p.s.pid, pid}
    ensures forall i :: 0 <= i < |Reported(c, p, e).1| ==> Reported(c, p, e).1[i].began.pid == pid
  {
    ReportedTicks(c, p, pid, e);
    InsideBegan(p.ops.done, Current(p.s));
    if p.s.pid == pid {
      KnowersStay(c, p.s, pid, e);
    } else {
      LearnersAreEmpty(c, p.s, p.ticks, pid, e, 0);
    }
  }

  lemma MoveKeepsPids(w: World, pid: nat, p: Proc, added: seq<OpId>, ticks: seq<Tick>)
    requires PidsSound(w) && pid in w.procs && p.s.pid in {w.procs[pid].s.pid, pid}
    requires forall i :: 0 <= i < |added| ==> added[i].began.pid == pid
    ensures PidsSound(World(w.procs[pid := p], w.next + 1, ticks, w.opsReported + added))
  {
  }

  lemma ActKeepsPids(c: Config, w: World, pid: nat, e: Event, i: nat)
    requires Enabled(w, Act(pid, e, i)) && PidsSound(w) && c.active && Lifecycle.Sound(c, w.procs[pid].s)
    ensures PidsSound(Acted(c, w, pid, e, i))
  {
    var p := w.procs[pid];
    var ticks, ops := Reported(c, p, e).0, Reported(c, p, e).1;
    ActorKeepsPids(c, pid, p, e);
    MoveKeepsPids(w, pid, Moved(c, p, pid, e, i, w.next), ops, w.ticksReported + ticks);
  }

  lemma {:induction false} InsideBegan(done: seq<EndedOp>, unit: UnitId)
    ensures forall i :: 0 <= i < |InsideUnit(done, unit)| ==> InsideUnit(done, unit)[i].id.began == unit
    decreases |done|
  {
    if done != [] {
      InsideBegan(done[..|done| - 1], unit);
    }
  }

  // ------------------------------------------------------------------------ every run

  ghost predicate WorldSound(c: Config, w: World) {
    AllSound(c, w.procs) && PidsSound(w) && TicksSound(w) && OpsSound(w)
  }

  lemma ActKeepsWorld(c: Config, w: World, pid: nat, e: Event, i: nat)
    requires Enabled(w, Act(pid, e, i)) && WorldSound(c, w) && StartedUp(c) && c.active
    ensures WorldSound(c, Acted(c, w, pid, e, i))
  {
    ActKeepsSound(c, w, pid, e, i);
    ActKeepsPids(c, w, pid, e, i);
    ActKeepsTicks(c, w, pid, e, i);
    ActKeepsOps(c, w, pid, e, i);
  }

  lemma ForkKeepsPids(w: World, parent: nat, child: nat)
    requires parent in w.procs && PidsSound(w)
    ensures PidsSound(ForkedOff(w, parent, child))
  {
  }

  lemma ForkKeepsWorld(c: Config, w: World, parent: nat, child: nat)
    requires parent in w.procs && child !in w.procs && WorldSound(c, w)
    ensures WorldSound(c, ForkedOff(w, parent, child))
  {
    assert ProcSound(c, w.procs[parent]);
    PutKeepsSound(c, w.procs, child, w.procs[parent]);
    ForkKeepsPids(w, parent, child);
    ForkKeepsTicks(w, parent, child);
    ForkKeepsOps(w, parent, child);
  }

  /** One process, just started up. */
  function Alone(ready: bool, pid: nat): World {
    World(map[pid := Proc(Startup(ready, pid), NO_TICKS, OpLog([], []))], 0, [], [])
  }

  lemma AloneIsSound(c: Config, ready: bool, pid: nat)
    requires c.profilerEnabled ==> ready
    ensures AllSound(c, Alone(ready, pid).procs)
  {
    StartupIsSound(c, ready, pid);
  }

  lemma AloneHasNoReports(ready: bool, pid: nat)
    ensures PidsSound(Alone(ready, pid)) && TicksSound(Alone(ready, pid)) && OpsSound(Alone(ready, pid))
  {
  }

  /** What the world comes to; a step that is not possible where it is taken changes nothing. */
  ghost function Reached(c: Config, w: World, steps: seq<Step>): (w': World)
    requires WorldSound(c, w) && StartedUp(c) && c.active
    ensures WorldSound(c, w')
    decreases |steps|
  {
    if steps == [] then w
    else
      var before, last := Reached(c, w, steps[..|steps| - 1]), steps[|steps| - 1];
      if !Enabled(before, last) then before
      else if last.Act? then
        ActKeepsWorld(c, before, last.pid, last.e, last.i);
        Acted(c, before, last.pid, last.e, last.i)
      else
        ForkKeepsWorld(c, before, last.parent, last.child);
        ForkedOff(before, last.parent, last.child)
  }

  /**
   In any tree of forking processes, over every run of calls, signals and forks, no tick and no
   operation is reported twice, by one process or by two; and every process can account for what
   it would report.
   */
  lemma NothingReportedTwice(c: Config, ready: bool, pid: nat, steps: seq<Step>)
    requires StartedUp(c) && c.active && (c.profilerEnabled ==> ready)
    ensures WorldSound(c, Alone(ready, pid))
    ensures var w := Reached(c, Alone(ready, pid), steps);
      && NoRepeats(w.ticksReported) && NoRepeats(w.opsReported)
      && forall q :: q in w.procs ==> ProcSound(c, w.procs[q])
  {
    AloneIsSound(c, ready, pid);
    AloneHasNoReports(ready, pid);
  }
}
