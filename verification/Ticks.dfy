/** The accounting of timer ticks, first per interrupt and then under signals arriving anywhere. */
module Ticks {
  import opened Common

  datatype Counters = Counters(
    interrupts: nat, ticks: nat, deferred: nat, deferredEvents: nat, maxDeferred: nat, overruns: nat)

  const ZERO: Counters := Counters(0, 0, 0, 0, 0, 0)

  predicate Nil(c: Counters) {
    c.interrupts == 0 && c.ticks == 0 && c.deferred == 0 && c.deferredEvents == 0 && c.maxDeferred == 0 && c.overruns == 0
  }

  /** What one interrupt adds for the ticks and deliveries it took. */
  function Book(c: Counters, pending: nat, deliveries: nat): Counters {
    var late := if deliveries > 1 then deliveries - 1 else 0;
    Counters(
      c.interrupts + 1,
      c.ticks + pending,
      c.deferred + late,
      c.deferredEvents + if deliveries > 1 then 1 else 0,
      Max(c.maxDeferred, late),
      c.overruns + if pending > deliveries then pending - deliveries else 0)
  }

  /** How far the three kinds of tick overshoot the ticks taken, for one booking. */
  function Excess(pending: nat, deliveries: nat): nat {
    if deliveries == 0 then 1 else if deliveries > pending then deliveries - pending else 0
  }

  lemma BookSplits(c: Counters, pending: nat, deliveries: nat)
    requires pending > 0
    ensures var c' := Book(c, pending, deliveries);
      c'.interrupts + c'.deferred + c'.overruns - c'.ticks
        == c.interrupts + c.deferred + c.overruns - c.ticks + Excess(pending, deliveries)
    ensures Excess(pending, deliveries) == 0 <==> 1 <= deliveries <= pending
  {
  }

  // ------------------------------------------------- signals between any two accesses

  /** Ticks told apart by whether the profiler was running when they arrived. */
  datatype Load = Load(live: nat, stray: nat) {
    function Total(): nat { live + stray }
    predicate Empty() { live == 0 && stray == 0 }
    function Plus(more: Load): Load { Load(live + more.live, stray + more.stray) }
  }

  const NOTHING: Load := Load(0, 0)

  /** Which shared access the VM thread performs next. */
  datatype Pc = Main | TookTicks | TookBoth | Disarmed | Emptied

  /** Where every tick that ever arrived has gone. */
  datatype Ledger = Ledger(
    signalled: Load,   // every tick that ever arrived
    booked: Load,      // counted by an interrupt
    stopped: Load,     // discarded by a stop, or in a child by the fork
    ignored: Load)     // taken by an interrupt that found the profiler not running

  datatype Machine = Machine(
    pc: Pc, running: bool,
    pendingTicks: Load, pendingDeliveries: nat,
    halfway: nat,      // sampler-thread ticks whose delivery is not yet counted
    hand: Load, handDeliveries: nat,
    counters: Counters,
    excess: nat,       // overshoot since the last reset
    earlier: nat,      // booked before the last reset
    ledger: Ledger)

  /**
   A signal handler runs whole between two accesses of the thread it interrupts; the fallback sampler
   thread adds to the two counters one at a time. Stopping at the deadline is `StopSampling` after a booking.
   */
  datatype Step =
    | Signal(ticks: nat)
    | ThreadTicks(ticks: nat)
    | ThreadDelivery
    | TakeTicks
    | TakeDeliveries
    | BookTaken
    | StopSampling
    | StopTakeTicks
    | StopTakeDeliveries
    | ResetCounters
    | StartSampling
    | ForkChild

  ghost predicate Enabled(m: Machine, step: Step) {
    match step
    case Signal(_) => true
    case ThreadTicks(_) => true
    case ThreadDelivery => m.halfway > 0
    case TakeTicks => m.pc == Main
    case TakeDeliveries => m.pc == TookTicks
    case BookTaken => m.pc == TookBoth
    case StopSampling => m.pc == Main && m.running
    case StopTakeTicks => m.pc == Disarmed
    case StopTakeDeliveries => m.pc == Emptied
    case ResetCounters => m.pc == Main && !m.running
    case StartSampling => m.pc == Main && !m.running
    case ForkChild => m.pc == Main
  }

  function Forgotten(m: Machine): Machine {
    m.(counters := ZERO, excess := 0, earlier := m.ledger.booked.Total())
  }

  /** Ticks told apart by the flag they found. */
  function Arriving(m: Machine, ticks: nat): Load {
    if m.running then Load(Max(ticks, 1), 0) else Load(0, Max(ticks, 1))
  }

  function Arrived(m: Machine, ticks: nat, deliveries: nat, halfway: nat): Machine {
    m.(pendingTicks := m.pendingTicks.Plus(Arriving(m, ticks)),
       pendingDeliveries := m.pendingDeliveries + deliveries, halfway := m.halfway + halfway,
       ledger := m.ledger.(signalled := m.ledger.signalled.Plus(Arriving(m, ticks))))
  }

  function TicksTaken(m: Machine): Machine {
    m.(pc := TookTicks, hand := m.pendingTicks, pendingTicks := NOTHING)
  }

  function DeliveriesTaken(m: Machine): Machine {
    m.(pc := TookBoth, handDeliveries := m.pendingDeliveries, pendingDeliveries := 0)
  }

  function TakenBooked(m: Machine): Machine {
    var empty := m.(pc := Main, hand := NOTHING, handDeliveries := 0);
    if m.hand.Empty() || !m.running then empty.(ledger := m.ledger.(ignored := m.ledger.ignored.Plus(m.hand)))
    else
      empty.(ledger := m.ledger.(booked := m.ledger.booked.Plus(m.hand)),
             counters := Book(m.counters, m.hand.Total(), m.handDeliveries),
             excess := m.excess + Excess(m.hand.Total(), m.handDeliveries))
  }

  function TicksDiscarded(m: Machine): Machine {
    m.(ledger := m.ledger.(stopped := m.ledger.stopped.Plus(m.pendingTicks)), pendingTicks := NOTHING)
  }

  function Stepped(m: Machine, step: Step): Machine {
    match step
    case Signal(ticks) => Arrived(m, ticks, 1, 0)
    case ThreadTicks(ticks) => Arrived(m, ticks, 0, 1)
    case ThreadDelivery => m.(pendingDeliveries := m.pendingDeliveries + 1, halfway := if m.halfway > 0 then m.halfway - 1 else 0)
    case TakeTicks => TicksTaken(m)
    case TakeDeliveries => DeliveriesTaken(m)
    case BookTaken => TakenBooked(m)
    case StopSampling => m.(pc := Disarmed, running := false)
    case StopTakeTicks => TicksDiscarded(m).(pc := Emptied)
    case StopTakeDeliveries => m.(pc := Main, pendingDeliveries := 0)
    case ResetCounters => Forgotten(m)
    case StartSampling => Forgotten(m).(running := true)
    case ForkChild => Forgotten(TicksDiscarded(m)).(running := false, pendingDeliveries := 0, halfway := 0)
  }

  /** The state at start-up: nothing has arrived and nothing runs. */
  predicate Idle(m: Machine) {
    && m.pc == Main && !m.running
    && m.pendingTicks.Empty() && m.pendingDeliveries == 0 && m.halfway == 0 && m.hand.Empty() && m.handDeliveries == 0
    && Nil(m.counters) && m.excess == 0 && m.earlier == 0
    && m.ledger.signalled.Empty() && m.ledger.booked.Empty() && m.ledger.stopped.Empty() && m.ledger.ignored.Empty()
  }

  ghost function AfterSteps(m: Machine, steps: seq<Step>): Machine {
    if steps == [] then m else Stepped(AfterSteps(m, steps[..|steps| - 1]), steps[|steps| - 1])
  }

  /** A run is a sequence of steps each enabled where it is taken. */
  ghost predicate Runs(m: Machine, steps: seq<Step>) {
    steps != [] ==>
      Runs(m, steps[..|steps| - 1]) && Enabled(AfterSteps(m, steps[..|steps| - 1]), steps[|steps| - 1])
  }

  // ---------------------------------------------------------- where every tick goes

  ghost predicate LiveAccounted(m: Machine) {
    && m.ledger.signalled.live == m.ledger.booked.live + m.hand.live + m.pendingTicks.live + m.ledger.stopped.live
    && m.ledger.ignored.live == 0
    && (!m.running && m.pc != Disarmed ==> m.pendingTicks.live == 0 && m.hand.live == 0)
  }

  ghost predicate StrayAccounted(m: Machine) {
    m.ledger.signalled.stray
      == m.ledger.booked.stray + m.hand.stray + m.pendingTicks.stray + m.ledger.stopped.stray + m.ledger.ignored.stray
  }

  ghost predicate CountersAccounted(m: Machine) {
    && m.ledger.booked.Total() == m.earlier + m.counters.ticks
    && m.counters.interrupts + m.counters.deferred + m.counters.overruns == m.counters.ticks + m.excess
  }

  ghost predicate Accounted(m: Machine) {
    && LiveAccounted(m) && StrayAccounted(m) && CountersAccounted(m)
    && (m.pc == Disarmed || m.pc == Emptied ==> !m.running)
    && (m.pc == Main || m.pc == Disarmed || m.pc == Emptied ==> m.hand.Empty())
  }

  lemma IdleTicksAccounted(start: Machine)
    requires Idle(start)
    ensures LiveAccounted(start) && StrayAccounted(start)
  {
  }

  lemma NilAddsUp(m: Machine)
    requires Nil(m.counters) && m.excess == 0
    ensures m.counters.interrupts + m.counters.deferred + m.counters.overruns == m.counters.ticks + m.excess
  {
  }

  lemma NothingBooked(m: Machine)
    requires m.ledger.booked.Empty() && m.earlier == 0 && m.counters.ticks == 0
    ensures m.ledger.booked.Total() == m.earlier + m.counters.ticks
  {
  }

  lemma IdleCountersAccounted(start: Machine)
    requires Nil(start.counters) && start.excess == 0 && start.ledger.booked.Empty() && start.earlier == 0
    ensures CountersAccounted(start)
  {
    NilAddsUp(start);
    NothingBooked(start);
  }

  lemma IdleIsAccounted(start: Machine)
    requires Idle(start)
    ensures Accounted(start)
  {
    IdleTicksAccounted(start);
    IdleCountersAccounted(start);
  }

  lemma ArrivingAccounts(m: Machine, ticks: nat)
    requires Accounted(m)
    ensures Accounted(Stepped(m, Signal(ticks))) && Accounted(Stepped(m, ThreadTicks(ticks)))
    ensures Accounted(Stepped(m, ThreadDelivery))
  {
  }

  lemma TakingAccounts(m: Machine)
    requires Accounted(m)
    ensures m.pc == Main ==> Accounted(Stepped(m, TakeTicks))
    ensures m.pc == TookTicks ==> Accounted(Stepped(m, TakeDeliveries))
    ensures m.pc == Disarmed ==> Accounted(Stepped(m, StopTakeTicks))
    ensures m.pc == Emptied ==> Accounted(Stepped(m, StopTakeDeliveries))
  {
  }

  lemma BookingAccounts(m: Machine)
    requires Accounted(m) && m.pc == TookBoth
    ensures Accounted(Stepped(m, BookTaken))
  {
    if !m.hand.Empty() {
      BookSplits(m.counters, m.hand.Total(), m.handDeliveries);
    }
  }

  lemma LifecycleAccounts(m: Machine)
    requires Accounted(m) && m.pc == Main
    ensures m.running ==> Accounted(Stepped(m, StopSampling))
    ensures !m.running ==> Accounted(Stepped(m, ResetCounters)) && Accounted(Stepped(m, StartSampling))
    ensures Accounted(Stepped(m, ForkChild))
  {
  }

  lemma StepAccounts(m: Machine, step: Step)
    requires Accounted(m) && Enabled(m, step)
    ensures Accounted(Stepped(m, step))
  {
    match step
    case Signal(ticks) => ArrivingAccounts(m, ticks);
    case ThreadTicks(ticks) => ArrivingAccounts(m, ticks);
    case ThreadDelivery => ArrivingAccounts(m, 0);
    case BookTaken => BookingAccounts(m);
    case TakeTicks => TakingAccounts(m);
    case TakeDeliveries => TakingAccounts(m);
    case StopTakeTicks => TakingAccounts(m);
    case StopTakeDeliveries => TakingAccounts(m);
    case StopSampling => LifecycleAccounts(m);
    case ResetCounters => LifecycleAccounts(m);
    case StartSampling => LifecycleAccounts(m);
    case ForkChild => LifecycleAccounts(m);
  }

  lemma {:induction false} RunAccounts(start: Machine, steps: seq<Step>)
    requires Idle(start) && Runs(start, steps)
    ensures Accounted(AfterSteps(start, steps))
    decreases |steps|
  {
    if steps == [] {
      IdleIsAccounted(start);
    } else {
      var front := steps[..|steps| - 1];
      RunAccounts(start, front);
      StepAccounts(AfterSteps(start, front), steps[|steps| - 1]);
    }
  }

  /** Where every tick is that ever arrived, and how many have been counted. */
  ghost predicate AllTold(m: Machine) {
    && m.ledger.signalled.live == m.ledger.booked.live + m.hand.live + m.pendingTicks.live + m.ledger.stopped.live
    && m.ledger.signalled.stray == m.ledger.booked.stray + m.hand.stray + m.pendingTicks.stray
                                   + m.ledger.stopped.stray + m.ledger.ignored.stray
    && m.ledger.booked.Total() == m.earlier + m.counters.ticks
  }

  lemma AccountedIsAllTold(m: Machine)
    requires Accounted(m)
    ensures AllTold(m)
  {
  }

  /**
   From start-up, with ticks arriving between any two accesses: a tick that arrived while sampling was
   on is counted once, still pending, or was discarded by a stop or in the child of a fork; any other
   tick is one of those or was ignored.
   */
  lemma {:induction false} NoTickIsLostOrCountedTwice(start: Machine, steps: seq<Step>)
    requires Idle(start) && Runs(start, steps)
    ensures AllTold(AfterSteps(start, steps))
  {
    RunAccounts(start, steps);
    AccountedIsAllTold(AfterSteps(start, steps));
  }

  // -------------------------------------------------------- when the split is exact

  /** A booking of some ticks took at least one delivery and no more deliveries than ticks. */
  ghost predicate BooksMatched(m: Machine) {
    m.hand.Empty() || !m.running || 1 <= m.handDeliveries <= m.hand.Total()
  }

  /** So did every booking since the counters were last reset. */
  ghost predicate MatchedSinceReset(m: Machine, steps: seq<Step>) {
    steps != [] ==>
      var front, last := steps[..|steps| - 1], steps[|steps| - 1];
      last.ResetCounters? || last.StartSampling? || last.ForkChild?
      || (MatchedSinceReset(m, front) && (last.BookTaken? ==> BooksMatched(AfterSteps(m, front))))
  }

  lemma BookingIsExactIff(m: Machine)
    ensures TakenBooked(m).excess == m.excess <==> BooksMatched(m)
  {
    if !m.hand.Empty() && m.running {
      BookSplits(m.counters, m.hand.Total(), m.handDeliveries);
    }
  }

  lemma {:induction false} NoExcessIff(m: Machine, steps: seq<Step>)
    requires m.excess == 0
    ensures AfterSteps(m, steps).excess == 0 <==> MatchedSinceReset(m, steps)
    decreases |steps|
  {
    if steps != [] {
      var front := steps[..|steps| - 1];
      NoExcessIff(m, front);
      BookingIsExactIff(AfterSteps(m, front));
    }
  }

  /** From start-up, on-time, deferred and overrun ticks add up to the ticks counted exactly if every booking since the last reset matched. */
  lemma {:induction false} SplitIsExactIff(start: Machine, steps: seq<Step>)
    requires Idle(start) && Runs(start, steps)
    ensures var c := AfterSteps(start, steps).counters;
      && c.interrupts + c.deferred + c.overruns >= c.ticks
      && (c.interrupts + c.deferred + c.overruns == c.ticks <==> MatchedSinceReset(start, steps))
  {
    RunAccounts(start, steps);
    NoExcessIff(start, steps);
  }

  /** Nothing arrives between the two takes of an interrupt nor between the two of a stop, and nothing arrives by halves. */
  ghost predicate TakesAreAtomic(m: Machine, steps: seq<Step>) {
    steps != [] ==>
      var front, last := steps[..|steps| - 1], steps[|steps| - 1];
      && TakesAreAtomic(m, front)
      && !last.ThreadTicks?
      && (last.Signal? ==> AfterSteps(m, front).pc != TookTicks && AfterSteps(m, front).pc != Emptied)
  }

  /** Deliveries never outnumber the ticks they came with, and no ticks come without one. */
  predicate Matched(ticks: Load, deliveries: nat) {
    deliveries <= ticks.Total() && (deliveries == 0 ==> ticks.Empty())
  }

  ghost predicate InStep(m: Machine) {
    && m.halfway == 0
    && match m.pc
       case TookTicks => m.pendingTicks.Empty() && Matched(m.hand, m.pendingDeliveries)
       case TookBoth => Matched(m.pendingTicks, m.pendingDeliveries) && Matched(m.hand, m.handDeliveries)
       case Emptied => m.pendingTicks.Empty()
       case _ => Matched(m.pendingTicks, m.pendingDeliveries)
  }

  lemma SignalStaysInStep(m: Machine, ticks: nat)
    requires InStep(m) && m.pc != TookTicks && m.pc != Emptied
    ensures InStep(Stepped(m, Signal(ticks)))
  {
  }

  lemma TickTakeStaysInStep(m: Machine)
    requires InStep(m) && m.pc == Main
    ensures InStep(Stepped(m, TakeTicks))
  {
  }

  lemma DeliveryTakeStaysInStep(m: Machine)
    requires InStep(m) && m.pc == TookTicks
    ensures InStep(Stepped(m, TakeDeliveries))
  {
  }

  lemma StopTakesStayInStep(m: Machine)
    requires InStep(m)
    ensures m.pc == Disarmed ==> InStep(Stepped(m, StopTakeTicks))
    ensures m.pc == Emptied ==> InStep(Stepped(m, StopTakeDeliveries))
  {
  }

  lemma BookingStaysInStep(m: Machine)
    requires InStep(m) && m.pc == TookBoth
    ensures InStep(Stepped(m, BookTaken)) && BooksMatched(m)
  {
  }

  lemma LifecycleStaysInStep(m: Machine)
    requires InStep(m) && m.pc == Main
    ensures InStep(Stepped(m, StopSampling)) && InStep(Stepped(m, ResetCounters)) && InStep(Stepped(m, StartSampling))
    ensures InStep(Stepped(m, ForkChild))
  {
  }

  lemma StepStaysInStep(m: Machine, step: Step)
    requires Enabled(m, step) && InStep(m) && !step.ThreadTicks?
    requires step.Signal? ==> m.pc != TookTicks && m.pc != Emptied
    ensures InStep(Stepped(m, step))
    ensures step.BookTaken? ==> BooksMatched(m)
  {
    match step
    case Signal(ticks) => SignalStaysInStep(m, ticks);
    case BookTaken => BookingStaysInStep(m);
    case TakeTicks => TickTakeStaysInStep(m);
    case TakeDeliveries => DeliveryTakeStaysInStep(m);
    case StopTakeTicks => StopTakesStayInStep(m);
    case StopTakeDeliveries => StopTakesStayInStep(m);
    case StopSampling => LifecycleStaysInStep(m);
    case ResetCounters => LifecycleStaysInStep(m);
    case StartSampling => LifecycleStaysInStep(m);
    case ForkChild => LifecycleStaysInStep(m);
  }

  lemma {:induction false} AtomicTakesMatch(start: Machine, steps: seq<Step>)
    requires Idle(start) && Runs(start, steps) && TakesAreAtomic(start, steps)
    ensures InStep(AfterSteps(start, steps)) && MatchedSinceReset(start, steps)
    decreases |steps|
  {
    if steps != [] {
      var front := steps[..|steps| - 1];
      AtomicTakesMatch(start, front);
      StepStaysInStep(AfterSteps(start, front), steps[|steps| - 1]);
    }
  }

  /** From start-up, if no take is split by an arrival, every tick was on time, deferred or overrun: the split is exact. */
  lemma {:induction false} AtomicTakesSplitExactly(start: Machine, steps: seq<Step>)
    requires Idle(start) && Runs(start, steps) && TakesAreAtomic(start, steps)
    ensures var c := AfterSteps(start, steps).counters;
      c.ticks == c.interrupts + c.deferred + c.overruns
  {
    AtomicTakesMatch(start, steps);
    SplitIsExactIff(start, steps);
  }

  // ------------------------------------------------------------- when it is not

  lemma OneMoreStep(m: Machine, steps: seq<Step>, step: Step)
    requires Runs(m, steps) && Enabled(AfterSteps(m, steps), step)
    ensures Runs(m, steps + [step]) && AfterSteps(m, steps + [step]) == Stepped(AfterSteps(m, steps), step)
  {
    assert (steps + [step])[..|steps|] == steps;
  }

  predicate Waiting(m: Machine) {
    m.pc == Main && m.running && m.pendingTicks == Load(1, 0) && m.pendingDeliveries == 1 && Nil(m.counters)
  }

  lemma PlusEmpty(none: Load, more: Load)
    requires none.Empty()
    ensures none.Plus(more) == more
  {
  }

  /** What a signal brings while sampling. */
  lemma SignalArrives(m: Machine, ticks: nat)
    requires m.running && m.pendingTicks.Empty() && ticks > 0
    ensures var m' := Stepped(m, Signal(ticks));
      && m'.pendingTicks == Load(ticks, 0) && m'.pendingDeliveries == m.pendingDeliveries + 1
      && m'.pc == m.pc && m'.running && m'.counters == m.counters
      && m'.hand == m.hand && m'.handDeliveries == m.handDeliveries
  {
    PlusEmpty(m.pendingTicks, Arriving(m, ticks));
  }

  lemma SignalLeavesWaiting(m: Machine)
    requires m.pc == Main && !m.running && m.pendingTicks.Empty() && m.pendingDeliveries == 0
    ensures Waiting(Stepped(Stepped(m, StartSampling), Signal(1)))
  {
    SignalArrives(Stepped(m, StartSampling), 1);
  }

  /** A signal while sampling waits for the next interrupt. */
  lemma SignalWaits(start: Machine, steps: seq<Step>)
    requires Runs(start, steps)
    requires var m := AfterSteps(start, steps); m.pc == Main && !m.running && m.pendingTicks.Empty() && m.pendingDeliveries == 0
    ensures Runs(start, steps + [StartSampling] + [Signal(1)])
    ensures Waiting(AfterSteps(start, steps + [StartSampling] + [Signal(1)]))
  {
    SignalLeavesWaiting(AfterSteps(start, steps));
    OneMoreStep(start, steps, StartSampling);
    OneMoreStep(start, steps + [StartSampling], Signal(1));
  }

  /** One tick taken, with two deliveries. */
  predicate Split(m: Machine) {
    m.pc == TookBoth && m.running && m.hand == Load(1, 0) && m.handDeliveries == 2 && Nil(m.counters)
  }

  lemma SignalSplitsTakes(m: Machine)
    requires Waiting(m)
    ensures Split(Stepped(Stepped(Stepped(m, TakeTicks), Signal(1)), TakeDeliveries))
  {
  }

  /** A second signal lands between the two takes. */
  lemma TakesAreSplit(start: Machine, steps: seq<Step>)
    requires Runs(start, steps) && Waiting(AfterSteps(start, steps))
    ensures Runs(start, steps + [TakeTicks] + [Signal(1)] + [TakeDeliveries])
    ensures Split(AfterSteps(start, steps + [TakeTicks] + [Signal(1)] + [TakeDeliveries]))
  {
    SignalSplitsTakes(AfterSteps(start, steps));
    OneMoreStep(start, steps, TakeTicks);
    OneMoreStep(start, steps + [TakeTicks], Signal(1));
    OneMoreStep(start, steps + [TakeTicks] + [Signal(1)], TakeDeliveries);
  }

  lemma BookOneOfTwo(c: Counters)
    requires Nil(c)
    ensures Book(c, 1, 2) == Counters(1, 1, 1, 1, 1, 0)
  {
  }

  lemma SplitOvershoots(m: Machine)
    requires Split(m)
    ensures TakenBooked(m).counters == Counters(1, 1, 1, 1, 1, 0) && !BooksMatched(m)
  {
    BookOneOfTwo(m.counters);
    assert m.hand.Total() == 1;
  }

  lemma SplitRunOvershoots(start: Machine, steps: seq<Step>)
    requires Runs(start, steps) && Split(AfterSteps(start, steps))
    ensures Runs(start, steps + [BookTaken]) && !MatchedSinceReset(start, steps + [BookTaken])
    ensures AfterSteps(start, steps + [BookTaken]).counters == Counters(1, 1, 1, 1, 1, 0)
  {
    SplitOvershoots(AfterSteps(start, steps));
    OneMoreStep(start, steps, BookTaken);
    assert (steps + [BookTaken])[..|steps|] == steps;
  }

  /**
   A run from start-up in which a signal splits a take: one tick is counted, and two are accounted
   for, one on time and one deferred.
   */
  lemma SplitTakeOvershoots(start: Machine)
    requires Idle(start)
    ensures var steps := [StartSampling] + [Signal(1)] + [TakeTicks] + [Signal(1)] + [TakeDeliveries] + [BookTaken];
      && Runs(start, steps) && !MatchedSinceReset(start, steps)
      && AfterSteps(start, steps).counters == Counters(1, 1, 1, 1, 1, 0)
  {
    assert [] + [StartSampling] == [StartSampling];
    SignalWaits(start, []);
    TakesAreSplit(start, [StartSampling] + [Signal(1)]);
    SplitRunOvershoots(start, [StartSampling] + [Signal(1)] + [TakeTicks] + [Signal(1)] + [TakeDeliveries]);
  }
}
