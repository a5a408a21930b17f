/** What holds over every run of timer signals and safe points within one profile. */
module ProfilerRuns {
  import opened Common
  import opened CallPaths
  import opened ProfilerStates
  import opened Sampling
  import opened Ticks

  datatype Event = Signal(ticks: nat) | SafePoint(stack: Stack, now: nat)

  ghost function Next(s: ProfilerState, limits: Limits, e: Event): (s': ProfilerState)
    requires s.profile.tree.nodes != []
    ensures s'.profile.tree.nodes != []
  {
    match e
    case Signal(ticks) => Ticked(s, ticks)
    case SafePoint(stack, now) => Interrupted(s, limits, stack, now)
  }

  ghost function After(s: ProfilerState, limits: Limits, events: seq<Event>): (s': ProfilerState)
    requires s.profile.tree.nodes != []
    ensures s'.profile.tree.nodes != []
    decreases |events|
  {
    if events == [] then s
    else Next(After(s, limits, events[..|events| - 1]), limits, events[|events| - 1])
  }

  /** The safe points that found ticks to book, each as the sample it took. */
  ghost function SamplesTaken(s: ProfilerState, limits: Limits, events: seq<Event>): seq<Sample>
    requires s.profile.tree.nodes != []
    decreases |events|
  {
    if events == [] then []
    else
      var last, front := events[|events| - 1], events[..|events| - 1];
      var before := After(s, limits, front);
      SamplesTaken(s, limits, front)
      + if last.SafePoint? && before.pendingTicks > 0 && before.running && before.ready
        then [Sample(last.stack, before.pendingTicks)] else []
  }

  /** The ticks the signals of a run brought. */
  ghost function Signalled(events: seq<Event>): nat {
    if events == [] then 0
    else Signalled(events[..|events| - 1]) + match events[|events| - 1]
      case Signal(ticks) => Max(ticks, 1)
      case SafePoint(_, _) => 0
  }

  /** How many times the timer was delivered. */
  ghost function Deliveries(events: seq<Event>): nat {
    if events == [] then 0
    else Deliveries(events[..|events| - 1]) + if events[|events| - 1].Signal? then 1 else 0
  }

  // ------------------------------------------------------------------ accounting

  /** Every delivery pends with at least one tick, and none without. */
  ghost predicate Paired(s: ProfilerState) {
    s.pendingDeliveries <= s.pendingTicks && (s.pendingTicks > 0 ==> s.pendingDeliveries > 0)
  }

  /** Between interrupts every tick is a sample or dropped, and was on time, deferred or overrun. */
  ghost predicate Balanced(s: ProfilerState) {
    && Consistent(s.profile)
    && s.profile.samples + s.profile.dropped == s.counters.ticks
    && s.counters.ticks == s.counters.interrupts + s.counters.deferred + s.counters.overruns
  }

  lemma NextKeepsBalance(s: ProfilerState, limits: Limits, e: Event)
    requires Paired(s) && Balanced(s)
    ensures Paired(Next(s, limits, e)) && Balanced(Next(s, limits, e))
  {
    hide Collected;
    if e.SafePoint? && s.pendingTicks > 0 && s.running && s.ready {
      CollectedMeans(s.profile, limits, s.maxDepth, e.stack, s.pendingTicks, []);
    }
  }

  /** The two equations hold after every run, and while it still samples no tick has gone missing. */
  lemma {:induction false} RunBalances(s: ProfilerState, limits: Limits, events: seq<Event>)
    requires Paired(s) && Balanced(s)
    ensures var s' := After(s, limits, events);
      && Paired(s') && Balanced(s')
      && (s'.running && s'.ready ==>
            s'.counters.ticks + s'.pendingTicks == s.counters.ticks + s.pendingTicks + Signalled(events))
    decreases |events|
  {
    if events != [] {
      var front := events[..|events| - 1];
      RunBalances(s, limits, front);
      NextKeepsBalance(After(s, limits, front), limits, events[|events| - 1]);
    }
  }

  /** Late deliveries come in events, none of them longer than the longest. */
  ghost predicate DeferralsTally(c: Counters) {
    && c.maxDeferred <= c.deferred && c.deferredEvents <= c.deferred && c.deferredEvents <= c.interrupts
    && (c.deferred > 0 <==> c.maxDeferred > 0) && (c.deferred > 0 <==> c.deferredEvents > 0)
  }

  ghost predicate Tallied(s: ProfilerState) {
    && Paired(s) && DeferralsTally(s.counters)
    && s.counters.ticks == s.counters.interrupts + s.counters.deferred + s.counters.overruns
  }

  ghost function DeliveriesKnown(s: ProfilerState): nat {
    s.counters.interrupts + s.counters.deferred + s.pendingDeliveries
  }

  lemma NextKeepsTally(s: ProfilerState, limits: Limits, e: Event)
    requires s.profile.tree.nodes != [] && Tallied(s)
    ensures var s' := Next(s, limits, e);
      && Tallied(s')
      && (s'.running && s'.ready ==>
            s.running && s.ready && DeliveriesKnown(s') == DeliveriesKnown(s) + if e.Signal? then 1 else 0)
  {
  }

  /** While it samples, every delivery is on time, deferred or pending; the ticks beyond one a delivery are the overruns. */
  lemma {:induction false} DeliveriesAddUp(s: ProfilerState, limits: Limits, events: seq<Event>)
    requires s.profile.tree.nodes != [] && Tallied(s)
    ensures var s' := After(s, limits, events);
      && Tallied(s')
      && (s'.running && s'.ready ==> DeliveriesKnown(s') == DeliveriesKnown(s) + Deliveries(events))
    decreases |events|
  {
    if events != [] {
      var front := events[..|events| - 1];
      DeliveriesAddUp(s, limits, front);
      NextKeepsTally(After(s, limits, front), limits, events[|events| - 1]);
    }
  }

  /** What one interrupt took: ticks and deliveries. */
  datatype Taken = Taken(ticks: nat, deliveries: nat)

  /** What the interrupts of a run that found ticks to book took, in order. */
  ghost function Bookings(s: ProfilerState, limits: Limits, events: seq<Event>): seq<Taken>
    requires s.profile.tree.nodes != []
    decreases |events|
  {
    if events == [] then []
    else
      var last, front := events[|events| - 1], events[..|events| - 1];
      var before := After(s, limits, front);
      Bookings(s, limits, front)
      + if last.SafePoint? && before.pendingTicks > 0 && before.running && before.ready
        then [Taken(before.pendingTicks, before.pendingDeliveries)] else []
  }

  function TicksTakenBy(b: seq<Taken>): seq<nat> {
    seq(|b|, i requires 0 <= i < |b| => b[i].ticks)
  }

  /** The deliveries of each booking beyond its first. */
  function Lates(b: seq<Taken>): seq<nat> {
    seq(|b|, i requires 0 <= i < |b| => if b[i].deliveries > 1 then b[i].deliveries - 1 else 0)
  }

  /** The ticks of each booking beyond one a delivery. */
  function Overruns(b: seq<Taken>): seq<nat> {
    seq(|b|, i requires 0 <= i < |b| => if b[i].ticks > b[i].deliveries then b[i].ticks - b[i].deliveries else 0)
  }

  function LateCount(b: seq<Taken>): nat {
    if b == [] then 0 else LateCount(b[..|b| - 1]) + if b[|b| - 1].deliveries > 1 then 1 else 0
  }

  /** Every counter in terms of the bookings it was made of. */
  ghost predicate CountersTell(c: Counters, b: seq<Taken>) {
    && c.interrupts == |b| && c.ticks == Sum(TicksTakenBy(b))
    && c.deferred == Sum(Lates(b)) && c.deferredEvents == LateCount(b) && IsGreatest(c.maxDeferred, Lates(b))
    && c.overruns == Sum(Overruns(b))
  }

  lemma ListsGrow(b: seq<Taken>, last: Taken)
    ensures TicksTakenBy(b + [last]) == TicksTakenBy(b) + [last.ticks]
    ensures Lates(b + [last]) == Lates(b) + [if last.deliveries > 1 then last.deliveries - 1 else 0]
    ensures Overruns(b + [last]) == Overruns(b) + [if last.ticks > last.deliveries then last.ticks - last.deliveries else 0]
  {
  }

  lemma LateCountGrows(b: seq<Taken>, last: Taken)
    ensures LateCount(b + [last]) == LateCount(b) + if last.deliveries > 1 then 1 else 0
  {
    assert (b + [last])[..|b|] == b;
  }

  lemma OneMoreBooking(c: Counters, b: seq<Taken>, last: Taken)
    requires CountersTell(c, b)
    ensures CountersTell(Book(c, last.ticks, last.deliveries), b + [last])
  {
    hide Sum, IsGreatest, TicksTakenBy, Lates, Overruns, LateCount;
    var late := if last.deliveries > 1 then last.deliveries - 1 else 0;
    ListsGrow(b, last);
    LateCountGrows(b, last);
    SumOneMore(TicksTakenBy(b), last.ticks);
    SumOneMore(Lates(b), late);
    SumOneMore(Overruns(b), if last.ticks > last.deliveries then last.ticks - last.deliveries else 0);
    GreatestOneMore(c.maxDeferred, Lates(b), late);
  }

  /** From a start on, the counters are exactly those of the bookings, the longest deferral the greatest of them. */
  lemma {:induction false} CountersTellBookings(s: ProfilerState, limits: Limits, period: nat, maxDepth: nat,
                                                duration: nat, now: nat, events: seq<Event>)
    requires s.ready && period > 0
    ensures var start := Started(s, period, maxDepth, duration, now, true).0;
      CountersTell(After(start, limits, events).counters, Bookings(start, limits, events))
    decreases |events|
  {
    hide CountersTell, Collected;
    var start := Started(s, period, maxDepth, duration, now, true).0;
    if events == [] {
      NoBookings();
    } else {
      var last, front := events[|events| - 1], events[..|events| - 1];
      CountersTellBookings(s, limits, period, maxDepth, duration, now, front);
      var before := After(start, limits, front);
      OneMoreBooking(before.counters, Bookings(start, limits, front), Taken(before.pendingTicks, before.pendingDeliveries));
      NextBooks(before, limits, last);
      assert Bookings(start, limits, front) + [] == Bookings(start, limits, front);
    }
  }

  lemma NoBookings()
    ensures CountersTell(ZERO, [])
  {
  }

  lemma NextBooks(s: ProfilerState, limits: Limits, e: Event)
    requires s.profile.tree.nodes != []
    ensures Next(s, limits, e).counters ==
      if e.SafePoint? && s.pendingTicks > 0 && s.running && s.ready
      then Book(s.counters, s.pendingTicks, s.pendingDeliveries) else s.counters
  {
    hide Collected, Book;
  }

  /** Interrupt by interrupt the profile becomes what the samples taken make of it. */
  lemma {:induction false} RunCollects(s: ProfilerState, limits: Limits, events: seq<Event>)
    requires s.profile.tree.nodes != []
    ensures After(s, limits, events).profile == Run(s.profile, limits, s.maxDepth, SamplesTaken(s, limits, events))
    ensures After(s, limits, events).maxDepth == s.maxDepth
    decreases |events|
  {
    if events != [] {
      var last, front := events[|events| - 1], events[..|events| - 1];
      RunCollects(s, limits, front);
      var before, taken := After(s, limits, front), SamplesTaken(s, limits, front);
      if last.SafePoint? && before.pendingTicks > 0 && before.running && before.ready {
        assert (taken + [Sample(last.stack, before.pendingTicks)])[..|taken|] == taken;
      } else {
        assert SamplesTaken(s, limits, events) == taken;
      }
    }
  }

  /**
   From start to finish: whatever came before `Started`, after any signals and safe points the
   profile maps every call path to the summed weight of the samples recorded under it.
   */
  lemma UnitProfile(s: ProfilerState, limits: Limits, period: nat, maxDepth: nat, duration: nat, now: nat,
                    events: seq<Event>, path: CallPath)
    requires s.ready && period > 0
    ensures var start := Started(s, period, maxDepth, duration, now, true).0;
      var p, taken := After(start, limits, events).profile, SamplesTaken(start, limits, events);
      && Consistent(p)
      && Weight(p.names, p.tree, path) == Booked(EMPTY, limits, EffectiveDepth(maxDepth), taken, Some(path))
      && p.dropped == Booked(EMPTY, limits, EffectiveDepth(maxDepth), taken, None)
      && p.samples + p.dropped == WeightOf(taken)
  {
    var start := Started(s, period, maxDepth, duration, now, true).0;
    RunCollects(start, limits, events);
    ProfileIsTheMap(limits, EffectiveDepth(maxDepth), SamplesTaken(start, limits, events), path);
  }

  /**
   A start succeeds exactly when the profiler is ready, the period is not 0 and the timer can be armed. One
   that only cannot arm the timer leaves an empty profile without a period.
   */
  lemma StartSucceedsIff(s: ProfilerState, period: nat, maxDepth: nat, duration: nat, now: nat, armed: bool)
    ensures var (t, ok) := Started(s, period, maxDepth, duration, now, armed);
      && (ok <==> s.ready && period > 0 && armed)
      && (!s.ready || period == 0 ==> t == s)
      && (s.ready && period > 0 ==>
            && t.profile == EMPTY && t.counters == ZERO && !t.capped && t.running == (armed || s.running)
            && t.period == (if armed then period else 0) && t.maxDepth == (if 1 <= maxDepth <= 256 then maxDepth else 256)
            && t.deadline == (if duration == 0 then 0 else now + duration)
            && (t.pendingTicks, t.pendingDeliveries) == (s.pendingTicks, s.pendingDeliveries))
  {
  }

  /** What came before the start leaves no trace: only ticks already pending are carried over. */
  lemma StartForgets(s: ProfilerState, t: ProfilerState, limits: Limits, period: nat, maxDepth: nat, duration: nat,
                     now: nat, events: seq<Event>)
    requires s.ready && t.ready && period > 0
    requires s.pendingTicks == t.pendingTicks && s.pendingDeliveries == t.pendingDeliveries
    ensures After(Started(s, period, maxDepth, duration, now, true).0, limits, events)
         == After(Started(t, period, maxDepth, duration, now, true).0, limits, events)
  {
  }

  /** Of all that is booked or pending while a profile runs, exactly what was pending at its start is not its own. */
  lemma {:induction false} BooksOnlyItsOwnIff(s: ProfilerState, limits: Limits, period: nat, maxDepth: nat, duration: nat, now: nat,
                           events: seq<Event>)
    requires s.ready && period > 0 && Paired(s)
    ensures var t := After(Started(s, period, maxDepth, duration, now, true).0, limits, events);
      t.running && t.ready ==>
        && t.counters.ticks + t.pendingTicks == s.pendingTicks + Signalled(events)
        && (t.counters.ticks + t.pendingTicks == Signalled(events) <==> s.pendingTicks == 0)
  {
    EmptyIsConsistent();
    RunBalances(Started(s, period, maxDepth, duration, now, true).0, limits, events);
  }

  /** A tick that arrives while nothing runs is the next profile's first sample, though no signal came in that profile. */
  lemma StrayTickIsBooked(s: ProfilerState, limits: Limits, period: nat, maxDepth: nat, duration: nat, now: nat, at: nat)
    requires s.ready && period > 0 && !s.running && s.pendingTicks == 0 && s.pendingDeliveries == 0
    requires limits.frames > 0 && limits.nodes > 1 && limits.arena > |ENGINE_NAME|
    ensures var t := Interrupted(Started(Ticked(s, 1), period, maxDepth, duration, now, true).0, limits, [], at);
      && t.running && t.counters == Counters(1, 1, 0, 0, 0, 0) && t.pendingTicks == 0
      && t.profile.samples == 1 && t.profile.dropped == 0
  {
    var start := Started(Ticked(s, 1), period, maxDepth, duration, now, true).0;
    EngineSampleFits(limits, start.maxDepth, 1);
    assert !CheckDue(start.(counters := Counters(1, 1, 0, 0, 0, 0)));
  }

  // ---------------------------------------------- the same in terms of single accesses

  /** The tick machine and the profiler agree on everything they share. */
  ghost predicate Mirrors(m: Machine, s: ProfilerState) {
    && m.pc == Main && m.hand.Empty()
    && m.running == s.running
    && m.pendingTicks.Total() == s.pendingTicks && m.pendingDeliveries == s.pendingDeliveries
    && m.counters == s.counters
  }

  lemma TakesMirror(m: Machine, s: ProfilerState)
    requires Mirrors(m, s)
    ensures var taken := DeliveriesTaken(TicksTaken(m));
      && taken.hand.Total() == s.pendingTicks && taken.handDeliveries == s.pendingDeliveries
      && taken.pendingTicks.Empty() && taken.pendingDeliveries == 0
      && taken.running == s.running && taken.counters == s.counters
  {
  }

  lemma BookingMirrors(taken: Machine, s: ProfilerState, s': ProfilerState)
    requires taken.hand.Total() == s.pendingTicks && taken.handDeliveries == s.pendingDeliveries
    requires taken.pendingTicks.Empty() && taken.pendingDeliveries == 0
    requires taken.running == s.running && taken.counters == s.counters
    requires s'.pendingTicks == 0 && s'.pendingDeliveries == 0
    requires if s.pendingTicks > 0 && s.running
             then s'.counters == Book(s.counters, s.pendingTicks, s.pendingDeliveries)
             else s'.counters == s.counters && s'.running == s.running
    ensures var booked := TakenBooked(taken);
      && booked.pc == Main && booked.running == s.running && booked.hand.Empty()
      && booked.pendingTicks.Empty() && booked.pendingDeliveries == 0 && booked.counters == s'.counters
  {
    assert taken.hand.Empty() <==> s.pendingTicks == 0;
  }

  lemma StopMirrors(booked: Machine, s': ProfilerState)
    requires booked.pc == Main && booked.running && booked.hand.Empty()
    requires booked.pendingTicks.Empty() && booked.pendingDeliveries == 0 && booked.counters == s'.counters
    requires !s'.running && s'.pendingTicks == 0 && s'.pendingDeliveries == 0
    ensures Mirrors(Stepped(Stepped(Stepped(booked, StopSampling), StopTakeTicks), StopTakeDeliveries), s')
  {
  }

  /** An interrupt no signal lands in is its two takes, its booking and, at the deadline, the two takes of the stop. */
  lemma InterruptIsItsSteps(m: Machine, s: ProfilerState, limits: Limits, stack: Stack, now: nat)
    requires Mirrors(m, s) && s.ready && s.profile.tree.nodes != []
    ensures var s' := Interrupted(s, limits, stack, now);
      var stop := s.running && !s'.running;
      var booked := TakenBooked(DeliveriesTaken(TicksTaken(m)));
      Mirrors(if stop then Stepped(Stepped(Stepped(booked, StopSampling), StopTakeTicks), StopTakeDeliveries) else booked, s')
  {
    hide Collected, Book, TicksTaken, DeliveriesTaken, TakenBooked, Stepped;
    var s' := Interrupted(s, limits, stack, now);
    TakesMirror(m, s);
    BookingMirrors(DeliveriesTaken(TicksTaken(m)), s, s');
    if s.running && !s'.running {
      StopMirrors(TakenBooked(DeliveriesTaken(TicksTaken(m))), s');
    }
  }

  // -------------------------------------------------------------------- deadline

  /** Between interrupts a running profile with a deadline is less than one interval past its last check. */
  ghost predicate RecentlyChecked(s: ProfilerState) {
    s.running && s.deadline != 0 ==>
      && s.checkedInterrupts <= s.counters.interrupts < s.checkedInterrupts + CHECK_INTERVAL
      && s.checkedTicks <= s.counters.ticks < s.checkedTicks + CHECK_INTERVAL
  }

  /**
   An interrupt stops the profile exactly if it books something, there is a deadline, 512 interrupts or 512 ticks have
   gone by since the clock was last looked at, and the deadline has passed.
   */
  lemma StopsIff(s: ProfilerState, limits: Limits, stack: Stack, now: nat)
    requires s.profile.tree.nodes != [] && s.running
    ensures var t := Interrupted(s, limits, stack, now);
      var books := s.pendingTicks > 0 && s.ready;
      var due := || s.counters.interrupts + 1 - s.checkedInterrupts >= 512
                 || s.counters.ticks + s.pendingTicks - s.checkedTicks >= 512;
      && (!t.running <==> books && s.deadline != 0 && due && now > s.deadline)
      && (t.capped <==> s.capped || !t.running)
      && (t.checkedInterrupts, t.checkedTicks) ==
           (if books && s.deadline != 0 && due then (t.counters.interrupts, t.counters.ticks)
            else (s.checkedInterrupts, s.checkedTicks))
      && t.pendingTicks == 0 && t.pendingDeliveries == 0
      && (t.period, t.maxDepth, t.deadline, t.ready) == (s.period, s.maxDepth, s.deadline, s.ready)
  {
    hide Collected;
  }

  ghost predicate Past(deadline: nat, events: seq<Event>) {
    forall i :: 0 <= i < |events| && events[i].SafePoint? ==> events[i].now > deadline
  }

  /**
   Once the deadline has passed at most 512 more interrupts are booked, the stopping one included;
   those before it bring at most 511 ticks. Nothing here depends on whether samples were stored.
   */
  lemma {:induction false} DeadlineStops(s: ProfilerState, limits: Limits, events: seq<Event>)
    requires s.profile.tree.nodes != []
    requires s.running && s.ready && s.deadline != 0 && RecentlyChecked(s) && Past(s.deadline, events)
    ensures var s' := After(s, limits, events);
      && s'.deadline == s.deadline && s'.ready && RecentlyChecked(s')
      && s.counters.interrupts <= s'.counters.interrupts <= s.counters.interrupts + CHECK_INTERVAL
      && (s'.running ==>
            && s'.checkedInterrupts == s.checkedInterrupts && s'.checkedTicks == s.checkedTicks
            && s'.counters.interrupts < s.counters.interrupts + CHECK_INTERVAL
            && s.counters.ticks <= s'.counters.ticks < s.counters.ticks + CHECK_INTERVAL)
      && (!s'.running ==> s'.capped)
    decreases |events|
  {
    if events != [] {
      DeadlineStops(s, limits, events[..|events| - 1]);
    }
  }

  /** Whatever still arrives after a stop, until the next start or reset, changes nothing that was recorded. */
  lemma {:induction false} StoppedKeepsProfile(s: ProfilerState, limits: Limits, events: seq<Event>)
    requires s.profile.tree.nodes != [] && !s.running
    ensures var t := After(s, limits, events);
      && !t.running && t.profile == s.profile && t.counters == s.counters && t.capped == s.capped
      && SamplesTaken(s, limits, events) == []
    decreases |events|
  {
    if events != [] {
      StoppedKeepsProfile(s, limits, events[..|events| - 1]);
    }
  }

  /**
   Stopped at the deadline by the event between `before` and `after`: to the end of the run the profile
   is that of all samples taken, and the last of those is the stopping interrupt's own.
   */
  lemma DeadlineKeepsProfile(s: ProfilerState, limits: Limits, before: seq<Event>, stop: Event, after: seq<Event>)
    requires s.profile.tree.nodes != []
    requires After(s, limits, before).running && !After(s, limits, before + [stop]).running
    ensures var late, t := After(s, limits, before), After(After(s, limits, before + [stop]), limits, after);
      && stop.SafePoint? && late.ready && late.pendingTicks > 0 && stop.now > late.deadline && t.capped && !t.running
      && t.profile == Run(s.profile, limits, s.maxDepth,
                          SamplesTaken(s, limits, before) + [Sample(stop.stack, late.pendingTicks)])
  {
    assert (before + [stop])[..|before|] == before;
    RunCollects(s, limits, before + [stop]);
    StoppedKeepsProfile(After(s, limits, before + [stop]), limits, after);
  }

  /** Every start is checked recently, and every event keeps it so. */
  lemma {:induction false} AlwaysRecentlyChecked(s: ProfilerState, limits: Limits, period: nat, maxDepth: nat,
                                                 duration: nat, now: nat, events: seq<Event>)
    requires s.ready && period > 0
    ensures RecentlyChecked(After(Started(s, period, maxDepth, duration, now, true).0, limits, events))
    decreases |events|
  {
    if events != [] {
      AlwaysRecentlyChecked(s, limits, period, maxDepth, duration, now, events[..|events| - 1]);
    }
  }
}
