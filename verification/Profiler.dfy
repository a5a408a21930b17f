/** The sampling profiler, in place. */
module Profiler {
  import opened Sampling
  import opened SampleStores
  import opened ProfilerStates
  import opened Ticks

  class Profiler {
    const store: SampleStore
    const ready: bool

    var pendingTicks: nat
    var pendingDeliveries: nat
    var period: nat
    var counters: Counters
    var checkedInterrupts: nat
    var checkedTicks: nat
    var deadline: nat
    var maxDepth: nat
    var running: bool
    var capped: bool

    ghost function Storage(): set<object> {
      {store} + store.Parts()
    }

    ghost predicate Valid()
      reads this, Storage()
    {
      this !in Storage() && store.Valid()
    }

    ghost function State(): ProfilerState
      requires Valid()
      reads this, Storage()
    {
      ProfilerState(ready, running, capped, period, maxDepth, deadline, store.Current(), counters,
                    checkedInterrupts, checkedTicks, pendingTicks, pendingDeliveries)
    }

    constructor (store: SampleStore, ready: bool)
      requires store.Valid() && store.Current() == EMPTY
      ensures Valid() && this.store == store
      ensures State() == Initial(ready)
    {
      this.store, this.ready := store, ready;
      pendingTicks, pendingDeliveries, period := 0, 0, 0;
      counters, checkedInterrupts, checkedTicks, deadline, maxDepth := ZERO, 0, 0, 0, 0;
      running, capped := false, false;
    }

    /** Runs in signal context. */
    method Tick(ticks: nat)
      requires Valid()
      modifies this`pendingTicks, this`pendingDeliveries
      ensures Valid() && State() == Ticked(old(State()), ticks)
    {
      pendingTicks := pendingTicks + if ticks == 0 then 1 else ticks;
      pendingDeliveries := pendingDeliveries + 1;
    }

    /** At a safe point: takes the pending ticks, books them and folds in the current stack. */
    method Interrupt(stack: Stack, now: nat)
      requires Valid()
      modifies Storage(), this
      ensures Valid()
      ensures State() == Interrupted(old(State()), store.Bounds(), stack, now)
    {
      hide SampleStore.Valid, Collected, DeadlineChecked, Book;
      var pending := pendingTicks;
      pendingTicks := 0;
      var deliveries := pendingDeliveries;
      pendingDeliveries := 0;
      if pending > 0 && running && ready {
        counters := Book(counters, pending, deliveries);
        store.Collect(maxDepth, stack, pending);
        CheckDeadline(now);
      }
    }

    method CheckDeadline(now: nat)
      requires Valid()
      modifies this`checkedInterrupts, this`checkedTicks, this`capped, this`running, this`pendingTicks, this`pendingDeliveries
      ensures Valid() && State() == DeadlineChecked(old(State()), now)
    {
      if && deadline != 0
         && (counters.interrupts - checkedInterrupts >= CHECK_INTERVAL
             || counters.ticks - checkedTicks >= CHECK_INTERVAL)
      {
        checkedInterrupts := counters.interrupts;
        checkedTicks := counters.ticks;
        if now > deadline {
          Stop();
          capped := true;
        }
      }
    }

    method Start(period: nat, maxDepth: nat, duration: nat, now: nat, armed: bool) returns (ok: bool)
      requires Valid()
      modifies Storage(), this
      ensures Valid()
      ensures (State(), ok) == Started(old(State()), period, maxDepth, duration, now, armed)
    {
      hide SampleStore.Valid, WasReset;
      if !ready || period == 0 {
        return false;
      }
      Reset();
      this.maxDepth := EffectiveDepth(maxDepth);
      this.period := period;
      deadline := if duration == 0 then 0 else now + duration;
      if !armed {
        this.period := 0;
        return false;
      }
      running := true;
      return true;
    }

    method Stop()
      requires Valid()
      modifies this`running, this`pendingTicks, this`pendingDeliveries
      ensures Valid() && State() == Stopped(old(State()))
    {
      if !running {
        return;
      }
      running := false;
      pendingTicks := 0;
      pendingDeliveries := 0;
    }

    method ClearDeadline()
      requires Valid()
      modifies this`deadline
      ensures Valid() && State() == old(State()).(deadline := 0)
    {
      deadline := 0;
    }

    method Reset()
      requires Valid()
      modifies Storage(), this`counters, this`checkedInterrupts, this`checkedTicks, this`capped
      ensures Valid() && State() == WasReset(old(State()))
    {
      hide SampleStore.Valid;
      if !ready {
        return;
      }
      store.Reset();
      counters := ZERO;
      checkedInterrupts, checkedTicks, capped := 0, 0, false;
    }

    method HandleFork()
      requires Valid()
      modifies Storage(), this
      ensures Valid() && State() == AfterFork(old(State()))
    {
      running := false;
      pendingTicks := 0;
      pendingDeliveries := 0;
      Reset();
    }
  }
}
