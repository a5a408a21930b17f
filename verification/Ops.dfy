/** Operation timing: tokens, a slot stack with holes for crash context, and per-type aggregates. */
module Ops {
  import opened Common

  const OP_NONE: nat := 0
  const OP_MAX: nat := 6
  const OP_STACK_MAX: nat := 8
  const OP_NO_SLOT: nat := UINT32_MAX

  datatype Agg = Agg(count: nat, total: nat, max: nat)
  datatype OpFrame = OpFrame(kind: nat, start: nat)
  datatype Token = Token(kind: nat, start: nat, slot: nat, generation: nat)

  datatype OpState = OpState(agg: seq<Agg>, stack: seq<OpFrame>, depth: nat, overflow: nat, generation: nat)

  const NO_AGG: Agg := Agg(0, 0, 0)
  const NO_OP: OpFrame := OpFrame(OP_NONE, 0)

  predicate ValidKind(kind: nat) {
    OP_NONE < kind < OP_MAX
  }

  ghost predicate Shaped(s: OpState) {
    |s.agg| == OP_MAX && |s.stack| == OP_STACK_MAX && s.depth <= OP_STACK_MAX
  }

  function Fresh(): OpState {
    OpState(seq(OP_MAX, _ => NO_AGG), seq(OP_STACK_MAX, _ => NO_OP), 0, 0, 0)
  }

  function WasReset(s: OpState): OpState {
    Fresh().(generation := s.generation + 1)
  }

  function Begun(s: OpState, kind: nat, now: nat): (OpState, Token)
    requires Shaped(s)
  {
    if !ValidKind(kind) then (s, Token(OP_NONE, now, OP_NO_SLOT, s.generation))
    else if s.depth < OP_STACK_MAX then
      (s.(stack := s.stack[s.depth := OpFrame(kind, now)], depth := s.depth + 1),
       Token(kind, now, s.depth, s.generation))
    else (s.(overflow := s.overflow + 1), Token(kind, now, OP_NO_SLOT, s.generation))
  }

  /** The depth once the empty slots at the top are let go. */
  function Trimmed(stack: seq<OpFrame>, depth: nat): (d: nat)
    requires depth <= |stack|
    ensures d <= depth
    ensures forall k :: d <= k < depth ==> stack[k].kind == OP_NONE
    ensures d > 0 ==> stack[d - 1].kind != OP_NONE
  {
    if depth > 0 && stack[depth - 1].kind == OP_NONE then Trimmed(stack, depth - 1) else depth
  }

  function Elapsed(start: nat, now: nat): nat {
    if now > start then now - start else 0
  }

  function Added(agg: Agg, elapsed: nat): Agg {
    Agg(agg.count + 1, agg.total + elapsed, Max(agg.max, elapsed))
  }

  function Released(s: OpState, slot: nat): OpState
    requires Shaped(s)
  {
    if slot < OP_STACK_MAX then
      var stack := s.stack[slot := s.stack[slot].(kind := OP_NONE)];
      s.(stack := stack, depth := Trimmed(stack, s.depth))
    else s
  }

  function Ended(s: OpState, token: Token, now: nat): OpState
    requires Shaped(s)
  {
    if !ValidKind(token.kind) || token.generation != s.generation then s
    else
      Released(s, token.slot).(agg := s.agg[token.kind := Added(s.agg[token.kind], Elapsed(token.start, now))])
  }

  /** What a crash record says is in flight: the topmost occupied slot, or nothing. */
  function Reported(stack: seq<OpFrame>, depth: nat): OpFrame
    requires depth <= |stack|
  {
    var top := Trimmed(stack, depth);
    if top == 0 then NO_OP else stack[top - 1]
  }

  // --------------------------------------------------------------- what it stands for

  /** An operation that has ended in this generation. */
  datatype Done = Done(kind: nat, elapsed: nat)

  /** Count, sum and maximum of the durations of one type. */
  function Aggregate(done: seq<Done>, kind: nat): Agg {
    if done == [] then NO_AGG
    else
      var before, last := Aggregate(done[..|done| - 1], kind), done[|done| - 1];
      if last.kind == kind then Added(before, last.elapsed) else before
  }

  /** The durations of the operations of one type, in the order of their ends. */
  function DurationsOf(done: seq<Done>, kind: nat): seq<nat> {
    if done == [] then []
    else
      var last := done[|done| - 1];
      DurationsOf(done[..|done| - 1], kind) + if last.kind == kind then [last.elapsed] else []
  }

  /** How many durations there are, their sum and the longest of them. */
  ghost predicate Measures(agg: Agg, durations: seq<nat>) {
    agg.count == |durations| && agg.total == Sum(durations) && IsGreatest(agg.max, durations)
  }

  lemma {:induction false} AggregateMeasures(done: seq<Done>, kind: nat)
    ensures Measures(Aggregate(done, kind), DurationsOf(done, kind))
    decreases |done|
  {
    if done != [] {
      var front, last := done[..|done| - 1], done[|done| - 1];
      AggregateMeasures(front, kind);
      if last.kind == kind {
        SumOneMore(DurationsOf(front, kind), last.elapsed);
        GreatestOneMore(Aggregate(front, kind).max, DurationsOf(front, kind), last.elapsed);
      } else {
        assert DurationsOf(done, kind) == DurationsOf(front, kind);
      }
    }
  }

  predicate HasSlot(t: Token) {
    t.slot != OP_NO_SLOT
  }

  /**
   `live` are the tokens handed out in this generation and not ended, in the order of their begins;
   `done` are the operations ended in it.
   */
  ghost predicate Tracks(s: OpState, live: seq<Token>, done: seq<Done>) {
    && Shaped(s)
    && Occupied(s.stack, s.depth, live)
    && (forall i :: 0 <= i < |live| ==> ValidKind(live[i].kind) && live[i].generation == s.generation)
    && (s.depth > 0 ==> s.stack[s.depth - 1].kind != OP_NONE)
    && (forall kind :: 0 <= kind < OP_MAX ==> s.agg[kind] == Aggregate(done, kind))
    && (forall i :: 0 <= i < |done| ==> ValidKind(done[i].kind))
  }

  /** Live tokens own distinct slots below the depth, later ones higher up; all other slots are empty. */
  ghost predicate Occupied(stack: seq<OpFrame>, depth: nat, live: seq<Token>) {
    && depth <= |stack| == OP_STACK_MAX
    && (forall i :: 0 <= i < |live| && HasSlot(live[i]) ==>
          live[i].slot < depth && ValidKind(live[i].kind) && stack[live[i].slot] == OpFrame(live[i].kind, live[i].start))
    && (forall i, j :: 0 <= i < j < |live| && HasSlot(live[i]) && HasSlot(live[j]) ==> live[i].slot < live[j].slot)
    && (forall k :: 0 <= k < |stack| && stack[k].kind != OP_NONE ==> k < depth && Owned(live, k))
  }

  ghost predicate Owned(live: seq<Token>, k: nat) {
    exists i :: 0 <= i < |live| && live[i].slot == k
  }

  /** The most recently begun live operation that has a slot. */
  function Newest(live: seq<Token>): OpFrame {
    if live == [] then NO_OP
    else
      var last := live[|live| - 1];
      if HasSlot(last) then OpFrame(last.kind, last.start) else Newest(live[..|live| - 1])
  }

  function Without(live: seq<Token>, i: nat): seq<Token>
    requires i < |live|
  {
    live[..i] + live[i + 1..]
  }

  lemma ResetTracks(s: OpState)
    ensures Tracks(WasReset(s), [], [])
  {
  }

  lemma BeginTracks(s: OpState, live: seq<Token>, done: seq<Done>, kind: nat, now: nat)
    requires Tracks(s, live, done)
    ensures var (s', token) := Begun(s, kind, now);
      && Tracks(s', if ValidKind(kind) then live + [token] else live, done)
      && (if 0 < kind < 6 then token.kind == kind && token.start == now && token.generation == s.generation
          else s' == s && token.kind == OP_NONE)
      && (HasSlot(token) <==> ValidKind(kind) && s.depth < OP_STACK_MAX)
      && s'.overflow == s.overflow + if ValidKind(kind) && !HasSlot(token) then 1 else 0
  {
    var (s', token) := Begun(s, kind, now);
    if ValidKind(kind) {
      var live' := live + [token];
      forall k | 0 <= k < OP_STACK_MAX && s'.stack[k].kind != OP_NONE
        ensures k < s'.depth && Owned(live', k)
      {
        if s.depth == k < OP_STACK_MAX {
          assert live'[|live|].slot == k;
        } else {
          assert Owned(live, k);
          var i :| 0 <= i < |live| && live[i].slot == k;
          assert live'[i].slot == k;
        }
      }
    }
  }

  lemma OthersKeepTheirSlots(s: OpState, live: seq<Token>, i: nat)
    requires Shaped(s) && Occupied(s.stack, s.depth, live) && i < |live|
    ensures var s', live' := Released(s, live[i].slot), Without(live, i);
      forall j :: 0 <= j < |live'| && HasSlot(live'[j]) ==>
        live'[j].slot < s'.depth && ValidKind(live'[j].kind) && s'.stack[live'[j].slot] == OpFrame(live'[j].kind, live'[j].start)
  {
    var s', live', slot := Released(s, live[i].slot), Without(live, i), live[i].slot;
    forall j | 0 <= j < |live'| && HasSlot(live'[j])
      ensures live'[j].slot < s'.depth && ValidKind(live'[j].kind)
      ensures s'.stack[live'[j].slot] == OpFrame(live'[j].kind, live'[j].start)
    {
      var k := if j < i then j else j + 1;
      assert live'[j] == live[k];
      assert HasSlot(live[i]) ==> live[k].slot != slot;
      assert s'.stack[live[k].slot] == s.stack[live[k].slot];
    }
  }

  lemma OthersOwnTheRest(s: OpState, live: seq<Token>, i: nat)
    requires Shaped(s) && Occupied(s.stack, s.depth, live) && i < |live|
    ensures var s', live' := Released(s, live[i].slot), Without(live, i);
      forall k :: 0 <= k < OP_STACK_MAX && s'.stack[k].kind != OP_NONE ==> k < s'.depth && Owned(live', k)
  {
    var s', live' := Released(s, live[i].slot), Without(live, i);
    forall k | 0 <= k < OP_STACK_MAX && s'.stack[k].kind != OP_NONE
      ensures k < s'.depth && Owned(live', k)
    {
      assert s.stack[k].kind != OP_NONE && Owned(live, k);
      var j :| 0 <= j < |live| && live[j].slot == k;
      assert j != i;
      assert live'[if j < i then j else j - 1] == live[j];
    }
  }

  /** Letting go of a slot, or of none, leaves the other live tokens where they are. */
  lemma ReleaseKeepsOthers(s: OpState, live: seq<Token>, i: nat)
    requires Shaped(s) && Occupied(s.stack, s.depth, live) && i < |live|
    requires s.depth > 0 ==> s.stack[s.depth - 1].kind != OP_NONE
    ensures var s', live' := Released(s, live[i].slot), Without(live, i);
      && Occupied(s'.stack, s'.depth, live')
      && (s'.depth > 0 ==> s'.stack[s'.depth - 1].kind != OP_NONE)
  {
    hide Owned, Trimmed;
    OthersKeepTheirSlots(s, live, i);
    OthersOwnTheRest(s, live, i);
  }

  /** Ending a live token books exactly its own duration under its own type. */
  lemma EndTracks(s: OpState, live: seq<Token>, done: seq<Done>, i: nat, now: nat)
    requires Tracks(s, live, done) && i < |live|
    ensures Tracks(Ended(s, live[i], now), Without(live, i),
                   done + [Done(live[i].kind, Elapsed(live[i].start, now))])
  {
    var done' := done + [Done(live[i].kind, Elapsed(live[i].start, now))];
    assert done'[..|done|] == done;
    ReleaseKeepsOthers(s, live, i);
  }

  /** A token of no type or of another generation ends without effect. */
  lemma StaleEndsAreIgnored(s: OpState, token: Token, now: nat)
    requires Shaped(s)
    ensures !ValidKind(token.kind) || token.generation != s.generation ==> Ended(s, token, now) == s
    ensures ValidKind(token.kind) && token.generation == s.generation ==> Ended(s, token, now) != s
  {
  }

  // ------------------------------------------------------ what a crash record reports

  /** With the slots occupied as they should be, the report is the newest live operation that has a slot. */
  lemma {:induction false} ReportIsNewest(stack: seq<OpFrame>, depth: nat, live: seq<Token>)
    requires Occupied(stack, depth, live)
    ensures Reported(stack, depth) == Newest(live)
    decreases |live|
  {
    if live != [] {
      var last, front := live[|live| - 1], live[..|live| - 1];
      var top := Trimmed(stack, depth);
      if HasSlot(last) {
        assert Owned(live, top - 1);
        var i :| 0 <= i < |live| && live[i].slot == top - 1;
        assert last.slot == top - 1;
      } else {
        forall k | 0 <= k < |stack| && stack[k].kind != OP_NONE
          ensures k < depth && Owned(front, k)
        {
          assert Owned(live, k);
          var i :| 0 <= i < |live| && live[i].slot == k;
          assert front[i].slot == k;
        }
        ReportIsNewest(stack, depth, front);
      }
    }
  }

  /** The slot stack between the statements of a begin: type stored, start stored, depth advanced. */
  function BeginStage(s: OpState, kind: nat, now: nat, stage: nat): (seq<OpFrame>, nat)
    requires Shaped(s) && s.depth < OP_STACK_MAX
  {
    var slot := s.stack[s.depth];
    (s.stack[s.depth := OpFrame(if stage >= 1 then kind else slot.kind, if stage >= 2 then now else slot.start)],
     if stage >= 3 then s.depth + 1 else s.depth)
  }

  /** Wherever a begin is interrupted, the report is the newest operation without or with the new one. */
  lemma ReportDuringBegin(s: OpState, live: seq<Token>, done: seq<Done>, kind: nat, now: nat, stage: nat)
    requires Tracks(s, live, done) && ValidKind(kind) && s.depth < OP_STACK_MAX
    ensures var (stack, depth) := BeginStage(s, kind, now, stage);
      depth <= |stack| &&
      Reported(stack, depth) == if stage >= 3 then OpFrame(kind, now) else Newest(live)
  {
    var (stack, depth) := BeginStage(s, kind, now, stage);
    ReportIsNewest(s.stack, s.depth, live);
  }

  /** Wherever an end is interrupted, the report is the newest operation with or without the ended one. */
  lemma ReportDuringEnd(s: OpState, live: seq<Token>, done: seq<Done>, i: nat, depth: nat)
    requires Tracks(s, live, done) && i < |live| && HasSlot(live[i])
    requires Released(s, live[i].slot).depth <= depth <= s.depth
    ensures Reported(s.stack, s.depth) == Newest(live)
    ensures Reported(Released(s, live[i].slot).stack, depth) == Newest(Without(live, i))
  {
    var released := Released(s, live[i].slot);
    ReportIsNewest(s.stack, s.depth, live);
    ReleaseKeepsOthers(s, live, i);
    assert Occupied(released.stack, depth, Without(live, i));
    ReportIsNewest(released.stack, depth, Without(live, i));
  }

  // ------------------------------------------------------------------------ every run

  /** A begin, an end of the i-th live operation, or a reset. */
  datatype Step = Starting(kind: nat, now: nat) | Ending(i: nat, now: nat) | Resetting

  datatype Log = Log(state: OpState, live: seq<Token>, done: seq<Done>)

  /** The table and what it stands for; ending something not live changes nothing. */
  function Stepped(l: Log, step: Step): Log
    requires Shaped(l.state)
  {
    match step
    case Starting(kind, now) =>
      var (state, token) := Begun(l.state, kind, now);
      Log(state, if ValidKind(kind) then l.live + [token] else l.live, l.done)
    case Ending(i, now) =>
      if i >= |l.live| then l
      else
        Log(Ended(l.state, l.live[i], now), Without(l.live, i),
            l.done + [Done(l.live[i].kind, Elapsed(l.live[i].start, now))])
    case Resetting => Log(WasReset(l.state), [], [])
  }

  ghost function Ran(steps: seq<Step>): (l: Log)
    ensures Shaped(l.state)
  {
    if steps == [] then Log(Fresh(), [], []) else Stepped(Ran(steps[..|steps| - 1]), steps[|steps| - 1])
  }

  lemma StepTracks(l: Log, step: Step)
    requires Tracks(l.state, l.live, l.done)
    ensures var l' := Stepped(l, step); Tracks(l'.state, l'.live, l'.done)
  {
    match step
    case Starting(kind, now) => BeginTracks(l.state, l.live, l.done, kind, now);
    case Ending(i, now) =>
      if i < |l.live| {
        EndTracks(l.state, l.live, l.done, i, now);
      }
    case Resetting => ResetTracks(l.state);
  }

  lemma TrackedMeans(l: Log)
    requires Tracks(l.state, l.live, l.done)
    ensures forall kind :: OP_NONE < kind < OP_MAX ==> Measures(l.state.agg[kind], DurationsOf(l.done, kind))
    ensures Reported(l.state.stack, l.state.depth) == Newest(l.live)
  {
    forall kind | OP_NONE < kind < OP_MAX
      ensures Measures(l.state.agg[kind], DurationsOf(l.done, kind))
    {
      AggregateMeasures(l.done, kind);
    }
    ReportIsNewest(l.state.stack, l.state.depth, l.live);
  }

  /**
   After every run of begins, ends in any order and resets: the aggregates are number, sum and maximum of
   the durations of the operations ended since the last reset, each counted once, and the report is the
   newest live operation with a slot.
   */
  lemma {:induction false} EveryRunTracks(steps: seq<Step>)
    ensures var l := Ran(steps);
      && Tracks(l.state, l.live, l.done)
      && (forall kind :: OP_NONE < kind < OP_MAX ==> Measures(l.state.agg[kind], DurationsOf(l.done, kind)))
      && Reported(l.state.stack, l.state.depth) == Newest(l.live)
    decreases |steps|
  {
    hide Measures, Stepped;
    if steps != [] {
      EveryRunTracks(steps[..|steps| - 1]);
      StepTracks(Ran(steps[..|steps| - 1]), steps[|steps| - 1]);
    }
    TrackedMeans(Ran(steps));
  }

  // ------------------------------------------------------------------------ in place

  class OpTable {
    const agg: array<Agg>
    const stack: array<OpFrame>
    var depth: nat
    var overflow: nat
    var generation: nat

    ghost predicate Valid()
      reads this
    {
      agg.Length == OP_MAX && stack.Length == OP_STACK_MAX && depth <= OP_STACK_MAX
    }

    ghost function State(): OpState
      reads this, agg, stack
    {
      OpState(agg[..], stack[..], depth, overflow, generation)
    }

    constructor ()
      ensures Valid() && fresh(agg) && fresh(stack)
      ensures Tracks(State(), [], []) && State() == Fresh()
    {
      agg := new Agg[OP_MAX](_ => NO_AGG);
      stack := new OpFrame[OP_STACK_MAX](_ => NO_OP);
      depth, overflow, generation := 0, 0, 0;
    }

    method Reset()
      requires Valid()
      modifies this, agg, stack
      ensures Valid() && State() == WasReset(old(State()))
    {
      forall k | 0 <= k < OP_MAX {
        agg[k] := NO_AGG;
      }
      forall k | 0 <= k < OP_STACK_MAX {
        stack[k] := NO_OP;
      }
      depth, overflow := 0, 0;
      generation := generation + 1;
    }

    /** The slot stack goes through the stages a crash can find it in. */
    method Begin(kind: nat, now: nat) returns (token: Token)
      requires Valid()
      modifies this`depth, this`overflow, stack
      ensures Valid() && (State(), token) == Begun(old(State()), kind, now)
    {
      if !ValidKind(kind) {
        return Token(OP_NONE, now, OP_NO_SLOT, generation);
      }
      token := Token(kind, now, OP_NO_SLOT, generation);
      if depth < OP_STACK_MAX {
        ghost var s := State();
        token := token.(slot := depth);
        stack[depth] := stack[depth].(kind := kind);
        assert (stack[..], depth) == BeginStage(s, kind, now, 1);
        stack[depth] := stack[depth].(start := now);
        assert stack[..] == s.stack[s.depth := OpFrame(kind, now)];
        assert (stack[..], depth) == BeginStage(s, kind, now, 2);
        depth := depth + 1;
        assert (stack[..], depth) == BeginStage(s, kind, now, 3);
      } else {
        overflow := overflow + 1;
      }
    }

    method End(token: Token, now: nat)
      requires Valid()
      modifies this`depth, agg, stack
      ensures Valid() && State() == Ended(old(State()), token, now)
    {
      if !ValidKind(token.kind) || token.generation != generation {
        return;
      }
      if token.slot != OP_NO_SLOT && token.slot < OP_STACK_MAX {
        Release(token.slot);
      }
      var elapsed := if now > token.start then now - token.start else 0;
      var entry := agg[token.kind];
      agg[token.kind] := Agg(entry.count + 1, entry.total + elapsed, if elapsed > entry.max then elapsed else entry.max);
    }

    /** Empties a slot, then lets go of the empty ones at the top one at a time. */
    method Release(slot: nat)
      requires Valid() && slot < OP_STACK_MAX
      modifies this`depth, stack
      ensures Valid() && State() == Released(old(State()), slot)
    {
      stack[slot] := stack[slot].(kind := OP_NONE);
      ghost var full, cells := depth, stack[..];
      while depth > 0 && stack[depth - 1].kind == OP_NONE
        invariant 0 <= depth <= full && stack[..] == cells
        invariant Trimmed(cells, depth) == Trimmed(cells, full)
      {
        depth := depth - 1;
      }
    }

    /** Scans down for the topmost occupied slot. */
    method Top() returns (top: nat)
      requires Valid()
      ensures top == Trimmed(stack[..], depth)
    {
      var index := depth;
      while index > 0
        invariant 0 <= index <= depth && Trimmed(stack[..], depth) == Trimmed(stack[..], index)
      {
        if stack[index - 1].kind != OP_NONE {
          return index;
        }
        index := index - 1;
      }
      return 0;
    }

    method Current() returns (kind: nat)
      requires Valid()
      ensures kind == Reported(stack[..], depth).kind
    {
      var top := Top();
      kind := if top == 0 then OP_NONE else stack[top - 1].kind;
    }

    method CurrentStart() returns (start: nat)
      requires Valid()
      ensures start == Reported(stack[..], depth).start
    {
      var top := Top();
      start := if top == 0 then 0 else stack[top - 1].start;
    }
  }
}
