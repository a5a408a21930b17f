/**
 The writer running while a snapshot copies an entry field by field: an entry that passes the
 equal-and-nonzero check of its sequence number is a copy of one single push.
 */
module BreadcrumbRaces {
  import opened Breadcrumbs
  import opened BreadcrumbCrashes

  /** Entries that carry a number are whole. */
  ghost predicate Whole(entries: seq<Crumb>, pushes: seq<Message>) {
    forall s :: 0 <= s < |entries| ==> WholeEntry(entries[s], pushes)
  }

  ghost predicate WholeEntry(e: Crumb, pushes: seq<Message>) {
    e.seqNo != 0 ==> e.seqNo <= |pushes| && e == Complete(pushes[e.seqNo - 1], e.seqNo)
  }

  /** The ring when the current push began, the finished pushes, the current one and how far it is. */
  datatype Writer = Writer(ring: Ring, pushed: seq<Message>, current: Message, stage: nat)

  /** The memory a reader sees. */
  ghost function Seen(w: Writer): Ring
    requires Shaped(w.ring)
  {
    Stage(w.ring, w.current, w.stage)
  }

  ghost function Pushes(w: Writer): seq<Message> {
    w.pushed + [w.current]
  }

  ghost predicate Running(w: Writer) {
    Recorded(w.ring, w.pushed) && Whole(w.ring.entries, w.pushed) && w.stage <= DONE
  }

  /** A fresh ring is where every history begins. */
  lemma FreshRingRuns(r: Ring, m: Message)
    requires Shaped(r) && r.head == r.seqNo == r.written == 0
    requires forall i :: 0 <= i < |r.entries| ==> r.entries[i].seqNo == 0
    ensures Running(Writer(r, [], m, 0))
  {
  }

  /** The writer performs one write; after its last one it starts on the next message. */
  ghost function Wrote(w: Writer, next: Message): Writer
    requires Shaped(w.ring)
  {
    if w.stage < DONE then w.(stage := w.stage + 1)
    else Writer(Stage(w.ring, w.current, DONE), Pushes(w), next, 0)
  }

  /** At every moment each entry is whole or carries no number. */
  lemma SeenIsWhole(w: Writer)
    requires Running(w)
    ensures Whole(Seen(w).entries, Pushes(w))
    ensures w.stage >= DONE ==> Running(Wrote(w, w.current))
  {
    var r, head := w.ring, w.ring.head;
    FinishedLabel(r, w.current, w.stage);
    StageEnds(r, w.current);
    forall s | 0 <= s < |r.entries|
      ensures WholeEntry(Seen(w).entries[s], Pushes(w))
    {
      assert WholeEntry(r.entries[s], w.pushed);
      if s == head && w.stage < RETRACTED {
        assert InFlight(r.entries[head], w.current, r.seqNo + 1, w.stage).text == r.entries[head].text;
      }
    }
    if w.stage >= DONE {
      PushRecords(r, w.pushed, w.current);
    }
  }

  lemma WritingKeepsRunning(w: Writer, next: Message)
    requires Running(w)
    ensures Running(Wrote(w, next)) && Pushes(w) <= Pushes(Wrote(w, next))
  {
    SeenIsWhole(w);
  }

  datatype Cell = Ts | SeqNo | Kind | Flags | LabelLength | LabelAt(i: nat)

  ghost function Get(c: Crumb, cell: Cell): int {
    match cell
    case Ts => c.ts
    case SeqNo => c.seqNo
    case Kind => c.kind
    case Flags => c.flags
    case LabelLength => c.labelLen
    case LabelAt(i) => if i < |c.text| then c.text[i] as int else 0
  }

  /** A write of the writer, or the copying of one field by the reader. */
  datatype Act = Write(next: Message) | Copy(cell: Cell)

  datatype Race = Race(w: Writer, copy: map<Cell, int>)

  ghost function Acted(race: Race, slot: nat, act: Act): Race
    requires Shaped(race.w.ring) && slot < |race.w.ring.entries|
  {
    match act
    case Write(next) => Race(Wrote(race.w, next), race.copy)
    case Copy(cell) => Race(race.w, race.copy[cell := Get(Seen(race.w).entries[slot], cell)])
  }

  /**
   An entry that still carries the number the reader saw first has not changed since; one that no
   longer does never will again. `done` pushes of `total` are finished.
   */
  ghost predicate UnmixedEntry(e: Crumb, copy: map<Cell, int>, before: nat, done: nat, total: nat) {
    && 0 < before <= total
    && (e.seqNo >= before || (e.seqNo == 0 && before <= done))
    && (e.seqNo == before ==> forall cell :: cell in copy ==> copy[cell] == Get(e, cell))
  }

  ghost predicate Unmixed(race: Race, slot: nat, before: nat)
    requires Shaped(race.w.ring) && slot < |race.w.ring.entries|
  {
    UnmixedEntry(Seen(race.w).entries[slot], race.copy, before, |race.w.pushed|, |Pushes(race.w)|)
  }

  /** What one write does to the number in a slot. */
  lemma NumbersOnlyGrow(w: Writer, next: Message, slot: nat)
    requires Running(w) && slot < |w.ring.entries|
    ensures var e, e' := Seen(w).entries[slot], Seen(Wrote(w, next)).entries[slot];
      e'.seqNo == e.seqNo
      || (e'.seqNo == 0 && 0 < e.seqNo <= |w.pushed| == |Wrote(w, next).pushed|)
      || (e.seqNo == 0 && e'.seqNo == |w.pushed| + 1)
  {
    StageEnds(w.ring, w.current);
    if w.stage >= DONE {
      StageEnds(Stage(w.ring, w.current, DONE), next);
    } else {
      assert WholeEntry(w.ring.entries[slot], w.pushed);
    }
  }

  lemma WriteKeepsUnmixed(e: Crumb, e': Crumb, copy: map<Cell, int>, before: nat, done: nat, done': nat,
                          pushes: seq<Message>, pushes': seq<Message>)
    requires UnmixedEntry(e, copy, before, done, |pushes|)
    requires WholeEntry(e, pushes) && WholeEntry(e', pushes') && pushes <= pushes' && done <= done'
    requires
      || e'.seqNo == e.seqNo
      || (e'.seqNo == 0 && 0 < e.seqNo <= done)
      || (e.seqNo == 0 && e'.seqNo == done + 1)
    ensures UnmixedEntry(e', copy, before, done', |pushes'|)
  {
    assert e'.seqNo == e.seqNo && e.seqNo != 0 ==> e == e';
  }

  lemma WritingKeepsUnmixed(race: Race, slot: nat, before: nat, next: Message)
    requires Running(race.w) && slot < |race.w.ring.entries| && Unmixed(race, slot, before)
    ensures Running(Wrote(race.w, next)) && Pushes(race.w) <= Pushes(Wrote(race.w, next))
    ensures |Wrote(race.w, next).ring.entries| == |race.w.ring.entries|
    ensures Unmixed(Race(Wrote(race.w, next), race.copy), slot, before)
  {
    var w, w' := race.w, Wrote(race.w, next);
    WritingKeepsRunning(w, next);
    NumbersOnlyGrow(w, next, slot);
    SeenIsWhole(w);
    SeenIsWhole(w');
    var e, e' := Seen(w).entries[slot], Seen(w').entries[slot];
    assert WholeEntry(e, Pushes(w)) && WholeEntry(e', Pushes(w'));
    WriteKeepsUnmixed(e, e', race.copy, before, |w.pushed|, |w'.pushed|, Pushes(w), Pushes(w'));
  }

  lemma ActKeepsUnmixed(race: Race, slot: nat, before: nat, act: Act)
    requires Running(race.w) && slot < |race.w.ring.entries| && Unmixed(race, slot, before)
    ensures var race' := Acted(race, slot, act);
      Running(race'.w) && |race'.w.ring.entries| == |race.w.ring.entries| && Unmixed(race', slot, before)
      && Pushes(race.w) <= Pushes(race'.w)
  {
    if act.Write? {
      WritingKeepsUnmixed(race, slot, before, act.next);
    }
  }

  ghost function Raced(race: Race, slot: nat, acts: seq<Act>): (race': Race)
    requires Running(race.w) && slot < |race.w.ring.entries|
    ensures Running(race'.w) && |race'.w.ring.entries| == |race.w.ring.entries|
    decreases |acts|
  {
    if acts == [] then race
    else
      var before := Raced(race, slot, acts[..|acts| - 1]);
      var last := acts[|acts| - 1];
      WritingKeepsRunning(before.w, if last.Write? then last.next else before.w.current);
      Acted(before, slot, last)
  }

  lemma {:induction false} RaceStaysUnmixed(race: Race, slot: nat, before: nat, acts: seq<Act>)
    requires Running(race.w) && slot < |race.w.ring.entries| && Unmixed(race, slot, before)
    ensures var race' := Raced(race, slot, acts);
      Unmixed(race', slot, before) && Pushes(race.w) <= Pushes(race'.w)
    decreases |acts|
  {
    if acts != [] {
      RaceStaysUnmixed(race, slot, before, acts[..|acts| - 1]);
      ActKeepsUnmixed(Raced(race, slot, acts[..|acts| - 1]), slot, before, acts[|acts| - 1]);
    }
  }

  /** A copy between two equal and nonzero readings of the number has every field from the push with that number. */
  ghost predicate CopyIsWhole(before: nat, after: nat, pushes: seq<Message>, copy: map<Cell, int>) {
    before != 0 && after == before ==>
      before <= |pushes| && forall cell :: cell in copy ==> copy[cell] == Get(Complete(pushes[before - 1], before), cell)
  }

  ghost predicate KeptIsWhole(w: Writer, slot: nat, end: Race)
    requires Shaped(w.ring) && slot < |w.ring.entries| && Shaped(end.w.ring) && slot < |end.w.ring.entries|
  {
    CopyIsWhole(Seen(w).entries[slot].seqNo, Seen(end.w).entries[slot].seqNo, Pushes(w), end.copy)
  }

  lemma UnmixedIsWhole(end: Race, slot: nat, before: nat, pushes: seq<Message>)
    requires Running(end.w) && slot < |end.w.ring.entries|
    requires before != 0 ==> before <= |pushes| && pushes <= Pushes(end.w) && Unmixed(end, slot, before)
    ensures CopyIsWhole(before, Seen(end.w).entries[slot].seqNo, pushes, end.copy)
  {
    if before != 0 && Seen(end.w).entries[slot].seqNo == before {
      AgreedRaceIsWhole(end, slot, before, pushes);
    }
  }

  /** Whatever the writer does while the fields are copied, in whatever order they are copied, an entry kept is one single push. */
  lemma KeptEntriesAreWhole(w: Writer, slot: nat, acts: seq<Act>)
    requires Running(w) && slot < |w.ring.entries|
    ensures KeptIsWhole(w, slot, Raced(Race(w, map[]), slot, acts))
  {
    var start, before := Race(w, map[]), Seen(w).entries[slot].seqNo;
    if before != 0 {
      FirstLookIsUnmixed(w, slot);
      RaceStaysUnmixed(start, slot, before, acts);
    }
    UnmixedIsWhole(Raced(start, slot, acts), slot, before, Pushes(w));
  }

  lemma AgreedRaceIsWhole(end: Race, slot: nat, before: nat, pushes: seq<Message>)
    requires Running(end.w) && slot < |end.w.ring.entries| && Unmixed(end, slot, before)
    requires Seen(end.w).entries[slot].seqNo == before && before <= |pushes| && pushes <= Pushes(end.w)
    ensures forall cell :: cell in end.copy ==> end.copy[cell] == Get(Complete(pushes[before - 1], before), cell)
  {
    SeenIsWhole(end.w);
    assert WholeEntry(Seen(end.w).entries[slot], Pushes(end.w));
    AgreedIsWhole(Seen(end.w).entries[slot], end.copy, before, |end.w.pushed|, pushes, Pushes(end.w));
  }

  lemma FirstLookIsUnmixed(w: Writer, slot: nat)
    requires Running(w) && slot < |w.ring.entries| && Seen(w).entries[slot].seqNo != 0
    ensures Seen(w).entries[slot].seqNo <= |Pushes(w)|
    ensures Unmixed(Race(w, map[]), slot, Seen(w).entries[slot].seqNo)
  {
    SeenIsWhole(w);
    assert WholeEntry(Seen(w).entries[slot], Pushes(w));
  }

  lemma AgreedIsWhole(e: Crumb, copy: map<Cell, int>, before: nat, done: nat, pushes: seq<Message>, pushes': seq<Message>)
    requires UnmixedEntry(e, copy, before, done, |pushes'|) && e.seqNo == before
    requires WholeEntry(e, pushes') && pushes <= pushes' && before <= |pushes|
    ensures forall cell :: cell in copy ==> copy[cell] == Get(Complete(pushes[before - 1], before), cell)
  {
  }

  /**
   The same since start-up: after any history of writes on a fresh ring a reader turns to some slot,
   and whatever it keeps of that is one single push.
   */
  lemma KeptSinceStartUp(r: Ring, first: Message, history: seq<Act>, slot: nat, acts: seq<Act>)
    requires Shaped(r) && r.head == r.seqNo == r.written == 0 && slot < |r.entries|
    requires forall i :: 0 <= i < |r.entries| ==> r.entries[i].seqNo == 0
    ensures Running(Writer(r, [], first, 0))
    ensures var w := Raced(Race(Writer(r, [], first, 0), map[]), slot, history).w;
      KeptIsWhole(w, slot, Raced(Race(w, map[]), slot, acts))
  {
    FreshRingRuns(r, first);
    KeptEntriesAreWhole(Raced(Race(Writer(r, [], first, 0), map[]), slot, history).w, slot, acts);
  }
}
