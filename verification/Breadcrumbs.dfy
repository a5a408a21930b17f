/** The breadcrumb ring: a writer that a crash can stop at any statement, and the snapshot the crash handler takes. */
module Breadcrumbs {
  import opened Common
  import opened Probing

  const LABEL_MAX: nat := 48

  datatype Crumb = Crumb(ts: nat, seqNo: nat, kind: nat, flags: nat, labelLen: nat, text: bytes)

  /** The arguments of one push. */
  datatype Message = Message(kind: nat, flags: nat, text: Option<bytes>, now: nat)

  datatype Ring = Ring(entries: seq<Crumb>, head: nat, seqNo: nat, written: nat)

  ghost predicate Shaped(r: Ring) {
    0 < |r.entries| && r.head < |r.entries| && forall i :: 0 <= i < |r.entries| ==> |r.entries[i].text| == LABEL_MAX
  }

  function LabelLen(m: Message): (len: nat)
    ensures len <= LABEL_MAX
  {
    if m.text.None? then 0 else Min(|m.text.value|, LABEL_MAX)
  }

  /** Byte i of the stored text: the label as far as it fits, then zeros. */
  function LabelByte(m: Message, i: nat): byte {
    if i < LabelLen(m) then m.text.value[i] else 0
  }

  function Label(m: Message): bytes {
    seq(LABEL_MAX, i requires 0 <= i => LabelByte(m, i))
  }

  /** What a finished push leaves in its slot. */
  function Complete(m: Message, seqNo: nat): Crumb {
    Crumb(m.now, seqNo, m.kind, m.flags, LabelLen(m), Label(m))
  }

  /** An entry as the push it came from asks for it: its fields and number, the label's first 48 bytes, then zeros. */
  ghost predicate Describes(e: Crumb, m: Message, number: nat) {
    && e.ts == m.now && e.kind == m.kind && e.flags == m.flags && e.seqNo == number
    && e.labelLen <= 48 == |e.text|
    && (match m.text
        case None => e.labelLen == 0
        case Some(t) =>
          e.labelLen == (if |t| < 48 then |t| else 48) && e.text[..e.labelLen] == t[..e.labelLen])
    && forall i :: e.labelLen <= i < 48 ==> e.text[i] == 0
  }

  lemma CompleteDescribes(m: Message, number: nat)
    ensures Describes(Complete(m, number), m, number)
  {
    var e := Complete(m, number);
    forall i | 0 <= i < e.labelLen
      ensures e.text[i] == m.text.value[i]
    {
    }
  }

  // --------------------------------------------------- a push, statement by statement

  // The stages of a push: how many of its writes have been performed.
  const RETRACTED: nat := 1
  const LABELLING: nat := 5             // every field but the label is written
  const LABELLED: nat := 5 + LABEL_MAX
  const NUMBERED: nat := LABELLED + 1   // the ring's counter has advanced
  const PUBLISHED: nat := LABELLED + 2  // the entry carries its number
  const MOVED: nat := LABELLED + 3      // the head has advanced
  const DONE: nat := LABELLED + 4

  /** An entry after the first `stage` writes of a push into it. */
  function InFlight(old_: Crumb, m: Message, seqNo: nat, stage: nat): Crumb
    requires |old_.text| == LABEL_MAX
  {
    Crumb(
      if stage >= 2 then m.now else old_.ts,
      if stage >= PUBLISHED then seqNo else if stage >= RETRACTED then 0 else old_.seqNo,
      if stage >= 3 then m.kind else old_.kind,
      if stage >= 4 then m.flags else old_.flags,
      if stage >= LABELLING then LabelLen(m) else old_.labelLen,
      seq(LABEL_MAX, i requires 0 <= i < LABEL_MAX => if stage > LABELLING + i then LabelByte(m, i) else old_.text[i]))
  }

  /** The ring after the first `stage` writes of a push. */
  function Stage(r: Ring, m: Message, stage: nat): Ring
    requires Shaped(r)
  {
    Ring(r.entries[r.head := InFlight(r.entries[r.head], m, r.seqNo + 1, stage)],
         if stage >= MOVED then Wrap(r.head + 1, |r.entries|) else r.head,
         if stage >= NUMBERED then r.seqNo + 1 else r.seqNo,
         if stage >= DONE then r.written + 1 else r.written)
  }

  /** A push that has not started has changed nothing; a finished one has left its entry complete. */
  lemma StageEnds(r: Ring, m: Message)
    requires Shaped(r)
    ensures Stage(r, m, 0) == r
    ensures InFlight(r.entries[r.head], m, r.seqNo + 1, DONE) == Complete(m, r.seqNo + 1)
  {
    var e := r.entries[r.head];
    assert InFlight(e, m, r.seqNo + 1, 0).text == e.text;
    assert r.entries[r.head := e] == r.entries;
    assert InFlight(e, m, r.seqNo + 1, DONE).text == Label(m);
  }

  // ------------------------------------------------------------------- snapshots

  /** The `count` entries before the head, in ring order. */
  function Window(r: Ring, count: nat): seq<Crumb>
    requires Shaped(r) && count <= |r.entries|
  {
    var n := |r.entries|;
    seq(count, i requires 0 <= i < count => r.entries[Wrap(r.head + n - count + i, n)])
  }

  function Published(crumbs: seq<Crumb>): seq<Crumb> {
    if crumbs == [] then []
    else Published(crumbs[..|crumbs| - 1])
         + if crumbs[|crumbs| - 1].seqNo == 0 then [] else [crumbs[|crumbs| - 1]]
  }

  function WindowSize(r: Ring, max: nat): nat {
    Min(Min(r.written, |r.entries|), max)
  }

  /** What a snapshot of a ring that stands still returns. */
  function SnapshotOf(r: Ring, max: nat): seq<Crumb>
    requires Shaped(r)
  {
    Published(Window(r, WindowSize(r, max)))
  }

  class CrumbRing {
    const entries: array<Crumb>
    var head: nat
    var seqNo: nat
    var written: nat

    ghost predicate Valid()
      reads this, entries
    {
      Shaped(State()) && PowerOfTwo(entries.Length) && 16 <= entries.Length
    }

    ghost function State(): Ring
      reads this, entries
    {
      Ring(entries[..], head, seqNo, written)
    }

    constructor (capacity: nat)
      requires 0 < capacity <= 0x10_0000
      ensures Valid() && fresh(entries)
      ensures capacity <= entries.Length && (entries.Length == 16 || entries.Length / 2 < capacity)
      ensures written == 0 && seqNo == 0 && head == 0
      ensures forall i :: 0 <= i < entries.Length ==> entries[i].seqNo == 0
    {
      var size := RoundPow2(capacity);
      entries := new Crumb[size](_ => Crumb(0, 0, 0, 0, 0, seq(LABEL_MAX, _ => 0)));
      head, seqNo, written := 0, 0, 0;
    }

    /** Retracts the slot and writes every field but the label; each write leads from one stage to the next. */
    method WriteFields(m: Message)
      requires Valid()
      modifies entries
      ensures Valid() && State() == Stage(old(State()), m, LABELLING)
    {
      ghost var r := State();
      StageEnds(r, m);
      entries[head] := entries[head].(seqNo := 0);
      StageSame(State(), r, m, RETRACTED);
      entries[head] := entries[head].(ts := m.now);
      StageSame(State(), r, m, 2);
      entries[head] := entries[head].(kind := m.kind);
      StageSame(State(), r, m, 3);
      entries[head] := entries[head].(flags := m.flags);
      StageSame(State(), r, m, 4);
      entries[head] := entries[head].(labelLen := LabelLen(m));
      StageSame(State(), r, m, LABELLING);
    }

    /** Copies the label and pads it with zeros, byte by byte. */
    method WriteLabel(m: Message, ghost r: Ring)
      requires Valid() && Shaped(r) && State() == Stage(r, m, LABELLING)
      modifies entries
      ensures Valid() && State() == Stage(r, m, LABELLED)
    {
      var len := LabelLen(m);
      for i := 0 to LABEL_MAX
        invariant Valid() && State() == Stage(r, m, LABELLING + i)
      {
        var next := if i < len then m.text.value[i] else 0;
        entries[head] := entries[head].(text := entries[head].text[i := next]);
        StageSame(State(), r, m, LABELLING + i + 1);
      }
    }

    /** Numbers the entry, which publishes it, and moves the head past it. */
    method Publish(m: Message, ghost r: Ring)
      requires Valid() && Shaped(r) && State() == Stage(r, m, LABELLED)
      modifies this, entries
      ensures Valid() && State() == Stage(r, m, DONE)
    {
      var slot := head;
      seqNo := seqNo + 1;
      StageSame(State(), r, m, NUMBERED);
      entries[slot] := entries[slot].(seqNo := seqNo);
      StageSame(State(), r, m, PUBLISHED);
      head := Wrap(head + 1, entries.Length);
      StageSame(State(), r, m, MOVED);
      written := written + 1;
      StageSame(State(), r, m, DONE);
    }

    method Push(m: Message)
      requires Valid()
      modifies this, entries
      ensures Valid() && State() == Stage(old(State()), m, DONE)
      ensures State().entries[old(head)] == Complete(m, old(seqNo) + 1)
      ensures Describes(State().entries[old(head)], m, old(seqNo) + 1)
    {
      ghost var r := State();
      CompleteDescribes(m, seqNo + 1);
      WriteFields(m);
      WriteLabel(m, r);
      Publish(m, r);
      StageEnds(r, m);
    }

    /** Copies up to `max` of the most recent entries, oldest first, skipping any that is being written. */
    method Snapshot(max: nat) returns (dst: seq<Crumb>)
      requires Valid()
      ensures dst == SnapshotOf(State(), max)
    {
      dst := [];
      if max == 0 {
        return;
      }
      var count := Min(Min(written, entries.Length), max);
      ghost var window := Window(State(), count);
      for i := 0 to count
        invariant dst == Published(window[..i])
      {
        assert window[..i + 1][..i] == window[..i];
        var index := Wrap(head + entries.Length - count + i, entries.Length);
        var before := entries[index].seqNo;
        if before == 0 {
          continue;
        }
        var copy := entries[index];
        var after := entries[index].seqNo;
        if after != before {
          continue;
        }
        dst := dst + [copy];
      }
      assert window[..count] == window;
    }
  }

  /** Rings that agree field by field are at the same stage. */
  lemma StageSame(now: Ring, r: Ring, m: Message, stage: nat)
    requires Shaped(r) && Shaped(now) && |now.entries| == |r.entries|
    requires forall i :: 0 <= i < |r.entries| && i != r.head ==> now.entries[i] == r.entries[i]
    requires var e, s := now.entries[r.head], InFlight(r.entries[r.head], m, r.seqNo + 1, stage);
      && e.(text := s.text) == s
      && forall i :: 0 <= i < LABEL_MAX ==> e.text[i] == s.text[i]
    requires (now.head, now.seqNo, now.written)
      == (Stage(r, m, stage).head, Stage(r, m, stage).seqNo, Stage(r, m, stage).written)
    ensures now == Stage(r, m, stage)
  {
    assert now.entries[r.head].text == InFlight(r.entries[r.head], m, r.seqNo + 1, stage).text;
    assert now.entries == Stage(r, m, stage).entries;
  }

  method RoundPow2(value: nat) returns (result: nat)
    requires value <= 0x10_0000
    ensures PowerOfTwo(result) && 16 <= result && value <= result
    ensures result == 16 || result / 2 < value
  {
    result := 16;
    SixteenIsPower();
    while result < value && result < 0x10_0000
      invariant PowerOfTwo(result) && 16 <= result
      invariant result == 16 || result / 2 < value
      decreases value - result
    {
      DoubleIsPower(result);
      result := result * 2;
    }
  }
}
