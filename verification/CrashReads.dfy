/** Scanning the front of a sink that a read gave: what the scan of the whole would have met there, and what it would not. */
module CrashReads {
  import opened Common
  import opened CrashRecords
  import opened CrashCompaction

  lemma {:induction false} NoRecordsWithin(m: Meeting, budget: nat, before: nat)
    requires Records(m) == []
    ensures Records(Within(m, budget)) == [] && LastEnd(Within(m, budget), before) == before == LastEnd(m, before)
  {
    match m
    case Done =>
    case Meet(_, _, rest) => NoRecordsWithin(rest, budget, before);
  }

  /** Fewer bytes than a record holds are no record, whatever foreign headers they may mimic. */
  lemma NoRecordInPart(b: bytes, budget: nat)
    requires |b| < RECORD_LEN
    ensures Handed(b, budget).records == [] && Handed(b, budget).end == 0
  {
    RecordsFitIn(b);
    NoRecordsWithin(MetIn(b), budget, 0);
  }

  lemma {:induction false} RecordsEndLate(look: Looks, size: nat, at: nat, budget: nat, before: nat)
    requires Sane(look, size) && before <= at <= size
    ensures var cut := Within(Met(look, size, at), budget);
      Records(cut) != [] ==> LastEnd(cut, before) >= RECORD_LEN
    decreases size - at
  {
    if at + HEADER_LEN <= size && budget > 0 {
      if look(at).Garbage? {
        RecordsEndLate(look, size, at + 1, budget, before);
      } else if look(at).WholeRecord? {
        EndBefore(look, size, at + RECORD_LEN, budget - 1, at + RECORD_LEN);
      } else {
        RecordsEndLate(look, size, at + |look(at).text|, budget, before);
      }
    }
  }

  /** One list of meetings after another. */
  function Then(a: Meeting, b: Meeting): Meeting {
    match a
    case Done => b
    case Meet(at, found, rest) => Meet(at, found, Then(rest, b))
  }

  lemma {:induction false} ThenJoins(a: Meeting, b: Meeting, before: nat)
    ensures Records(Then(a, b)) == Records(a) + Records(b) && Foreigns(Then(a, b)) == Foreigns(a) + Foreigns(b)
    ensures LastEnd(Then(a, b), before) == LastEnd(b, LastEnd(a, before))
  {
    match a
    case Done =>
    case Meet(at, WholeRecord(text), rest) => ThenJoins(rest, b, at + |text|);
    case Meet(at, _, rest) => ThenJoins(rest, b, before);
  }

  lemma {:induction false} WithinThen(a: Meeting, b: Meeting, budget: nat)
    ensures |Records(Within(a, budget))| <= budget
    ensures Within(Then(a, b), budget) == Then(Within(a, budget), Within(b, budget - |Records(Within(a, budget))|))
  {
    match a
    case Done =>
    case Meet(_, found, rest) =>
      if budget > 0 {
        WithinThen(rest, b, if found.WholeRecord? then budget - 1 else budget);
      } else {
        NothingWithin(b);
      }
  }

  /** The meetings of a scan up to the first that ends past `got`. */
  function Inside(m: Meeting, got: nat): Meeting {
    match m
    case Done => Done
    case Meet(at, found, rest) =>
      if !found.Garbage? && at + |found.text| <= got then Meet(at, found, Inside(rest, got)) else Done
  }

  /** The meetings from the first that ends past `got`. */
  function Outside(m: Meeting, got: nat): Meeting {
    match m
    case Done => Done
    case Meet(at, found, rest) =>
      if !found.Garbage? && at + |found.text| <= got then Outside(rest, got) else m
  }

  /** The scan of the whole meets something that begins before `got` and ends past it. */
  predicate Straddles(m: Meeting, got: nat) {
    var o := Outside(m, got);
    o.Meet? && o.at < got
  }

  /** What begins in the part that was read shows there only if it also ends there. */
  lemma LookOnPart(b: bytes, got: nat, at: nat)
    requires got <= |b| && at + HEADER_LEN <= got
    ensures Look(b[..got], at)
      == if !Look(b, at).Garbage? && at + |Look(b, at).text| <= got then Look(b, at) else Garbage
  {
    var part := b[..got];
    assert forall k :: 0 <= k < got ==> part[k] == b[k];
    if Look(b, at).ForeignRecord? && at + |Look(b, at).text| <= got {
      assert part[at..at + U16(b, at + LENGTH_AT)] == b[at..at + U16(b, at + LENGTH_AT)];
    } else if at + RECORD_LEN <= got {
      assert part[at..at + RECORD_LEN] == b[at..at + RECORD_LEN];
    }
  }

  lemma {:induction false} FirstMet(look: Looks, size: nat, at: nat)
    requires Sane(look, size) && at <= size
    ensures var m := Met(look, size, at);
      m.Meet? ==> at <= m.at && !m.found.Garbage? && |m.found.text| >= HEADER_LEN && m.at + |m.found.text| <= size
    decreases size - at
  {
    if at + HEADER_LEN <= size && look(at).Garbage? {
      FirstMet(look, size, at + 1);
    }
  }

  /** The view of the part: what ends past `got` is garbage. */
  ghost predicate Clipped(look: Looks, part: Looks, got: nat) {
    forall at: nat :: at + HEADER_LEN <= got ==>
      part(at) == if !look(at).Garbage? && at + |look(at).text| <= got then look(at) else Garbage
  }

  /** Up to what straddles the end, the scan of the part meets what the scan of the whole meets. */
  lemma {:induction false} PartSplits(look: Looks, size: nat, part: Looks, got: nat, at: nat)
    requires Sane(look, size) && Sane(part, got) && at <= got <= size && Clipped(look, part, got)
    ensures var m := Met(look, size, at);
      Met(part, got, at) == Then(Inside(m, got), if Straddles(m, got) then Met(part, got, Outside(m, got).at) else Done)
    decreases got - at
  {
    FirstMet(look, size, at);
    if at + HEADER_LEN <= got {
      if look(at).Garbage? {
        PartSplits(look, size, part, got, at + 1);
      } else if at + |look(at).text| <= got {
        PartSplits(look, size, part, got, at + |look(at).text|);
      }
    }
  }

  lemma PartIsClipped(b: bytes, got: nat)
    requires got <= |b|
    ensures Clipped(LooksOf(b), LooksOf(b[..got]), got)
  {
    forall at: nat | at + HEADER_LEN <= got
      ensures LooksOf(b[..got])(at)
        == if !LooksOf(b)(at).Garbage? && at + |LooksOf(b)(at).text| <= got then LooksOf(b)(at) else Garbage
    {
      LookOnPart(b, got, at);
    }
  }

  /** What a scan of the part meets from where something straddles its end. */
  ghost function MetAcross(b: bytes, got: nat): Meeting
    requires got <= |b|
  {
    var o := Outside(MetIn(b), got);
    if Straddles(MetIn(b), got) then Shifted(MetIn(b[o.at..got]), o.at) else Done
  }

  /** The scan of a part of some bytes: what the whole scan meets inside it, then what there is past a start cut off. */
  lemma ReadSplits(b: bytes, got: nat)
    requires got <= |b|
    ensures MetIn(b[..got]) == Then(Inside(MetIn(b), got), MetAcross(b, got))
  {
    hide Look, Met, Clipped, Shifted, Then, Inside;
    LooksAreSane(b);
    LooksAreSane(b[..got]);
    PartIsClipped(b, got);
    PartSplits(LooksOf(b), |b|, LooksOf(b[..got]), got, 0);
    if Straddles(MetIn(b), got) {
      var c := Outside(MetIn(b), got).at;
      MetInRest(b[..got], c);
      assert b[..got][c..] == b[c..got];
    }
  }

  /** The records and foreign records of the whole scan that lie in the part, as far as the budget goes. */
  ghost function Front(b: bytes, got: nat, budget: nat): Meeting {
    Within(Inside(MetIn(b), got), budget)
  }

  /** What the scan of the part hands over from a start cut off on, with the budget left by then. */
  ghost function Across(b: bytes, got: nat, budget: nat): Meeting
    requires got <= |b|
  {
    WithinThen(Inside(MetIn(b), got), Done, budget);
    Within(MetAcross(b, got), budget - |Records(Front(b, got, budget))|)
  }

  lemma HandedSplits(b: bytes, got: nat, budget: nat)
    requires got <= |b|
    ensures var h, front, across := Handed(b[..got], budget), Front(b, got, budget), Across(b, got, budget);
      && h.records == Records(front) + Records(across)
      && h.foreign == Foreigns(front) + Foreigns(across)
      && h.end == LastEnd(across, LastEnd(front, 0))
  {
    hide MetIn, Then, Inside, MetAcross;
    ReadSplits(b, got);
    WithinThen(Inside(MetIn(b), got), Done, budget);
    WithinThen(Inside(MetIn(b), got), MetAcross(b, got), budget);
    ThenJoins(Front(b, got, budget), Across(b, got, budget), 0);
  }

  lemma {:induction false} LastEndWithRecords(m: Meeting, p: nat, q: nat)
    requires Records(m) != []
    ensures LastEnd(m, p) == LastEnd(m, q)
  {
    match m
    case Meet(_, WholeRecord(_), _) =>
    case Meet(_, _, rest) => LastEndWithRecords(rest, p, q);
  }

  lemma {:induction false} OutsideMet(look: Looks, size: nat, at: nat, got: nat)
    requires Sane(look, size) && at <= size
    ensures var o := Outside(Met(look, size, at), got);
      o.Meet? ==> !o.found.Garbage? && got < o.at + |o.found.text| <= size && (o.found.WholeRecord? ==> |o.found.text| == RECORD_LEN)
    decreases size - at
  {
    if at + HEADER_LEN <= size {
      if look(at).Garbage? {
        OutsideMet(look, size, at + 1, got);
      } else if at + |look(at).text| <= got {
        OutsideMet(look, size, at + |look(at).text|, got);
      }
    }
  }

  /** What the scan of the part does past a start cut off, in terms of the bytes there. */
  lemma AcrossIsTail(b: bytes, got: nat, budget: nat)
    requires got <= |b| && Straddles(MetIn(b), got)
    ensures |Records(Front(b, got, budget))| <= budget
    ensures var o, across := Outside(MetIn(b), got), Across(b, got, budget);
      var t := Handed(b[o.at..got], budget - |Records(Front(b, got, budget))|);
      && Records(across) == t.records && Foreigns(across) == t.foreign
      && (t.records != [] ==> forall before :: LastEnd(across, before) >= o.at + RECORD_LEN)
  {
    hide Met, Look, Inside;
    var c := Outside(MetIn(b), got).at;
    var tail := b[c..got];
    WithinThen(Inside(MetIn(b), got), Done, budget);
    var left := budget - |Records(Front(b, got, budget))|;
    var cut := Within(MetIn(tail), left);
    ShiftKeeps(MetIn(tail), c, left, 0);
    ShiftKeeps(cut, c, 0, 0);
    if Records(cut) != [] {
      LooksAreSane(tail);
      RecordsEndLate(LooksOf(tail), |tail|, 0, left, 0);
      forall before: nat
        ensures LastEnd(Shifted(cut, c), before) >= c + RECORD_LEN
      {
        LastEndWithRecords(Shifted(cut, c), before, c);
      }
    }
  }

  lemma NothingAcross(b: bytes, got: nat, budget: nat)
    requires got <= |b|
    ensures !Straddles(MetIn(b), got) ==> Records(Across(b, got, budget)) == []
  {
    hide MetIn;
  }

  lemma StraddlingRecord(b: bytes, got: nat)
    requires got <= |b| && Straddles(MetIn(b), got) && !Outside(MetIn(b), got).found.ForeignRecord?
    ensures got - Outside(MetIn(b), got).at < RECORD_LEN
  {
    hide Look, Met;
    LooksAreSane(b);
    OutsideMet(LooksOf(b), |b|, 0, got);
  }

  /** The cut-off front of a record holds no record. */
  lemma NoRecordAcross(b: bytes, got: nat, budget: nat)
    requires got <= |b| && Straddles(MetIn(b), got) && !Outside(MetIn(b), got).found.ForeignRecord?
    ensures Records(Across(b, got, budget)) == []
  {
    hide MetIn, Across, Handed;
    StraddlingRecord(b, got);
    AcrossIsTail(b, got, budget);
    NoRecordInPart(b[Outside(MetIn(b), got).at..got], budget - |Records(Front(b, got, budget))|);
  }

  /**
   A foreign record is cut off where the read ends, none lies whole before it, and the scan, coming to it
   with budget left, takes a record out of what the read gave of it and meets nothing foreign there.
   */
  ghost predicate ForeignCut(b: bytes, got: nat, budget: nat)
    requires got <= |b|
  {
    var m := MetIn(b);
    var o, inside := Outside(m, got), Inside(m, got);
    && Straddles(m, got) && o.found.ForeignRecord? && Foreigns(inside) == [] && |Records(inside)| < budget
    && var t := Handed(b[o.at..got], budget - |Records(inside)|);
       t.records != [] && t.foreign == []
  }

  lemma NothingCut(b: bytes, got: nat, budget: nat)
    requires got <= |b| && (got == |b| || Foreigns(MetIn(b)) == [])
    ensures !ForeignCut(b, got, budget)
  {
    hide Look, Met, Inside;
    var o := Outside(MetIn(b), got);
    LooksAreSane(b);
    OutsideMet(LooksOf(b), |b|, 0, got);
    if o.Meet? && o.found.ForeignRecord? && Foreigns(MetIn(b)) == [] {
      OutsideIsMet(MetIn(b), got, o.at + 1);
      ForeignBeforeIsMet(MetIn(b), o.at + 1);
    }
  }

  /** Nothing else makes a scan of the part take a record that the scan of the whole does not meet. */
  lemma AcrossOnlyForeign(b: bytes, got: nat, budget: nat)
    requires got <= |b| && Handed(b[..got], budget).foreign == [] && Records(Across(b, got, budget)) != []
    ensures ForeignCut(b, got, budget)
  {
    HandedSplits(b, got, budget);
    NothingAcross(b, got, budget);
    if !Outside(MetIn(b), got).found.ForeignRecord? {
      NoRecordAcross(b, got, budget);
    }
    AcrossIsTail(b, got, budget);
    BudgetSplits(Inside(MetIn(b), got), budget);
    if |Records(Front(b, got, budget))| == budget {
      NothingWithin(MetAcross(b, got));
    }
  }

  lemma ForeignCutHandsOver(b: bytes, got: nat, budget: nat)
    requires got <= |b| && ForeignCut(b, got, budget)
    ensures var h := Handed(b[..got], budget);
      h.records != [] && h.foreign == [] && h.end > Outside(MetIn(b), got).at
  {
    HandedSplits(b, got, budget);
    BudgetSplits(Inside(MetIn(b), got), budget);
    AcrossIsTail(b, got, budget);
  }

  // ----------------------------------------------------- what ends with the records handed over

  /** A foreign record met begins before `end`. */
  predicate ForeignBefore(m: Meeting, end: nat) {
    match m
    case Done => false
    case Meet(at, found, rest) => (found.ForeignRecord? && at < end) || ForeignBefore(rest, end)
  }

  lemma {:induction false} ForeignBeforeIsMet(m: Meeting, end: nat)
    ensures Foreigns(m) == [] ==> !ForeignBefore(m, end)
  {
    match m
    case Done =>
    case Meet(_, _, rest) => ForeignBeforeIsMet(rest, end);
  }

  lemma {:induction false} NoneBeforeStart(look: Looks, m: Meeting, from: nat, size: nat, end: nat)
    requires Ordered(look, m, from, size) && end <= from
    ensures !ForeignBefore(m, end)
  {
    match m
    case Done =>
    case Meet(at, found, rest) => NoneBeforeStart(look, rest, at + |found.text|, size, end);
  }

  /** If a budget's records come without a foreign one, none begins before the end of the last of them. */
  lemma {:induction false} NoneBeforeEnd(look: Looks, m: Meeting, from: nat, size: nat, k: nat, before: nat)
    requires Ordered(look, m, from, size) && before <= from && Foreigns(Within(m, k)) == []
    ensures !ForeignBefore(m, LastEnd(Within(m, k), before))
  {
    match m
    case Done =>
    case Meet(at, found, rest) =>
      if k == 0 {
        NoneBeforeStart(look, m, from, size, before);
      } else {
        NoneBeforeEnd(look, rest, at + |found.text|, size, k - 1, at + |found.text|);
      }
  }

  /** As many records of the whole scan as a budget takes of the part are the same ones. */
  lemma {:induction false} WithinAsMany(m: Meeting, got: nat, budget: nat, before: nat)
    requires Foreigns(Within(Inside(m, got), budget)) == []
    ensures var front := Within(Inside(m, got), budget);
      var same := Within(m, |Records(front)|);
      Records(same) == Records(front) && Foreigns(same) == [] && LastEnd(same, before) == LastEnd(front, before)
  {
    match m
    case Done =>
    case Meet(at, found, rest) =>
      if budget > 0 && found.WholeRecord? && at + |found.text| <= got {
        WithinAsMany(rest, got, budget - 1, at + |found.text|);
      }
  }

  lemma {:induction false} OutsideIsMet(m: Meeting, got: nat, end: nat)
    requires var o := Outside(m, got); o.Meet? && o.found.ForeignRecord? && o.at < end
    ensures ForeignBefore(m, end)
  {
    match m
    case Meet(at, found, rest) =>
      if !found.Garbage? && at + |found.text| <= got {
        OutsideIsMet(rest, got, end);
      }
  }

  lemma FrontIsFirst(b: bytes, got: nat, budget: nat)
    requires Foreigns(Front(b, got, budget)) == []
    ensures var front := Front(b, got, budget);
      && Handed(b, |Records(front)|) == Handover(Records(front), [], LastEnd(front, 0))
      && !ForeignBefore(MetIn(b), LastEnd(front, 0))
  {
    hide Look, Met, Inside, Ordered;
    WithinAsMany(MetIn(b), got, budget, 0);
    LooksAreSane(b);
    MetInOrder(LooksOf(b), |b|, 0, 0);
    NoneBeforeEnd(LooksOf(b), MetIn(b), 0, |b|, |Records(Front(b, got, budget))|, 0);
  }

  /**
   A scan of the part that met nothing foreign hands over the first records of the whole, and none that is
   foreign begins before their end, unless a record was taken out of a foreign one cut off.
   */
  lemma PartHandsFirst(b: bytes, got: nat, budget: nat)
    requires got <= |b| && !ForeignCut(b, got, budget)
    ensures var h := Handed(b[..got], budget);
      && (h.foreign == [] ==> Handed(b, |h.records|) == h && !ForeignBefore(MetIn(b), h.end))
  {
    hide Look, Met, Inside, Ordered, Handed;
    var h := Handed(b[..got], budget);
    if h.foreign == [] {
      HandedSplits(b, got, budget);
      if Records(Across(b, got, budget)) != [] {
        AcrossOnlyForeign(b, got, budget);
      }
      NoRecordsWithin(Across(b, got, budget), 0, LastEnd(Front(b, got, budget), 0));
      FrontIsFirst(b, got, budget);
    }
  }
}
