/** The bytes of a crash sink: which records a scan finds in them. Integers are little-endian. */
module CrashRecords {
  import opened Common

  const MAGIC: nat := 0x43425843
  const FORMAT_VERSION: nat := 2
  const HEADER_LEN: nat := 8
  const RECORD_LEN: nat := 2160
  const DRAIN_MAX_BYTES: nat := 4 * 1024 * 1024

  // Where the fields a reader looks at lie within a record.
  const VERSION_AT: nat := 4
  const LENGTH_AT: nat := 6
  const CRUMB_COUNT_AT: nat := 20

  function U16(b: bytes, at: nat): nat
    requires at + 2 <= |b|
  {
    b[at] as nat + 0x100 * b[at + 1] as nat
  }

  function U32(b: bytes, at: nat): nat
    requires at + 4 <= |b|
  {
    b[at] as nat + 0x100 * b[at + 1] as nat + 0x1_0000 * b[at + 2] as nat + 0x100_0000 * b[at + 3] as nat
  }

  /** A record of this version, complete. */
  predicate Valid(b: bytes, at: nat)
    requires at + RECORD_LEN <= |b|
  {
    && U32(b, at) == MAGIC
    && U16(b, at + VERSION_AT) == FORMAT_VERSION
    && U16(b, at + LENGTH_AT) == RECORD_LEN
    && U32(b, at + CRUMB_COUNT_AT) <= CRASH_CRUMBS
  }

  /** A record this build cannot decode but can step over. */
  predicate Foreign(b: bytes, at: nat)
    requires at + HEADER_LEN <= |b|
  {
    && U32(b, at) == MAGIC
    && U16(b, at + VERSION_AT) != FORMAT_VERSION
    && HEADER_LEN <= U16(b, at + LENGTH_AT) <= |b| - at
  }

  /** What lies at an offset, with its bytes: a foreign record, a record of this version, or neither. */
  datatype Found = ForeignRecord(text: bytes) | WholeRecord(text: bytes) | Garbage

  function Look(b: bytes, at: nat): Found {
    if at + HEADER_LEN > |b| then Garbage
    else if Foreign(b, at) then ForeignRecord(b[at..at + U16(b, at + LENGTH_AT)])
    else if at + RECORD_LEN > |b| || !Valid(b, at) then Garbage
    else WholeRecord(b[at..at + RECORD_LEN])
  }

  type Looks = nat -> Found

  /** The view a scan has of a buffer. */
  function LooksOf(b: bytes): Looks {
    (at: nat) => Look(b, at)
  }

  /** Records lie inside the buffer, and stepping over one makes progress. */
  ghost predicate Sane(look: Looks, size: nat) {
    forall at: nat :: at + HEADER_LEN <= size ==>
      match look(at)
      case ForeignRecord(text) => HEADER_LEN <= |text| <= size - at
      case WholeRecord(text) => |text| == RECORD_LEN <= size - at
      case Garbage => true
  }

  lemma LooksAreSane(b: bytes)
    ensures Sane(LooksOf(b), |b|)
  {
  }

  // ------------------------------------------------------------------------ scanning

  /** The records, of this version or foreign, that a scan meets, and where. */
  datatype Meeting = Done | Meet(at: nat, found: Found, rest: Meeting)

  /** Everything a scan meets from an offset on, resynchronising byte by byte over garbage. */
  ghost function Met(look: Looks, size: nat, at: nat): Meeting
    requires Sane(look, size) && at <= size
    decreases size - at
  {
    if at + HEADER_LEN > size then Done
    else if look(at).Garbage? then Met(look, size, at + 1)
    else Meet(at, look(at), Met(look, size, at + |look(at).text|))
  }

  ghost function MetIn(b: bytes): Meeting {
    LooksAreSane(b);
    Met(LooksOf(b), |b|, 0)
  }

  function Records(m: Meeting): seq<bytes> {
    match m
    case Done => []
    case Meet(_, WholeRecord(text), rest) => [text] + Records(rest)
    case Meet(_, _, rest) => Records(rest)
  }

  function Foreigns(m: Meeting): seq<bytes> {
    match m
    case Done => []
    case Meet(_, ForeignRecord(text), rest) => [text] + Foreigns(rest)
    case Meet(_, _, rest) => Foreigns(rest)
  }

  /** The part of a scan that a budget allows: it ends with the record that exhausts it. */
  function Within(m: Meeting, budget: nat): Meeting {
    match m
    case Done => Done
    case Meet(at, found, rest) =>
      if budget == 0 then Done
      else Meet(at, found, Within(rest, if found.WholeRecord? then budget - 1 else budget))
  }

  /** Where the last record met ends; `before` if there is none. */
  function LastEnd(m: Meeting, before: nat): nat {
    match m
    case Done => before
    case Meet(at, WholeRecord(text), rest) => LastEnd(rest, at + |text|)
    case Meet(_, _, rest) => LastEnd(rest, before)
  }

  /** Everything met is genuine, in increasing order and without overlap. */
  ghost predicate Ordered(look: Looks, m: Meeting, from: nat, size: nat) {
    match m
    case Done => from <= size
    case Meet(at, found, rest) =>
      && from <= at && found == look(at) && !found.Garbage?
      && Ordered(look, rest, at + |found.text|, size)
  }

  lemma {:induction false} MetInOrder(look: Looks, size: nat, from: nat, at: nat)
    requires Sane(look, size) && from <= at <= size
    ensures Ordered(look, Met(look, size, at), from, size)
    decreases size - at
  {
    if at + HEADER_LEN <= size {
      if look(at).Garbage? {
        MetInOrder(look, size, from, at + 1);
      } else {
        MetInOrder(look, size, at + |look(at).text|, at + |look(at).text|);
      }
    }
  }

  /** With a record among what was met, where the scan started does not matter to where that ends. */
  lemma {:induction false} EndBefore(look: Looks, size: nat, at: nat, budget: nat, before: nat)
    requires Sane(look, size) && before <= at <= size
    ensures var cut := Within(Met(look, size, at), budget);
      && before <= LastEnd(cut, before) <= size
      && (Records(cut) != [] ==> LastEnd(cut, before) == LastEnd(cut, at))
    decreases size - at
  {
    if at + HEADER_LEN <= size && budget > 0 {
      if look(at).Garbage? {
        EndBefore(look, size, at + 1, budget, before);
        EndBefore(look, size, at + 1, budget, at);
      } else {
        var next := at + |look(at).text|;
        if look(at).WholeRecord? {
          EndBefore(look, size, next, budget - 1, next);
        } else {
          EndBefore(look, size, next, budget, before);
          EndBefore(look, size, next, budget, at);
        }
      }
    }
  }

  /** What a budget leaves for the next scan. */
  function Beyond(m: Meeting, budget: nat): Meeting {
    match m
    case Done => Done
    case Meet(_, found, rest) =>
      if budget == 0 then m else Beyond(rest, if found.WholeRecord? then budget - 1 else budget)
  }

  lemma {:induction false} BudgetSplits(m: Meeting, budget: nat)
    ensures var cut, rest := Within(m, budget), Beyond(m, budget);
      && Records(m) == Records(cut) + Records(rest) && Foreigns(m) == Foreigns(cut) + Foreigns(rest)
      && |Records(cut)| <= budget && (|Records(cut)| < budget ==> cut == m)
  {
    match m
    case Done =>
    case Meet(_, found, rest) =>
      if budget > 0 {
        BudgetSplits(rest, if found.WholeRecord? then budget - 1 else budget);
      }
  }

  /** A budget that runs out leaves exactly what a scan from the end of its last record meets. */
  lemma {:induction false} BeyondIsMet(look: Looks, size: nat, at: nat, budget: nat)
    requires Sane(look, size) && at <= size && budget > 0
    requires |Records(Within(Met(look, size, at), budget))| == budget
    ensures var end := LastEnd(Within(Met(look, size, at), budget), at);
      at <= end <= size && Beyond(Met(look, size, at), budget) == Met(look, size, end)
    decreases size - at
  {
    if at + HEADER_LEN <= size {
      if look(at).Garbage? {
        BeyondIsMet(look, size, at + 1, budget);
        EndBefore(look, size, at + 1, budget, at);
      } else {
        var next := at + |look(at).text|;
        if look(at).ForeignRecord? {
          BeyondIsMet(look, size, next, budget);
          EndBefore(look, size, next, budget, at);
        } else if budget > 1 {
          BeyondIsMet(look, size, next, budget - 1);
        }
      }
    }
  }

  /** A scan that its budget cut short, and the scan from where its last record ends, meet all there is; any other scan is complete. */
  lemma BudgetSplitsScan(look: Looks, size: nat, at: nat, budget: nat)
    requires Sane(look, size) && at <= size && budget > 0
    ensures var all, cut := Met(look, size, at), Within(Met(look, size, at), budget);
      && |Records(cut)| <= budget
      && at <= LastEnd(cut, at) <= size
      && (if |Records(cut)| < budget then cut == all
          else
            && Records(all) == Records(cut) + Records(Met(look, size, LastEnd(cut, at)))
            && Foreigns(all) == Foreigns(cut) + Foreigns(Met(look, size, LastEnd(cut, at))))
  {
    BudgetSplits(Met(look, size, at), budget);
    EndBefore(look, size, at, budget, at);
    if |Records(Within(Met(look, size, at), budget))| == budget {
      BeyondIsMet(look, size, at, budget);
    }
  }

  /** The same meetings, `c` bytes further on. */
  function Shifted(m: Meeting, c: nat): Meeting {
    match m
    case Done => Done
    case Meet(at, found, rest) => Meet(c + at, found, Shifted(rest, c))
  }

  lemma {:induction false} ShiftKeeps(m: Meeting, c: nat, budget: nat, before: nat)
    ensures Records(Shifted(m, c)) == Records(m) && Foreigns(Shifted(m, c)) == Foreigns(m)
    ensures Within(Shifted(m, c), budget) == Shifted(Within(m, budget), c)
    ensures LastEnd(Shifted(m, c), c + before) == c + LastEnd(m, before)
  {
    match m
    case Done =>
    case Meet(at, WholeRecord(text), rest) =>
      ShiftKeeps(rest, c, if budget > 0 then budget - 1 else 0, at + |text|);
    case Meet(at, _, rest) => ShiftKeeps(rest, c, budget, before);
  }

  /** Views that agree beyond an offset meet the same from there. */
  lemma {:induction false} MetAgrees(look: Looks, size: nat, look': Looks, size': nat, c: nat, at: nat)
    requires Sane(look, size) && Sane(look', size') && size == c + size' && at <= size'
    requires forall i: nat :: i + HEADER_LEN <= size' ==> look'(i) == look(c + i)
    ensures Met(look, size, c + at) == Shifted(Met(look', size', at), c)
    decreases size' - at
  {
    if at + HEADER_LEN <= size' {
      if look'(at).Garbage? {
        MetAgrees(look, size, look', size', c, at + 1);
      } else {
        MetAgrees(look, size, look', size', c, at + |look'(at).text|);
      }
    }
  }

  lemma SameSlice(b: bytes, c: nat, at: nat, n: nat)
    requires c + at + n <= |b|
    ensures b[c..][at..at + n] == b[c + at..c + at + n]
  {
  }

  lemma SameNumbers(b: bytes, c: nat, at: nat)
    requires c <= |b|
    ensures c + at + 2 <= |b| ==> U16(b[c..], at) == U16(b, c + at)
    ensures c + at + 4 <= |b| ==> U32(b[c..], at) == U32(b, c + at)
  {
    var d := b[c..];
    assert forall k :: at <= k < at + 4 && c + k < |b| ==> d[k] == b[c + k];
  }

  /** What is found at an offset does not depend on what comes before it. */
  lemma SameFrom(b: bytes, c: nat, at: nat)
    requires c <= |b| && at + HEADER_LEN <= |b| - c
    ensures Look(b[c..], at) == Look(b, c + at)
  {
    SameNumbers(b, c, at);
    SameNumbers(b, c, at + VERSION_AT);
    SameNumbers(b, c, at + LENGTH_AT);
    SameNumbers(b, c, at + CRUMB_COUNT_AT);
    if Foreign(b, c + at) {
      SameSlice(b, c, at, U16(b, c + at + LENGTH_AT));
    } else if c + at + RECORD_LEN <= |b| {
      SameSlice(b, c, at, RECORD_LEN);
    }
  }

  lemma LookShifts(b: bytes, c: nat, i: nat)
    requires c <= |b| && i + HEADER_LEN <= |b| - c
    ensures LooksOf(b[c..])(i) == LooksOf(b)(c + i)
  {
    SameFrom(b, c, i);
  }

  lemma LooksShift(b: bytes, c: nat)
    requires c <= |b|
    ensures forall i: nat :: i + HEADER_LEN <= |b| - c ==> LooksOf(b[c..])(i) == LooksOf(b)(c + i)
  {
    forall i: nat | i + HEADER_LEN <= |b| - c
      ensures LooksOf(b[c..])(i) == LooksOf(b)(c + i)
    {
      LookShifts(b, c, i);
    }
  }

  /** Scanning what is left of a file meets what the scan of the whole meets from there. */
  lemma MetInRest(b: bytes, c: nat)
    requires c <= |b| && Sane(LooksOf(b), |b|)
    ensures Met(LooksOf(b), |b|, c) == Shifted(MetIn(b[c..]), c)
  {
    hide Look, Met, Shifted;
    LooksAreSane(b[c..]);
    LooksShift(b, c);
    MetAgrees(LooksOf(b), |b|, LooksOf(b[c..]), |b[c..]|, c, 0);
  }

  // ------------------------------------------------------- sinks of whole records

  /** What one crash writes. */
  predicate IsRecord(r: bytes) {
    |r| == RECORD_LEN && Valid(r, 0)
  }

  ghost predicate AreRecords(records: seq<bytes>) {
    forall i :: 0 <= i < |records| ==> |records[i]| == RECORD_LEN && IsRecord(records[i])
  }

  /** A sink of records written one after the other. */
  function Sink(records: seq<bytes>): bytes {
    if records == [] then [] else records[0] + Sink(records[1..])
  }

  lemma RecordIsMet(r: bytes, rest: bytes)
    requires IsRecord(r)
    ensures Look(r + rest, 0) == WholeRecord(r)
  {
    var b := r + rest;
    assert forall k :: 0 <= k < 24 ==> b[k] == r[k];
    assert b[0] == r[0] && b[1] == r[1] && b[2] == r[2] && b[3] == r[3] && b[4] == r[4] && b[5] == r[5];
    assert b[6] == r[6] && b[7] == r[7] && b[20] == r[20] && b[21] == r[21] && b[22] == r[22] && b[23] == r[23];
    assert b[0..RECORD_LEN] == r;
  }

  lemma MetAfterRecord(r: bytes, rest: bytes)
    requires IsRecord(r)
    ensures MetIn(r + rest) == Meet(0, WholeRecord(r), Shifted(MetIn(rest), RECORD_LEN))
  {
    var b := r + rest;
    assert b[RECORD_LEN..] == rest;
    RecordIsMet(r, rest);
    LooksAreSane(b);
    MetInRest(b, RECORD_LEN);
  }

  /** What a scan hands over, what it steps over, and where the last record handed over ends. */
  datatype Handover = Handover(records: seq<bytes>, foreign: seq<bytes>, end: nat)

  function HandoverOf(m: Meeting): Handover {
    Handover(Records(m), Foreigns(m), LastEnd(m, 0))
  }

  lemma WithinAfterRecord(r: bytes, rest: bytes, budget: nat)
    requires IsRecord(r) && budget > 0
    ensures var sub := HandoverOf(Within(MetIn(rest), budget - 1));
      HandoverOf(Within(MetIn(r + rest), budget)) == Handover([r] + sub.records, sub.foreign, RECORD_LEN + sub.end)
  {
    MetAfterRecord(r, rest);
    ShiftKeeps(MetIn(rest), RECORD_LEN, budget - 1, 0);
    ShiftKeeps(Within(MetIn(rest), budget - 1), RECORD_LEN, 0, 0);
  }

  lemma NothingWithin(m: Meeting)
    ensures HandoverOf(Within(m, 0)) == Handover([], [], 0)
  {
  }

  lemma NothingInNoBytes(budget: nat)
    ensures HandoverOf(Within(MetIn([]), budget)) == Handover([], [], 0)
  {
  }

  /** What a scan of these bytes hands over within a budget. */
  ghost function Handed(b: bytes, budget: nat): Handover {
    HandoverOf(Within(MetIn(b), budget))
  }

  lemma FirstRecordIsMet(records: seq<bytes>, tail: bytes, budget: nat)
    requires records != [] && IsRecord(records[0]) && budget > 0
    ensures var sub := Handed(Sink(records[1..]) + tail, budget - 1);
      Handed(Sink(records) + tail, budget) == Handover([records[0]] + sub.records, sub.foreign, RECORD_LEN + sub.end)
  {
    var rest := Sink(records[1..]) + tail;
    assert Sink(records) + tail == records[0] + rest;
    WithinAfterRecord(records[0], rest, budget);
  }

  lemma NoRecordIsMet(records: seq<bytes>, tail: bytes, budget: nat)
    requires budget == 0 || (records == [] && tail == [])
    ensures Handed(Sink(records) + tail, budget) == Handover([], [], 0)
  {
    if budget == 0 {
      NothingWithin(MetIn(Sink(records) + tail));
    } else {
      assert Sink(records) + tail == [];
      NothingInNoBytes(budget);
    }
  }

  lemma OneMoreIsMet(records: seq<bytes>, tail: bytes, budget: nat, k: nat)
    requires records != [] && IsRecord(records[0]) && budget > 0 && k < |records|
    requires Handed(Sink(records[1..]) + tail, budget - 1) == Handover(records[1..][..k], [], k * RECORD_LEN)
    ensures Handed(Sink(records) + tail, budget) == Handover(records[..k + 1], [], (k + 1) * RECORD_LEN)
  {
    FirstRecordIsMet(records, tail, budget);
    assert records[..k + 1] == [records[0]] + records[1..][..k];
  }

  /** A scan of whole records hands over the first of them, as far as the budget goes, and nothing else. */
  lemma {:induction false} SinkIsMet(records: seq<bytes>, tail: bytes, budget: nat)
    requires AreRecords(records)
    requires budget <= |records| || tail == []
    ensures var k := Min(budget, |records|);
      Handed(Sink(records) + tail, budget) == Handover(records[..k], [], k * RECORD_LEN)
  {
    if budget == 0 || records == [] {
      NoRecordIsMet(records, tail, budget);
    } else {
      SinkIsMet(records[1..], tail, budget - 1);
      OneMoreIsMet(records, tail, budget, Min(budget - 1, |records| - 1));
    }
  }
}
