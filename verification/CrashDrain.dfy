/** Draining the sinks of dead processes: reading, handing over, removing or compacting. */
module CrashDrain {
  import opened Common
  import opened CrashRecords
  import opened CrashCompaction
  import opened CrashReads

  /**
   The environment of draining one file: whether it opens, is ours and can be buffered; how many
   bytes the read gives at most (none if it fails); and how a compaction goes.
   */
  datatype SinkIo = SinkIo(opens: bool, readLimit: nat, compact: CompactIo)

  /** What reading one sink came to: -1 or the number visited, and what may be dropped. */
  datatype FileDrain = FileDrain(found: int, records: seq<bytes>, consumable: bool, consumed: nat)

  const UNREAD: FileDrain := FileDrain(-1, [], false, 0)

  function ReadLength(content: bytes, io: SinkIo): (got: nat)
    ensures got <= |content|
  {
    Min(io.readLimit, Min(|content|, DRAIN_MAX_BYTES))
  }

  /** Draining one file with a budget, in terms of what its bytes hold. */
  ghost function DrainedFile(content: bytes, budget: nat, io: SinkIo): FileDrain {
    var got := ReadLength(content, io);
    if !io.opens then UNREAD
    else if content == [] then FileDrain(0, [], true, 0)
    else if got == 0 then UNREAD
    else
      var h := Handed(content[..got], budget);
      var readAll := |h.records| < budget || h.end + HEADER_LEN > got;
      FileDrain(|h.records|, h.records, h.foreign == [] && got == |content| && readAll,
                if h.foreign == [] then h.end else 0)
  }

  /** What becomes of the file. */
  ghost function FileAfter(content: bytes, d: FileDrain, io: SinkIo): Option<bytes>
    requires d.consumed <= |content|
  {
    if d.found >= 0 && d.consumable then None
    else if d.found >= 0 && d.consumed > 0 then
      Some(Left(content, d.consumed, EndingOf(|content|, d.consumed, io.compact)))
    else Some(content)
  }

  lemma ConsumedIsInside(content: bytes, budget: nat, io: SinkIo)
    ensures DrainedFile(content, budget, io).consumed <= |content|
    ensures |DrainedFile(content, budget, io).records| <= budget
  {
    var buffer := content[..ReadLength(content, io)];
    LooksAreSane(buffer);
    EndBefore(LooksOf(buffer), |buffer|, 0, budget, 0);
    WithinBudget(MetIn(buffer), budget);
  }

  lemma {:induction false} WithinBudget(m: Meeting, budget: nat)
    ensures |Records(Within(m, budget))| <= budget
  {
    match m
    case Done =>
    case Meet(_, WholeRecord(_), rest) =>
      if budget > 0 {
        WithinBudget(rest, budget - 1);
      }
    case Meet(_, _, rest) => WithinBudget(rest, budget);
  }

  /** Takes the records, and says whether it wants more until its patience runs out. */
  class Visitor {
    const patience: nat
    var received: seq<bytes>

    constructor (patience: nat)
      ensures this.patience == patience && received == []
    {
      this.patience := patience;
      received := [];
    }

    method Visit(record: bytes) returns (goOn: bool)
      modifies this
      ensures received == old(received) + [record] && goOn == (|received| < patience)
    {
      received := received + [record];
      goOn := |received| < patience;
    }
  }

  /** A scan under way: what it has handed over and stepped over, where it is, and what is left of the budget. */
  datatype Cursor = Cursor(records: seq<bytes>, foreign: seq<bytes>, end: nat, at: nat, left: nat)

  /** The scan so far, with the scan of the rest put after it. */
  ghost predicate Continues(h: Handover, b: bytes, c: Cursor)
    requires c.at <= |b|
  {
    LooksAreSane(b);
    var rest := Within(Met(LooksOf(b), |b|, c.at), c.left);
    && h.records == c.records + Records(rest)
    && h.foreign == c.foreign + Foreigns(rest)
    && h.end == LastEnd(rest, c.end)
  }

  function Advanced(b: bytes, c: Cursor): (c': Cursor)
    requires c.at + HEADER_LEN <= |b| && c.left > 0
    ensures c.at < c'.at <= |b|
  {
    match Look(b, c.at)
    case ForeignRecord(text) => c.(foreign := c.foreign + [text], at := c.at + |text|)
    case Garbage => c.(at := c.at + 1)
    case WholeRecord(text) =>
      Cursor(c.records + [text], c.foreign, c.at + RECORD_LEN, c.at + RECORD_LEN, c.left - 1)
  }

  lemma ScanStep(look: Looks, size: nat, at: nat, left: nat)
    requires Sane(look, size) && at + HEADER_LEN <= size && left > 0
    ensures Within(Met(look, size, at), left) ==
      match look(at)
      case Garbage => Within(Met(look, size, at + 1), left)
      case ForeignRecord(text) => Meet(at, look(at), Within(Met(look, size, at + |text|), left))
      case WholeRecord(text) => Meet(at, look(at), Within(Met(look, size, at + RECORD_LEN), left - 1))
  {
  }

  lemma SteppingContinues(h: Handover, b: bytes, c: Cursor)
    requires c.at + HEADER_LEN <= |b| && c.left > 0 && Continues(h, b, c) && Look(b, c.at).ForeignRecord?
    ensures Continues(h, b, Advanced(b, c))
  {
    hide Met, Within;
    LooksAreSane(b);
    var look, text := LooksOf(b), Look(b, c.at).text;
    assert look(c.at) == ForeignRecord(text);
    ScanStep(look, |b|, c.at, c.left);
    JoinsEitherWay(c.foreign, [text], Foreigns(Within(Met(look, |b|, c.at + |text|), c.left)));
  }

  lemma TakingContinues(h: Handover, b: bytes, c: Cursor)
    requires c.at + HEADER_LEN <= |b| && c.left > 0 && Continues(h, b, c) && Look(b, c.at).WholeRecord?
    ensures Continues(h, b, Advanced(b, c))
  {
    hide Met, Within;
    LooksAreSane(b);
    var look, text := LooksOf(b), Look(b, c.at).text;
    assert look(c.at) == WholeRecord(text);
    ScanStep(look, |b|, c.at, c.left);
    JoinsEitherWay(c.records, [text], Records(Within(Met(look, |b|, c.at + RECORD_LEN), c.left - 1)));
  }

  lemma AdvancingContinues(h: Handover, b: bytes, c: Cursor)
    requires c.at + HEADER_LEN <= |b| && c.left > 0 && Continues(h, b, c)
    ensures Continues(h, b, Advanced(b, c))
  {
    if Look(b, c.at).ForeignRecord? {
      SteppingContinues(h, b, c);
    } else if Look(b, c.at).WholeRecord? {
      TakingContinues(h, b, c);
    } else {
      LooksAreSane(b);
      ScanStep(LooksOf(b), |b|, c.at, c.left);
    }
  }

  lemma AtTheEnd(h: Handover, b: bytes, c: Cursor)
    requires c.at <= |b| && (c.at + HEADER_LEN > |b| || c.left == 0) && Continues(h, b, c)
    ensures h == Handover(c.records, c.foreign, c.end)
  {
    LooksAreSane(b);
    if c.left == 0 {
      NothingWithin(Met(LooksOf(b), |b|, c.at));
      assert Within(Met(LooksOf(b), |b|, c.at), 0) == Done;
    }
  }

  lemma AtTheStart(b: bytes, budget: nat)
    ensures Continues(Handed(b, budget), b, Cursor([], [], 0, 0, budget))
  {
  }

  /** The scan loop over what was read. */
  method ScanBuffer(buffer: bytes, max: nat, visitor: Visitor)
    returns (visited: nat, stop: bool, offset: nat, consumed: nat, foreignSeen: bool)
    requires max > 0 && |visitor.received| < visitor.patience
    modifies visitor
    ensures offset <= |buffer|
    ensures var budget := Min(max, visitor.patience - |old(visitor.received)|);
      var h := Handed(buffer, budget);
      && visitor.received == old(visitor.received) + h.records && visited == |h.records|
      && foreignSeen == (h.foreign != []) && consumed == h.end
      && visited <= budget && (visited == budget ==> offset == h.end) && (visited < budget ==> offset + HEADER_LEN > |buffer|)
      && stop == (|visitor.received| >= visitor.patience)
  {
    ghost var budget, before := Min(max, visitor.patience - |visitor.received|), visitor.received;
    ghost var h := Handed(buffer, budget);
    ghost var c := Cursor([], [], 0, 0, budget);
    visited, stop, offset, consumed, foreignSeen := 0, false, 0, 0, false;
    AtTheStart(buffer, budget);
    while offset + HEADER_LEN <= |buffer| && visited < max && !stop
      invariant offset == c.at <= |buffer| && consumed == c.end && foreignSeen == (c.foreign != [])
      invariant visited == |c.records| && visited + c.left == budget && (c.left == 0 ==> offset == consumed)
      invariant visitor.received == before + c.records && stop == (|visitor.received| >= visitor.patience)
      invariant Continues(h, buffer, c)
      decreases |buffer| - offset
    {
      AdvancingContinues(h, buffer, c);
      c := Advanced(buffer, c);
      var look := Look(buffer, offset);
      if look.ForeignRecord? {
        foreignSeen := true;
        offset := offset + |look.text|;
      } else if look.Garbage? {
        offset := offset + 1;
      } else {
        visited := visited + 1;
        offset := offset + RECORD_LEN;
        consumed := offset;
        var goOn := visitor.Visit(look.text);
        stop := !goOn;
      }
    }
    AtTheEnd(h, buffer, c);
  }

  /** Reads one dead process's sink and hands its records over. */
  method DrainFile(content: bytes, max: nat, visitor: Visitor, io: SinkIo)
    returns (found: int, stop: bool, consumable: bool, consumed: nat)
    requires max > 0 && |visitor.received| < visitor.patience
    modifies visitor
    ensures var budget := Min(max, visitor.patience - |old(visitor.received)|);
      var d := DrainedFile(content, budget, io);
      && FileDrain(found, d.records, consumable, consumed) == d
      && visitor.received == old(visitor.received) + d.records
      && stop == (|visitor.received| >= visitor.patience)
  {
    found, stop, consumable, consumed := -1, false, false, 0;
    if !io.opens {
      return;
    }
    if |content| == 0 {
      return 0, false, true, 0;
    }
    var size := ReadLength(content, io);
    if size == 0 {
      return;
    }
    ghost var budget := Min(max, visitor.patience - |visitor.received|);
    ghost var h, d := Handed(content[..size], budget), DrainedFile(content, budget, io);
    assert d.found == |h.records| && d.records == h.records;
    var visited, offset, foreignSeen;
    visited, stop, offset, consumed, foreignSeen := ScanBuffer(content[..size], max, visitor);
    consumable := !foreignSeen && |content| == size && offset + HEADER_LEN > size;
    if foreignSeen {
      consumed := 0;
    }
    found := visited;
  }

  // ------------------------------------------------------------------- one sink

  /** Reads that give all there is, up to the read cap, and compactions without a fault. */
  ghost predicate Reliable(io: SinkIo) {
    io.opens && io.readLimit >= DRAIN_MAX_BYTES && Faultless(io.compact)
  }

  ghost function RecordsIn(sink: Option<bytes>): seq<bytes> {
    if sink.None? then [] else Records(MetIn(sink.value))
  }

  ghost function ForeignsIn(sink: Option<bytes>): seq<bytes> {
    if sink.None? then [] else Foreigns(MetIn(sink.value))
  }

  /** The file that draining with a budget leaves. */
  ghost function LeftBy(content: bytes, budget: nat, io: SinkIo): Option<bytes> {
    ConsumedIsInside(content, budget, io);
    FileAfter(content, DrainedFile(content, budget, io), io)
  }

  /** What a budget hands over from some bytes, and what a scan meets after where that ends, is all there is. */
  lemma HandedPlusRest(b: bytes, budget: nat)
    requires budget > 0
    ensures var h, all := Handed(b, budget), MetIn(b);
      && h.end <= |b| && |h.records| <= budget
      && (|h.records| < budget ==> h.records == Records(all) && h.foreign == Foreigns(all))
      && (|h.records| == budget ==>
            && h.end >= RECORD_LEN
            && Records(all) == h.records + Records(MetIn(b[h.end..]))
            && Foreigns(all) == h.foreign + Foreigns(MetIn(b[h.end..])))
  {
    LooksAreSane(b);
    BudgetSplitsScan(LooksOf(b), |b|, 0, budget);
    RecordsEndLate(LooksOf(b), |b|, 0, budget, 0);
    var h := Handed(b, budget);
    MetInRest(b, h.end);
    ShiftKeeps(MetIn(b[h.end..]), h.end, 0, 0);
  }

  lemma NothingInShort(b: bytes)
    requires |b| < HEADER_LEN
    ensures Records(MetIn(b)) == [] && Foreigns(MetIn(b)) == []
  {
  }

  /** How many bytes at the front of a file a drain gives up: all of them, or those up to the last record handed over. */
  ghost function GivenUp(content: bytes, budget: nat, io: SinkIo): nat {
    var d := DrainedFile(content, budget, io);
    if d.consumable then |content| else d.consumed
  }

  /** The read cuts off a foreign record and the scan then takes a record out of what it gave of it. */
  ghost predicate CutsForeign(content: bytes, budget: nat, io: SinkIo) {
    io.opens && ForeignCut(content, ReadLength(content, io), budget)
  }

  /** Once its compaction goes without a fault, a drain leaves what it did not give up. */
  lemma LeavesTheRest(content: bytes, budget: nat, io: SinkIo)
    requires Faultless(io.compact)
    ensures GivenUp(content, budget, io) <= |content|
    ensures LeftBy(content, budget, io) ==
      if DrainedFile(content, budget, io).consumable then None else Some(content[GivenUp(content, budget, io)..])
  {
    hide Handed;
    ConsumedIsInside(content, budget, io);
    FaultlessCompactionCompletes(content, GivenUp(content, budget, io), io.compact);
  }

  /**
   What was handed over and what the next scan meets make up all records, in order, and every foreign
   record is still there.
   */
  ghost predicate Conserves(content: bytes, d: FileDrain, left: Option<bytes>) {
    d.records + RecordsIn(left) == Records(MetIn(content)) && ForeignsIn(left) == Foreigns(MetIn(content))
  }

  lemma ReadWholeConserves(content: bytes, budget: nat, io: SinkIo)
    requires 0 < budget && Faultless(io.compact) && io.opens && ReadLength(content, io) == |content|
    requires Handed(content, budget).foreign == []
    ensures Conserves(content, DrainedFile(content, budget, io), LeftBy(content, budget, io))
  {
    hide Handed, MetIn;
    LeavesTheRest(content, budget, io);
    assert content[..|content|] == content;
    if content == [] {
      NothingInShort(content);
    } else {
      var h := Handed(content, budget);
      HandedPlusRest(content, budget);
      if |h.records| == budget && h.end + HEADER_LEN > |content| {
        NothingInShort(content[h.end..]);
      }
    }
  }

  lemma ReadPartConserves(content: bytes, budget: nat, io: SinkIo)
    requires 0 < budget && Faultless(io.compact) && io.opens && 0 < ReadLength(content, io) < |content|
    requires Handed(content[..ReadLength(content, io)], budget).foreign == [] && !CutsForeign(content, budget, io)
    ensures Conserves(content, DrainedFile(content, budget, io), LeftBy(content, budget, io))
  {
    hide Handed, MetIn, ForeignCut;
    LeavesTheRest(content, budget, io);
    PartHandsFirst(content, ReadLength(content, io), budget);
    var h := Handed(content[..ReadLength(content, io)], budget);
    if h.records != [] {
      HandedPlusRest(content, |h.records|);
    } else {
      NothingHanded(content);
    }
  }

  lemma NothingHanded(b: bytes)
    ensures Handed(b, 0).end == 0 && b[0..] == b
  {
  }

  /**
   Draining arbitrary bytes, however little of them is read. With a foreign record among what was scanned
   the file stays as it is; otherwise nothing is lost and nothing repeated, unless a foreign record is cut off.
   */
  lemma DrainConserves(content: bytes, budget: nat, io: SinkIo)
    requires 0 < budget && Faultless(io.compact) && !CutsForeign(content, budget, io)
    ensures var h := Handed(content[..ReadLength(content, io)], budget);
      if io.opens && h.foreign != []
      then DrainedFile(content, budget, io).records == h.records && LeftBy(content, budget, io) == Some(content)
      else Conserves(content, DrainedFile(content, budget, io), LeftBy(content, budget, io))
  {
    hide MetIn, Within, ForeignCut;
    var got := ReadLength(content, io);
    LeavesTheRest(content, budget, io);
    NothingInNoBytes(budget);
    assert content[..0] == [] && content[0..] == content;
    if io.opens && Handed(content[..got], budget).foreign == [] {
      if got == |content| {
        assert content[..got] == content;
        ReadWholeConserves(content, budget, io);
      } else if got > 0 {
        ReadPartConserves(content, budget, io);
      }
    }
  }

  /** Draining a sink of whole records, even one past the read cap, hands over the first of them and leaves the others. */
  lemma DrainWholeSink(records: seq<bytes>, budget: nat, io: SinkIo)
    requires AreRecords(records) && 0 < budget <= 1024 && Reliable(io)
    ensures var k := Min(budget, |records|);
      && DrainedFile(Sink(records), budget, io).records == records[..k]
      && LeftBy(Sink(records), budget, io) == if budget >= |records| then None else Some(Sink(records[k..]))
  {
    var file, k := Sink(records), Min(budget, |records|);
    SinkSplits(records, k);
    if records != [] {
      HandedFromCap(records, budget);
      ConsumedIsInside(file, budget, io);
      if budget < |records| {
        FaultlessCompactionCompletes(file, k * RECORD_LEN, io.compact);
      }
    }
  }

  lemma FrontOfSink(records: seq<bytes>, whole: nat, size: nat)
    requires AreRecords(records) && whole <= |records| && whole * RECORD_LEN <= size <= |Sink(records)|
    requires |Sink(records)| == |records| * RECORD_LEN
    ensures Sink(records)[..size] == Sink(records[..whole]) + Sink(records)[whole * RECORD_LEN..size]
  {
    SinkSplits(records, whole);
    assert Sink(records)[..size] == Sink(records)[..whole * RECORD_LEN] + Sink(records)[whole * RECORD_LEN..size];
  }

  /** A sink past the read cap: the cap still holds more whole records than any budget up to 1024 asks for. */
  lemma HandedFromLarge(records: seq<bytes>, budget: nat)
    requires AreRecords(records) && 0 < budget <= 1024 && |Sink(records)| > DRAIN_MAX_BYTES
    requires |Sink(records)| == |records| * RECORD_LEN
    ensures Handed(Sink(records)[..DRAIN_MAX_BYTES], budget) == Handover(records[..budget], [], budget * RECORD_LEN)
  {
    var whole := DRAIN_MAX_BYTES / RECORD_LEN;
    FrontOfSink(records, whole, DRAIN_MAX_BYTES);
    assert records[..whole][..budget] == records[..budget];
    SinkIsMet(records[..whole], Sink(records)[whole * RECORD_LEN..DRAIN_MAX_BYTES], budget);
  }

  /** As much of a sink as one read takes is enough for any budget up to 1024. */
  lemma HandedFromCap(records: seq<bytes>, budget: nat)
    requires AreRecords(records) && 0 < budget <= 1024
    ensures var k := Min(budget, |records|);
      Handed(Sink(records)[..Min(|Sink(records)|, DRAIN_MAX_BYTES)], budget) == Handover(records[..k], [], k * RECORD_LEN)
    ensures |Sink(records)| == |records| * RECORD_LEN
  {
    var file := Sink(records);
    SinkSplits(records, 0);
    if |file| <= DRAIN_MAX_BYTES {
      assert file[..|file|] == file + [];
      SinkIsMet(records, [], budget);
    } else {
      HandedFromLarge(records, budget);
    }
  }

  // ------------------------------------------------------------- one sink, many drains

  /** What a series of drains hands over, and what it leaves. */
  ghost function DrainedBy(sink: Option<bytes>, budgets: seq<nat>, ios: seq<SinkIo>): (seq<bytes>, Option<bytes>)
    requires |budgets| == |ios|
    decreases |budgets|
  {
    if budgets == [] then ([], sink)
    else
      var last := |budgets| - 1;
      var (handed, left) := DrainedBy(sink, budgets[..last], ios[..last]);
      if left.None? then (handed, None)
      else (handed + DrainedFile(left.value, budgets[last], ios[last]).records, LeftBy(left.value, budgets[last], ios[last]))
  }

  lemma RestOf(records: seq<bytes>, done: nat, end: nat)
    requires done <= end <= |records|
    ensures records[done..][..end - done] == records[done..end] && records[done..][end - done..] == records[end..]
    ensures records[..done] + records[done..end] == records[..end]
  {
  }

  lemma DrainFrom(records: seq<bytes>, done: nat, budget: nat, io: SinkIo)
    requires AreRecords(records) && done <= |records| && 0 < budget <= 1024 && Reliable(io)
    ensures var sink, end := Sink(records[done..]), Min(done + budget, |records|);
      && records[..done] + DrainedFile(sink, budget, io).records == records[..end]
      && LeftBy(sink, budget, io) == if done + budget >= |records| then None else Some(Sink(records[end..]))
  {
    DrainWholeSink(records[done..], budget, io);
    RestOf(records, done, Min(done + budget, |records|));
  }

  /**
   Whatever the budgets from 1 to 1024: the records of a sink are handed over in order, each once,
   and the file is gone exactly from the call that hands over the last of them.
   */
  lemma {:induction false} ExactlyOnce(records: seq<bytes>, budgets: seq<nat>, ios: seq<SinkIo>)
    requires AreRecords(records) && |budgets| == |ios|
    requires forall i :: 0 <= i < |budgets| ==> 0 < budgets[i] <= 1024 && Reliable(ios[i])
    ensures var (handed, left) := DrainedBy(Some(Sink(records)), budgets, ios);
      var k := Min(Sum(budgets), |records|);
      && handed == records[..k]
      && left == if budgets != [] && Sum(budgets) >= |records| then None else Some(Sink(records[k..]))
    decreases |budgets|
  {
    if budgets != [] {
      var last := |budgets| - 1;
      ExactlyOnce(records, budgets[..last], ios[..last]);
      DrainFrom(records, Min(Sum(budgets[..last]), |records|), budgets[last], ios[last]);
    }
  }

  lemma LeftIsNoLonger(content: bytes, budget: nat, io: SinkIo)
    requires |content| <= DRAIN_MAX_BYTES
    ensures var left := LeftBy(content, budget, io); left.Some? ==> |left.value| <= DRAIN_MAX_BYTES
  {
  }

  lemma AnyDrainConserves(content: bytes, budget: nat, io: SinkIo)
    requires 0 < budget && |content| <= DRAIN_MAX_BYTES && Reliable(io) && Foreigns(MetIn(content)) == []
    ensures var left := LeftBy(content, budget, io);
      && DrainedFile(content, budget, io).records + RecordsIn(left) == Records(MetIn(content))
      && ForeignsIn(left) == []
  {
    assert content[..|content|] == content;
    HandedPlusRest(content, budget);
    NothingCut(content, |content|, budget);
    DrainConserves(content, budget, io);
  }

  /**
   The same for a file of any bytes within the read cap, torn records and garbage included, with no
   foreign record among them: over any drains each of its records is handed over once, in order, or
   still to be met.
   */
  lemma {:induction false} AnyFileOnce(content: bytes, budgets: seq<nat>, ios: seq<SinkIo>)
    requires |content| <= DRAIN_MAX_BYTES && Foreigns(MetIn(content)) == [] && |budgets| == |ios|
    requires forall i :: 0 <= i < |budgets| ==> 0 < budgets[i] && Reliable(ios[i])
    ensures var (handed, left) := DrainedBy(Some(content), budgets, ios);
      && handed + RecordsIn(left) == Records(MetIn(content)) && ForeignsIn(left) == []
      && (left.Some? ==> |left.value| <= DRAIN_MAX_BYTES)
    decreases |budgets|
  {
    if budgets != [] {
      var last := |budgets| - 1;
      AnyFileOnce(content, budgets[..last], ios[..last]);
      var (handed, left) := DrainedBy(Some(content), budgets[..last], ios[..last]);
      if left.Some? {
        AnyDrainConserves(left.value, budgets[last], ios[last]);
        LeftIsNoLonger(left.value, budgets[last], ios[last]);
        JoinsEitherWay(handed, DrainedFile(left.value, budgets[last], ios[last]).records,
                       RecordsIn(LeftBy(left.value, budgets[last], ios[last])));
      }
    }
  }

  lemma FaultyDrainKeeps(content: bytes, budget: nat, io: SinkIo)
    requires 0 < budget && Faultless(io.compact) && Foreigns(MetIn(content)) == []
    ensures var left := LeftBy(content, budget, io);
      && multiset(Records(MetIn(content))) <= multiset(DrainedFile(content, budget, io).records) + multiset(RecordsIn(left))
      && ForeignsIn(left) == []
  {
    hide MetIn, Handed, ForeignCut;
    NothingCut(content, ReadLength(content, io), budget);
    DrainConserves(content, budget, io);
  }

  /**
   However long the file, and wherever its reads stop: with no foreign record in it and no fault in a
   compaction, each of its records is handed over or still to be met, as often as it is there.
   */
  lemma {:induction false} AnyFileAtLeastOnce(content: bytes, budgets: seq<nat>, ios: seq<SinkIo>)
    requires Foreigns(MetIn(content)) == [] && |budgets| == |ios|
    requires forall i :: 0 <= i < |budgets| ==> 0 < budgets[i] && Faultless(ios[i].compact)
    ensures var (handed, left) := DrainedBy(Some(content), budgets, ios);
      && multiset(Records(MetIn(content))) <= multiset(handed) + multiset(RecordsIn(left))
      && ForeignsIn(left) == []
    decreases |budgets|
  {
    if budgets != [] {
      var last := |budgets| - 1;
      AnyFileAtLeastOnce(content, budgets[..last], ios[..last]);
      var (_, left) := DrainedBy(Some(content), budgets[..last], ios[..last]);
      if left.Some? {
        FaultyDrainKeeps(left.value, budgets[last], ios[last]);
      }
    }
  }
}
