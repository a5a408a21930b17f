/**
 Crash sinks when reads stop short, files do not open, writes are partial and truncates fail: a record
 may then be handed over more than once, but none is lost.
 */
module CrashFaults {
  import opened Common
  import opened CrashRecords
  import opened CrashCompaction
  import opened CrashReads
  import opened CrashDrain
  import opened CrashDirectory

  // ------------------------------------------------------------- reading part of a sink

  /** A scan whose budget outlasts the whole records goes on into the part of one that follows, and finds no record there. */
  lemma {:induction false} SinkThenPart(records: seq<bytes>, part: bytes, budget: nat)
    requires AreRecords(records) && |part| < RECORD_LEN && budget > |records|
    ensures var h := Handed(Sink(records) + part, budget);
      h.records == records && h.end == |records| * RECORD_LEN
  {
    if records == [] {
      assert Sink(records) + part == part;
      NoRecordInPart(part, budget);
    } else {
      SinkThenPart(records[1..], part, budget - 1);
      FirstRecordIsMet(records, part, budget);
      assert records == [records[0]] + records[1..];
    }
  }

  /** However little of a sink a read takes, the scan hands over its first records, and stops at the end of the last. */
  lemma PartlyRead(records: seq<bytes>, got: nat, budget: nat)
    requires AreRecords(records) && got <= |Sink(records)| == |records| * RECORD_LEN && budget > 0
    ensures var k, h := Min(budget, got / RECORD_LEN), Handed(Sink(records)[..got], budget);
      k <= |records| && h.records == records[..k] && h.end == k * RECORD_LEN
  {
    var whole := got / RECORD_LEN;
    assert whole * RECORD_LEN <= got < (whole + 1) * RECORD_LEN;
    FrontOfSink(records, whole, got);
    var part := Sink(records)[whole * RECORD_LEN..got];
    if budget <= whole {
      SinkIsMet(records[..whole], part, budget);
      assert records[..whole][..budget] == records[..budget];
    } else {
      SinkThenPart(records[..whole], part, budget);
    }
  }

  // ------------------------------------------------------------------ draining one sink

  /** No compaction under these conditions cuts a file early. */
  ghost predicate NeverCuts(io: CompactIo) {
    forall size: nat, consumed: nat | consumed <= size :: !CutsEarly(size, consumed, io)
  }

  /** Reads that give something until the end are enough, and so is a truncate that fails, whatever the writes do. */
  lemma ReadingOnNeverCuts(io: CompactIo)
    requires !io.opens || !io.truncates || forall i :: io.rounds(i).read > 0
    ensures NeverCuts(io)
  {
    forall size: nat, consumed: nat | consumed <= size
      ensures !CutsEarly(size, consumed, io)
    {
      if io.opens && io.truncates {
        NoReadFails(size, consumed, io, 0);
      }
    }
  }

  lemma {:induction false} NoReadFails(size: nat, at: nat, io: CompactIo, i: nat)
    requires at <= size && forall k :: io.rounds(k).read > 0
    ensures !ReadFailsEarly(size, at, io, i)
    decreases size - at
  {
    var n := ReadSize(size, at, io.rounds(i));
    if at < size && io.rounds(i).wrote >= n {
      NoReadFails(size, at + n, io, i + 1);
    }
  }

  /** What is handed over and what is still held are together all there was, and the file is a sink again. */
  ghost predicate NoneLost(records: seq<bytes>, handed: seq<bytes>, left: Option<bytes>) {
    && (left.Some? ==> IsSink(left.value))
    && multiset(records) <= multiset(handed) + multiset(RecordsIn(left))
  }

  lemma UntouchedLosesNone(records: seq<bytes>, handed: seq<bytes>)
    requires AreRecords(records)
    ensures NoneLost(records, handed, Some(Sink(records)))
  {
    SinksAreSinks(records);
  }

  lemma CompactingLosesNone(records: seq<bytes>, k: nat, io: CompactIo)
    requires 1 <= k <= |records| && AreRecords(records) && |Sink(records)| == |records| * RECORD_LEN && NeverCuts(io)
    ensures NoneLost(records, records[..k], Some(Compacted(records, k, io)))
  {
    CompactedKeeps(records, k, io);
    assert records == records[..k] + records[k..];
  }

  /** What a drain of a sink may drop: nothing, the front it handed over, or the file when it handed over all. */
  lemma DroppedWasHanded(records: seq<bytes>, budget: nat, io: SinkIo)
    requires AreRecords(records) && budget > 0
    ensures var d := DrainedFile(Sink(records), budget, io);
      && |Sink(records)| == |records| * RECORD_LEN
      && |d.records| <= |records| && d.records == records[..|d.records|]
      && (d.consumable ==> d.records == records)
      && (d.consumed == 0 || d.consumed == |d.records| * RECORD_LEN)
  {
    SinkSplits(records, 0);
    var file := Sink(records);
    if io.opens && file != [] {
      PartlyRead(records, ReadLength(file, io), budget);
    }
  }

  /** Draining a sink of whole records loses none, whatever its reading and compacting come to, unless they cut it early. */
  lemma DrainLosesNone(records: seq<bytes>, budget: nat, io: SinkIo)
    requires AreRecords(records) && budget > 0 && NeverCuts(io.compact)
    ensures NoneLost(records, DrainedFile(Sink(records), budget, io).records, LeftBy(Sink(records), budget, io))
  {
    var d := DrainedFile(Sink(records), budget, io);
    ConsumedIsInside(Sink(records), budget, io);
    DroppedWasHanded(records, budget, io);
    if d.found >= 0 && !d.consumable && d.consumed > 0 {
      CompactingLosesNone(records, |d.records|, io.compact);
    } else {
      UntouchedLosesNone(records, d.records);
    }
  }

  /** A drain whose budget ends inside a sink and whose compaction then fails its first read empties the file. */
  lemma FailedReadEmptiesSink(records: seq<bytes>, budget: nat, io: SinkIo)
    requires AreRecords(records) && 0 < budget < |records| && budget <= 1024
    requires io.opens && io.readLimit >= DRAIN_MAX_BYTES
    requires io.compact.opens && io.compact.rounds(0).read <= 0 && io.compact.truncates
    ensures DrainedFile(Sink(records), budget, io).records == records[..budget]
    ensures LeftBy(Sink(records), budget, io) == Some([])
  {
    HandedFromCap(records, budget);
    ConsumedIsInside(Sink(records), budget, io);
    FailedReadLosesAll(records, budget, io.compact);
  }

  // ---------------------------------------------------------------------- every run

  function WrittenBy(written: map<nat, seq<bytes>>, pid: nat): seq<bytes> {
    if pid in written then written[pid] else []
  }

  function FileOf(sinks: Sinks, pid: nat): Option<bytes> {
    if pid in sinks then Some(sinks[pid]) else None
  }

  /** Every record a process wrote has been delivered from its sink at least once, or is still in it. */
  ghost predicate Covered(sinks: Sinks, written: map<nat, seq<bytes>>, delivered: seq<Delivery>, pid: nat) {
    NoneLost(WrittenBy(written, pid), From(pid, delivered), FileOf(sinks, pid))
  }

  ghost predicate AllCovered(sinks: Sinks, written: map<nat, seq<bytes>>, delivered: seq<Delivery>) {
    forall pid: nat :: Covered(sinks, written, delivered, pid)
  }

  lemma LosingNoneTwice(records: seq<bytes>, handed: seq<bytes>, sink: bytes, more: seq<bytes>, left: Option<bytes>)
    requires NoneLost(records, handed, Some(sink)) && NoneLost(Records(MetIn(sink)), more, left)
    ensures NoneLost(records, handed + more, left)
  {
  }

  lemma OneSinkCovered(sinks: Sinks, written: map<nat, seq<bytes>>, delivered: seq<Delivery>, pid: nat, budget: nat, io: SinkIo)
    requires Covered(sinks, written, delivered, pid) && pid in sinks && budget > 0 && NeverCuts(io.compact)
    ensures var (records, left) := DrainedOne(sinks[pid], budget, io);
      Covered(Put(sinks, pid, left), written, delivered + Tagged(pid, records), pid)
  {
    var sink := sinks[pid];
    var (records, left) := DrainedOne(sink, budget, io);
    DrainLosesNone(Records(MetIn(sink)), budget, io);
    LosingNoneTwice(WrittenBy(written, pid), From(pid, delivered), sink, records, left);
    FromTagged(pid, delivered, pid, records);
    assert FileOf(Put(sinks, pid, left), pid) == left;
  }

  lemma OthersStayCovered(sinks: Sinks, written: map<nat, seq<bytes>>, delivered: seq<Delivery>, pid: nat,
                          other: nat, left: Option<bytes>, records: seq<bytes>)
    requires Covered(sinks, written, delivered, pid) && other != pid
    ensures Covered(Put(sinks, other, left), written, delivered + Tagged(other, records), pid)
  {
    FromTagged(pid, delivered, other, records);
    assert FileOf(Put(sinks, other, left), pid) == FileOf(sinks, pid);
  }

  lemma EntryKeepsCover(sinks: Sinks, written: map<nat, seq<bytes>>, delivered: seq<Delivery>, pid: nat, budget: nat, io: SinkIo)
    requires AllCovered(sinks, written, delivered) && pid in sinks && budget > 0 && NeverCuts(io.compact)
    ensures var (records, left) := DrainedOne(sinks[pid], budget, io);
      AllCovered(Put(sinks, pid, left), written, delivered + Tagged(pid, records))
  {
    var (records, left) := DrainedOne(sinks[pid], budget, io);
    forall p: nat
      ensures Covered(Put(sinks, pid, left), written, delivered + Tagged(pid, records), p)
    {
      assert Covered(sinks, written, delivered, p);
      if p == pid {
        OneSinkCovered(sinks, written, delivered, pid, budget, io);
      } else {
        OthersStayCovered(sinks, written, delivered, p, pid, left, records);
      }
    }
  }

  ghost predicate CoveredAfter(drained: (Sinks, seq<Delivery>), written: map<nat, seq<bytes>>) {
    AllCovered(drained.0, written, drained.1)
  }

  ghost predicate NoneCuts(listed: seq<Entry>) {
    forall i :: 0 <= i < |listed| ==> NeverCuts(listed[i].io.compact)
  }

  lemma {:induction false} DrainKeepsCover(sinks: Sinks, written: map<nat, seq<bytes>>, listed: seq<Entry>,
                                           skip: set<nat>, budget: nat, soFar: seq<Delivery>)
    requires AllCovered(sinks, written, soFar) && NoneCuts(listed)
    ensures CoveredAfter(Drained(sinks, listed, skip, budget, soFar), written)
    decreases |listed|
  {
    if listed != [] && budget > 0 {
      var pid, rest := listed[0].pid, listed[1..];
      if pid in skip || pid !in sinks {
        DrainKeepsCover(sinks, written, rest, skip, budget, soFar);
      } else {
        var (records, left) := DrainedOne(sinks[pid], budget, listed[0].io);
        EntryKeepsCover(sinks, written, soFar, pid, budget, listed[0].io);
        DrainKeepsCover(Put(sinks, pid, left), written, rest, skip, budget - |records|, soFar + Tagged(pid, records));
      }
    }
  }

  lemma CrashCovered(written: seq<bytes>, handed: seq<bytes>, sink: Option<bytes>, record: bytes)
    requires NoneLost(written, handed, sink) && |record| == RECORD_LEN && IsRecord(record)
    ensures NoneLost(written + [record], handed, Some((if sink.Some? then sink.value else []) + record))
  {
    var held := RecordsIn(sink);
    SinkJoins(held, [record]);
    assert Sink([record]) == record;
    SinksAreSinks(held + [record]);
  }

  lemma CrashKeepsCover(w: World, pid: nat, record: bytes)
    requires AllCovered(w.sinks, w.written, w.delivered) && |record| == RECORD_LEN && IsRecord(record)
    ensures var w' := Next(w, Crashed(pid, record));
      AllCovered(w'.sinks, w'.written, w'.delivered)
  {
    var w' := Next(w, Crashed(pid, record));
    forall p: nat
      ensures Covered(w'.sinks, w'.written, w'.delivered, p)
    {
      assert Covered(w.sinks, w.written, w.delivered, p);
      if p == pid {
        CrashCovered(WrittenBy(w.written, pid), From(pid, w.delivered), FileOf(w.sinks, pid), record);
      }
    }
  }

  ghost predicate Survivable(e: Event) {
    match e
    case Crashed(_, record) => |record| == RECORD_LEN && IsRecord(record)
    case DrainCalled(listed, _, _) => NoneCuts(listed)
  }

  lemma {:induction false} EveryRunCovers(events: seq<Event>)
    requires forall i :: 0 <= i < |events| ==> Survivable(events[i])
    ensures var w := After(events);
      AllCovered(w.sinks, w.written, w.delivered)
    decreases |events|
  {
    if events != [] {
      var front, last := events[..|events| - 1], events[|events| - 1];
      EveryRunCovers(front);
      var w := After(front);
      match last
      case Crashed(pid, record) => CrashKeepsCover(w, pid, record);
      case DrainCalled(listed, skip, budget) => DrainKeepsCover(w.sinks, w.written, listed, skip, budget, w.delivered);
    }
  }

  /**
   After every run of crashes and drains with any budgets, in which files may not open, reads may stop
   anywhere, writes may be partial and truncates may fail, but no file is cut early: each record a process
   wrote has been delivered from its sink, or is met by the next scan of it, as often as it was written.
   */
  lemma EveryRecordAtLeastOnce(events: seq<Event>, pid: nat)
    requires forall k :: 0 <= k < |events| ==> Survivable(events[k])
    ensures var w := After(events);
      multiset(WrittenBy(w.written, pid)) <= multiset(From(pid, w.delivered)) + multiset(RecordsIn(FileOf(w.sinks, pid)))
  {
    EveryRunCovers(events);
    var w := After(events);
    assert Covered(w.sinks, w.written, w.delivered, pid);
  }
}
