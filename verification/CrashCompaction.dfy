/** Dropping the front of a sink in place, and what is left when that does not run to its end. */
module CrashCompaction {
  import opened Common
  import opened CrashRecords

  const CHUNK_LEN: nat := 8192

  /** The outcome of one round of input and output: what pread gave (nothing if it failed), what pwrite took. */
  datatype Round = Round(read: int, wrote: nat)

  /** The environment of one compaction: whether the file opens, each round, and whether the truncate works. */
  datatype CompactIo = CompactIo(opens: bool, rounds: nat -> Round, truncates: bool)

  function ReadSize(size: nat, at: nat, round: Round): nat {
    if at >= size || round.read <= 0 then 0 else Min(Min(round.read, CHUNK_LEN), size - at)
  }

  /** The file after the first `done` bytes of the copy. */
  function Progress(content: bytes, consumed: nat, done: nat): bytes
    requires consumed + done <= |content|
  {
    content[consumed..consumed + done] + content[done..]
  }

  /** The same, byte by byte. */
  ghost predicate Copied(content: bytes, was: bytes, consumed: nat, done: nat) {
    && consumed + done <= |was| == |content|
    && (forall p :: 0 <= p < done ==> content[p] == was[consumed + p])
    && (forall p :: done <= p < |was| ==> content[p] == was[p])
  }

  /** How a compaction ended: it could not open the file, a write fell short, or reading stopped and it truncated, or tried to. */
  datatype Ending = NotOpened | Stopped(done: nat) | Ran(done: nat, truncated: bool)

  ghost function EndingFrom(size: nat, consumed: nat, io: CompactIo, done: nat, i: nat): (ending: Ending)
    requires consumed + done <= size
    ensures ending.NotOpened? || consumed + ending.done <= size
    decreases size - done
  {
    var n := ReadSize(size, consumed + done, io.rounds(i));
    if n == 0 then Ran(done, io.truncates)
    else if io.rounds(i).wrote < n then Stopped(done + io.rounds(i).wrote)
    else EndingFrom(size, consumed, io, done + n, i + 1)
  }

  ghost function EndingOf(size: nat, consumed: nat, io: CompactIo): (ending: Ending)
    requires consumed <= size
    ensures ending.NotOpened? || consumed + ending.done <= size
  {
    if io.opens then EndingFrom(size, consumed, io, 0, 0) else NotOpened
  }

  /** After `done` bytes in i rounds the ending is still ahead. */
  ghost predicate RoundsAhead(size: nat, consumed: nat, io: CompactIo, done: nat, i: nat, ending: Ending) {
    consumed + done <= size && ending == EndingFrom(size, consumed, io, done, i)
  }

  lemma RoundAhead(size: nat, consumed: nat, io: CompactIo, done: nat, i: nat, ending: Ending)
    requires RoundsAhead(size, consumed, io, done, i, ending)
    ensures var n := ReadSize(size, consumed + done, io.rounds(i));
      if n == 0 then ending == Ran(done, io.truncates)
      else if io.rounds(i).wrote < n then ending == Stopped(done + io.rounds(i).wrote)
      else RoundsAhead(size, consumed, io, done + n, i + 1, ending)
  {
  }

  function Left(content: bytes, consumed: nat, ending: Ending): bytes
    requires ending.NotOpened? || consumed + ending.done <= |content|
  {
    match ending
    case NotOpened => content
    case Stopped(done) => Progress(content, consumed, done)
    case Ran(done, truncated) =>
      if truncated then content[consumed..consumed + done] else Progress(content, consumed, done)
  }

  /** A file after bytes were written over others at an offset. */
  function Overwritten(content: bytes, at: nat, data: bytes): bytes
    requires at + |data| <= |content|
  {
    content[..at] + data + content[at + |data|..]
  }

  /** One more write: it reads bytes no earlier write has touched. */
  lemma WriteProgresses(content: bytes, was: bytes, consumed: nat, done: nat, n: nat, wrote: nat)
    requires Copied(content, was, consumed, done) && wrote <= n && consumed + done + n <= |was|
    ensures Copied(Overwritten(content, done, content[consumed + done..consumed + done + n][..wrote]), was, consumed, done + wrote)
  {
    var data := content[consumed + done..consumed + done + n][..wrote];
    assert forall p :: 0 <= p < wrote ==> data[p] == was[consumed + (done + p)];
    var after := Overwritten(content, done, data);
    forall p | 0 <= p < |was|
      ensures after[p] == if p < done + wrote then was[consumed + p] else was[p]
    {
      if done <= p < done + wrote {
        assert after[p] == data[p - done];
      } else {
        assert after[p] == content[p];
      }
    }
  }

  lemma NothingCopied(content: bytes, consumed: nat)
    requires consumed <= |content|
    ensures Copied(content, content, consumed, 0) && Progress(content, consumed, 0) == content
  {
  }

  lemma CopiedIsProgress(content: bytes, was: bytes, consumed: nat, done: nat)
    requires Copied(content, was, consumed, done)
    ensures content == Progress(was, consumed, done)
    ensures content[..done] == was[consumed..consumed + done]
  {
  }

  class SinkFile {
    var content: bytes

    constructor (content: bytes)
      ensures this.content == content
    {
      this.content := content;
    }

    /** Reads a chunk and writes as much of it as the write takes. */
    method CopyChunk(readAt: nat, writeAt: nat, chunk: nat, limit: nat, ghost was: bytes, ghost consumed: nat)
      returns (wrote: nat)
      requires readAt == consumed + writeAt && readAt + chunk <= |was|
      requires Copied(content, was, consumed, writeAt)
      modifies this
      ensures wrote == Min(limit, chunk)
      ensures Copied(content, was, consumed, writeAt + wrote)
    {
      var buffer := content[readAt..readAt + chunk];
      wrote := Min(limit, chunk);
      WriteProgresses(content, was, consumed, writeAt, chunk, wrote);
      content := Overwritten(content, writeAt, buffer[..wrote]);
    }

    method Truncate(size: nat, ghost was: bytes, ghost consumed: nat)
      requires Copied(content, was, consumed, size)
      modifies this
      ensures content == was[consumed..consumed + size]
    {
      CopiedIsProgress(content, was, consumed, size);
      content := content[..size];
    }

    /** Copies the rest to the front, chunk by chunk, until a read gives nothing or a write falls short. */
    method CopyRest(consumed: nat, io: CompactIo, ghost was: bytes) returns (writeAt: nat, complete: bool)
      requires Copied(content, was, consumed, 0)
      modifies this
      ensures Copied(content, was, consumed, writeAt)
      ensures EndingFrom(|was|, consumed, io, 0, 0) == if complete then Ran(writeAt, io.truncates) else Stopped(writeAt)
    {
      ghost var ending := EndingFrom(|was|, consumed, io, 0, 0);
      var readAt, i := consumed, 0;
      writeAt, complete := 0, true;
      while true
        invariant 0 <= i && readAt == consumed + writeAt && complete
        invariant Copied(content, was, consumed, writeAt)
        invariant RoundsAhead(|was|, consumed, io, writeAt, i, ending)
        decreases |was| - readAt
      {
        RoundAhead(|was|, consumed, io, writeAt, i, ending);
        var chunk := ReadSize(|content|, readAt, io.rounds(i));
        if chunk == 0 {
          return;
        }
        var wrote := CopyChunk(readAt, writeAt, chunk, io.rounds(i).wrote, was, consumed);
        readAt := readAt + wrote;
        writeAt := writeAt + wrote;
        if wrote != chunk {
          complete := false;
          return;
        }
        i := i + 1;
      }
    }

    /** Drops the front: the rest is copied down and the file cut there. */
    method Compact(consumed: nat, io: CompactIo)
      requires consumed <= |content|
      modifies this
      ensures content == Left(old(content), consumed, EndingOf(|old(content)|, consumed, io))
    {
      if !io.opens {
        return;
      }
      ghost var was := content;
      NothingCopied(was, consumed);
      var writeAt, complete := CopyRest(consumed, io, was);
      CopiedIsProgress(content, was, consumed, writeAt);
      if complete && io.truncates {
        Truncate(writeAt, was, consumed);
      }
    }
  }

  // ------------------------------------------------------- sinks of whole records

  lemma {:induction false} SinkSplits(records: seq<bytes>, k: nat)
    requires k <= |records| && AreRecords(records)
    ensures |Sink(records)| == |records| * RECORD_LEN
    ensures Sink(records)[..k * RECORD_LEN] == Sink(records[..k])
    ensures Sink(records)[k * RECORD_LEN..] == Sink(records[k..])
  {
    if records != [] {
      if k == 0 {
        SinkSplits(records[1..], 0);
      } else {
        SinkSplits(records[1..], k - 1);
        assert records[1..][..k - 1] == records[..k][1..] && records[1..][k - 1..] == records[k..];
      }
    }
  }

  lemma {:induction false} SinkJoins(a: seq<bytes>, b: seq<bytes>)
    ensures Sink(a + b) == Sink(a) + Sink(b)
  {
    if a == [] {
      assert a + b == b;
    } else {
      SinkJoins(a[1..], b);
      assert (a + b)[1..] == a[1..] + b;
      assert Sink(a + b) == a[0] + (Sink(a[1..]) + Sink(b));
    }
  }

  /** The bytes every complete record of this version begins with. */
  lemma HeaderBytes(r: bytes)
    requires |r| == RECORD_LEN
    ensures IsRecord(r) <==>
      && r[0] == 0x43 && r[1] == 0x58 && r[2] == 0x42 && r[3] == 0x43
      && r[4] == 2 && r[5] == 0 && r[6] == 0x70 && r[7] == 0x08
      && r[20] <= 32 && r[21] == 0 && r[22] == 0 && r[23] == 0
  {
  }

  /** A record written over another, as far as the write got, still begins like a record. */
  lemma TornIsRecord(over: bytes, under: bytes, x: nat)
    requires IsRecord(over) && IsRecord(under) && x <= RECORD_LEN
    ensures IsRecord(over[..x] + under[x..])
  {
    HeaderBytes(over);
    HeaderBytes(under);
    HeaderBytes(over[..x] + under[x..]);
  }

  lemma {:induction false} EnoughBudget(m: Meeting, budget: nat)
    requires |Records(Within(m, budget))| < budget
    ensures Within(m, budget) == m
  {
    match m
    case Done =>
    case Meet(_, WholeRecord(_), rest) => EnoughBudget(rest, budget - 1);
    case Meet(_, _, rest) => EnoughBudget(rest, budget);
  }

  /** A scan without a budget meets every record of a sink. */
  lemma WholeSinkIsMet(records: seq<bytes>)
    requires AreRecords(records)
    ensures Records(MetIn(Sink(records))) == records && Foreigns(MetIn(Sink(records))) == []
  {
    var budget, file := |records| + 1, Sink(records) + [];
    SinkIsMet(records, [], budget);
    assert Handed(file, budget).records == records;
    EnoughBudget(MetIn(file), budget);
    assert file == Sink(records);
  }

  // ------------------------------------------------ a compaction that stops part-way

  /** The records in the file after q whole records and x more bytes were copied down by j records. */
  function Torn(records: seq<bytes>, j: nat, q: nat, x: nat): seq<bytes>
    requires j + q <= |records| && x < RECORD_LEN && (x > 0 ==> j + q < |records|)
    requires AreRecords(records)
  {
    records[j..j + q]
    + if x == 0 then records[q..] else [records[j + q][..x] + records[q][x..]] + records[q + 1..]
  }

  lemma WithinRest(b: bytes, c: nat, x: nat)
    requires c + x <= |b|
    ensures b[c + x..] == b[c..][x..] && b[c..c + x] == b[c..][..x]
  {
  }

  lemma SplitFirst(first: bytes, rest: bytes, x: nat)
    requires x <= |first|
    ensures (first + rest)[x..] == first[x..] + rest && (first + rest)[..x] == first[..x]
  {
  }

  /** The bytes of a sink from x bytes into its k-th record on. */
  lemma SinkFrom(records: seq<bytes>, k: nat, x: nat)
    requires k < |records| && x <= RECORD_LEN && AreRecords(records)
    ensures |Sink(records)| == |records| * RECORD_LEN
    ensures Sink(records)[k * RECORD_LEN + x..] == records[k][x..] + Sink(records[k + 1..])
    ensures Sink(records)[k * RECORD_LEN..k * RECORD_LEN + x] == records[k][..x]
  {
    SinkSplits(records, k);
    assert Sink(records[k..]) == records[k] + Sink(records[k + 1..]) by {
      assert records[k..][1..] == records[k + 1..];
    }
    WithinRest(Sink(records), k * RECORD_LEN, x);
    SplitFirst(records[k], Sink(records[k + 1..]), x);
  }

  /** q records of a sink, from its j-th on. */
  lemma SinkMiddle(records: seq<bytes>, j: nat, q: nat)
    requires j + q <= |records| && AreRecords(records)
    ensures |Sink(records)| == |records| * RECORD_LEN
    ensures Sink(records)[j * RECORD_LEN..(j + q) * RECORD_LEN] == Sink(records[j..j + q])
  {
    SinkSplits(records, j);
    var rest := Sink(records)[j * RECORD_LEN..];
    SinkSplits(records[j..], q);
    assert records[j..][..q] == records[j..j + q];
    assert Sink(records)[j * RECORD_LEN..(j + q) * RECORD_LEN] == rest[..q * RECORD_LEN];
  }

  lemma ProgressIs(file: bytes, c: nat, w: nat, front: bytes, back: bytes)
    requires c + w <= |file| && file[c..c + w] == front && file[w..] == back
    ensures Progress(file, c, w) == front + back
  {
  }

  /** A file whose compaction stopped between two records. */
  lemma ProgressByRecords(records: seq<bytes>, j: nat, q: nat)
    requires j + q <= |records| && AreRecords(records)
    ensures |Sink(records)| == |records| * RECORD_LEN
    ensures Progress(Sink(records), j * RECORD_LEN, q * RECORD_LEN) == Sink(Torn(records, j, q, 0))
  {
    SinkMiddle(records, j, q);
    SinkSplits(records, q);
    ProgressIs(Sink(records), j * RECORD_LEN, q * RECORD_LEN, Sink(records[j..j + q]), Sink(records[q..]));
    SinkJoins(records[j..j + q], records[q..]);
  }

  lemma SliceJoins(b: bytes, c: nat, d: nat, e: nat)
    requires c <= d <= e <= |b|
    ensures b[c..e] == b[c..d] + b[d..e]
  {
  }

  /** The front of a file whose compaction stopped inside a record. */
  lemma FrontWithinRecord(records: seq<bytes>, j: nat, q: nat, x: nat)
    requires j + q < |records| && x < RECORD_LEN && AreRecords(records)
    ensures |Sink(records)| == |records| * RECORD_LEN
    ensures Sink(records)[j * RECORD_LEN..(j + q) * RECORD_LEN + x] == Sink(records[j..j + q]) + records[j + q][..x]
  {
    SinkMiddle(records, j, q);
    SinkFrom(records, j + q, x);
    SliceJoins(Sink(records), j * RECORD_LEN, (j + q) * RECORD_LEN, (j + q) * RECORD_LEN + x);
  }

  lemma TornSink(records: seq<bytes>, j: nat, q: nat, x: nat)
    requires j + q < |records| && 0 < x < RECORD_LEN && AreRecords(records)
    ensures Sink(Torn(records, j, q, x))
      == (Sink(records[j..j + q]) + records[j + q][..x]) + (records[q][x..] + Sink(records[q + 1..]))
  {
    var torn := [records[j + q][..x] + records[q][x..]] + records[q + 1..];
    assert torn[1..] == records[q + 1..];
    SinkJoins(records[j..j + q], torn);
    Regrouped(Sink(records[j..j + q]), records[j + q][..x], records[q][x..], Sink(records[q + 1..]));
  }

  /** A file whose compaction stopped inside a record. */
  lemma ProgressWithinRecord(records: seq<bytes>, j: nat, q: nat, x: nat)
    requires j + q < |records| && 0 < x < RECORD_LEN && AreRecords(records)
    ensures |Sink(records)| == |records| * RECORD_LEN
    ensures Progress(Sink(records), j * RECORD_LEN, q * RECORD_LEN + x) == Sink(Torn(records, j, q, x))
  {
    hide Sink, IsRecord, Torn;
    var file, c, w := Sink(records), j * RECORD_LEN, q * RECORD_LEN + x;
    FrontWithinRecord(records, j, q, x);
    assert file[c..c + w] == Sink(records[j..j + q]) + records[j + q][..x];
    SinkFrom(records, q, x);
    assert file[w..] == records[q][x..] + Sink(records[q + 1..]);
    TornSink(records, j, q, x);
  }

  lemma Regrouped(a: bytes, b: bytes, c: bytes, d: bytes)
    ensures (a + b) + (c + d) == a + ((b + c) + d)
  {
  }

  lemma TornAreRecords(records: seq<bytes>, j: nat, q: nat, x: nat)
    requires j + q <= |records| && x < RECORD_LEN && (x > 0 ==> j + q < |records|)
    requires AreRecords(records)
    ensures AreRecords(Torn(records, j, q, x))
  {
    if x > 0 {
      TornIsRecord(records[j + q], records[q], x);
    }
  }

  /** The records from the j-th on are all among those found, in order: up to the k-th at the front, the others at the end. */
  ghost predicate Intact(records: seq<bytes>, j: nat, k: nat, found: seq<bytes>)
    requires j <= k <= |records|
  {
    exists between :: found == records[j..k] + between + records[k..]
  }

  lemma IntactAround(records: seq<bytes>, j: nat, k: nat, mixed: seq<bytes>, n: nat)
    requires j <= k <= |records| && n <= k
    ensures Intact(records, j, k, records[j..k] + (mixed + records[n..]))
  {
    var between := mixed + records[n..k];
    assert mixed + records[n..] == between + records[k..];
    JoinsEitherWay(records[j..k], between, records[k..]);
  }

  lemma TornHolds(records: seq<bytes>, j: nat, q: nat, x: nat)
    requires 1 <= j && j + q <= |records| && x < RECORD_LEN && (x > 0 ==> j + q < |records|)
    requires AreRecords(records)
    ensures Intact(records, j, j + q, Torn(records, j, q, x))
  {
    if x == 0 {
      IntactAround(records, j, j + q, [], q);
      assert [] + records[q..] == records[q..];
    } else {
      IntactAround(records, j, j + q, [records[j + q][..x] + records[q][x..]], q + 1);
    }
  }

  /** A file whose compaction stopped part-way is still a sink of whole records. */
  lemma ProgressIsSink(records: seq<bytes>, j: nat, q: nat, x: nat)
    requires j + q <= |records| && x < RECORD_LEN && (x > 0 ==> j + q < |records|)
    requires AreRecords(records)
    ensures |Sink(records)| == |records| * RECORD_LEN
    ensures Progress(Sink(records), j * RECORD_LEN, q * RECORD_LEN + x) == Sink(Torn(records, j, q, x))
    ensures Records(MetIn(Progress(Sink(records), j * RECORD_LEN, q * RECORD_LEN + x))) == Torn(records, j, q, x)
  {
    if x == 0 {
      ProgressByRecords(records, j, q);
    } else {
      ProgressWithinRecord(records, j, q, x);
    }
    TornAreRecords(records, j, q, x);
    WholeSinkIsMet(Torn(records, j, q, x));
  }

  /**
   Wherever the copy stops, the next scan still meets every record not yet handed over, whole and in
   order: the first q of them at the front, the others where they always were.
   */
  lemma InterruptedCompactionKeeps(records: seq<bytes>, j: nat, q: nat, x: nat)
    requires 1 <= j && j + q <= |records| && x < RECORD_LEN && (x > 0 ==> j + q < |records|)
    requires AreRecords(records)
    ensures |Sink(records)| == |records| * RECORD_LEN
    ensures Intact(records, j, j + q, Records(MetIn(Progress(Sink(records), j * RECORD_LEN, q * RECORD_LEN + x))))
  {
    ProgressIsSink(records, j, q, x);
    TornHolds(records, j, q, x);
  }

  // ----------------------------------------------------------- when nothing is lost

  /** Reads that give something until the end, writes that take what they are given, and a working truncate. */
  ghost predicate Faultless(io: CompactIo) {
    io.opens && io.truncates && forall i :: io.rounds(i).read > 0 && io.rounds(i).wrote >= CHUNK_LEN
  }

  /** Without a fault a compaction leaves exactly the bytes from `consumed` on, whatever the chunk sizes. */
  lemma FaultlessCompactionCompletes(content: bytes, consumed: nat, io: CompactIo)
    requires consumed <= |content| && Faultless(io)
    ensures EndingOf(|content|, consumed, io) == Ran(|content| - consumed, true)
    ensures Left(content, consumed, EndingOf(|content|, consumed, io)) == content[consumed..]
  {
    FaultlessRun(|content|, consumed, io, 0, 0);
  }

  lemma {:induction false} FaultlessRun(size: nat, consumed: nat, io: CompactIo, done: nat, i: nat)
    requires consumed + done <= size && Faultless(io)
    ensures EndingFrom(size, consumed, io, done, i) == Ran(size - consumed, true)
    decreases size - done
  {
    var n := ReadSize(size, consumed + done, io.rounds(i));
    if n > 0 {
      FaultlessRun(size, consumed, io, done + n, i + 1);
    }
  }

  /** From the i-th round on every write is whole until a read gives nothing before the end. */
  ghost predicate ReadFailsEarly(size: nat, at: nat, io: CompactIo, i: nat)
    requires at <= size
    decreases size - at
  {
    var n := ReadSize(size, at, io.rounds(i));
    at < size && (n == 0 || (io.rounds(i).wrote >= n && ReadFailsEarly(size, at + n, io, i + 1)))
  }

  /** The file opens, a read fails before its end with every earlier write whole, and the truncate works. */
  ghost predicate CutsEarly(size: nat, consumed: nat, io: CompactIo)
    requires consumed <= size
  {
    io.opens && io.truncates && ReadFailsEarly(size, consumed, io, 0)
  }

  lemma {:induction false} ShortRunIff(size: nat, consumed: nat, io: CompactIo, done: nat, i: nat)
    requires consumed + done <= size
    ensures var ending := EndingFrom(size, consumed, io, done, i);
      ending.Ran? && consumed + ending.done < size <==> ReadFailsEarly(size, consumed + done, io, i)
    ensures var ending := EndingFrom(size, consumed, io, done, i);
      ending.Ran? ==> ending.truncated == io.truncates
    decreases size - done
  {
    var n := ReadSize(size, consumed + done, io.rounds(i));
    if n > 0 && io.rounds(i).wrote >= n {
      ShortRunIff(size, consumed, io, done + n, i + 1);
    }
  }

  /** The file is cut before everything was copied exactly if the input and output go that way. */
  lemma CutShortIff(size: nat, consumed: nat, io: CompactIo)
    requires consumed <= size
    ensures CutShort(size, consumed, EndingOf(size, consumed, io)) <==> CutsEarly(size, consumed, io)
  {
    ShortRunIff(size, consumed, io, 0, 0);
  }

  lemma {:induction false} RecordsFit(look: Looks, size: nat, at: nat)
    requires Sane(look, size) && at <= size
    ensures |Records(Met(look, size, at))| * RECORD_LEN <= size - at
    decreases size - at
  {
    if at + HEADER_LEN <= size {
      RecordsFit(look, size, if look(at).Garbage? then at + 1 else at + |look(at).text|);
    }
  }

  /** Every record not yet handed over is still met by the next scan, as often as before. */
  ghost predicate Kept(records: seq<bytes>, j: nat, left: bytes)
    requires j <= |records|
  {
    multiset(records[j..]) <= multiset(Records(MetIn(left)))
  }

  lemma IntactMeansAll(records: seq<bytes>, j: nat, k: nat, found: seq<bytes>)
    requires j <= k <= |records| && Intact(records, j, k, found)
    ensures multiset(records[j..]) <= multiset(found)
  {
    var between :| found == records[j..k] + between + records[k..];
    assert records[j..] == records[j..k] + records[k..];
  }

  lemma KeptAt(records: seq<bytes>, j: nat, q: nat, x: nat)
    requires 1 <= j && j + q <= |records| && x < RECORD_LEN && (x > 0 ==> j + q < |records|)
    requires AreRecords(records)
    ensures |Sink(records)| == |records| * RECORD_LEN
    ensures Kept(records, j, Progress(Sink(records), j * RECORD_LEN, q * RECORD_LEN + x))
  {
    hide Sink, AreRecords, Progress, MetIn, Intact;
    InterruptedCompactionKeeps(records, j, q, x);
    IntactMeansAll(records, j, j + q, Records(MetIn(Progress(Sink(records), j * RECORD_LEN, q * RECORD_LEN + x))));
  }

  lemma KeptByProgress(records: seq<bytes>, j: nat, done: nat)
    requires 1 <= j <= |records| && j * RECORD_LEN + done <= |records| * RECORD_LEN && AreRecords(records)
    ensures |Sink(records)| == |records| * RECORD_LEN
    ensures Kept(records, j, Progress(Sink(records), j * RECORD_LEN, done))
  {
    var q, x := done / RECORD_LEN, done % RECORD_LEN;
    assert done == q * RECORD_LEN + x;
    KeptAt(records, j, q, x);
  }

  /** Bytes hold at most one record for every record length of them. */
  lemma RecordsFitIn(b: bytes)
    ensures |Records(MetIn(b))| * RECORD_LEN <= |b|
  {
    LooksAreSane(b);
    RecordsFit(LooksOf(b), |b|, 0);
  }

  lemma KeepingTakesRoom(wanted: seq<bytes>, found: seq<bytes>)
    requires multiset(wanted) <= multiset(found)
    ensures |wanted| <= |found|
  {
    assert multiset(found) == multiset(wanted) + (multiset(found) - multiset(wanted));
    assert |multiset(found)| == |found| && |multiset(wanted)| == |wanted|;
  }

  lemma LostByShortTruncate(records: seq<bytes>, j: nat, left: bytes)
    requires j <= |records| && |left| < (|records| - j) * RECORD_LEN
    ensures !Kept(records, j, left)
  {
    RecordsFitIn(left);
    if Kept(records, j, left) {
      KeepingTakesRoom(records[j..], Records(MetIn(left)));
    }
  }

  lemma KeptByCompletion(records: seq<bytes>, j: nat)
    requires j <= |records| && AreRecords(records)
    ensures |Sink(records)| == |records| * RECORD_LEN
    ensures Kept(records, j, Sink(records)[j * RECORD_LEN..])
  {
    SinkSplits(records, j);
    WholeSinkIsMet(records[j..]);
  }

  /** The file was cut before everything had been copied. */
  predicate CutShort(size: nat, consumed: nat, ending: Ending) {
    ending.Ran? && ending.truncated && consumed + ending.done < size
  }

  lemma KeptByTruncate(records: seq<bytes>, j: nat, done: nat)
    requires 1 <= j <= |records| && AreRecords(records)
    requires j * RECORD_LEN + done == |Sink(records)| == |records| * RECORD_LEN
    ensures Kept(records, j, Sink(records)[j * RECORD_LEN..j * RECORD_LEN + done])
  {
    assert Sink(records)[j * RECORD_LEN..j * RECORD_LEN + done] == Sink(records)[j * RECORD_LEN..];
    KeptByCompletion(records, j);
  }

  lemma KeptUnopened(records: seq<bytes>, j: nat)
    requires 1 <= j <= |records| && AreRecords(records)
    ensures |Sink(records)| == |records| * RECORD_LEN
    ensures Kept(records, j, Sink(records))
  {
    KeptByProgress(records, j, 0);
    NothingCopied(Sink(records), j * RECORD_LEN);
  }

  lemma KeptUnlessCutShort(records: seq<bytes>, j: nat, ending: Ending)
    requires 1 <= j <= |records| && AreRecords(records) && |Sink(records)| == |records| * RECORD_LEN
    requires ending.NotOpened? || j * RECORD_LEN + ending.done <= |records| * RECORD_LEN
    requires !CutShort(|Sink(records)|, j * RECORD_LEN, ending)
    ensures Kept(records, j, Left(Sink(records), j * RECORD_LEN, ending))
  {
    hide Sink, AreRecords, Kept, Progress;
    match ending
    case NotOpened => KeptUnopened(records, j);
    case Stopped(done) => KeptByProgress(records, j, done);
    case Ran(done, true) => KeptByTruncate(records, j, done);
    case Ran(done, false) => KeptByProgress(records, j, done);
  }

  lemma LostWhenCutShort(records: seq<bytes>, j: nat, ending: Ending)
    requires j <= |records| && |Sink(records)| == |records| * RECORD_LEN
    requires ending.NotOpened? || j * RECORD_LEN + ending.done <= |records| * RECORD_LEN
    requires CutShort(|Sink(records)|, j * RECORD_LEN, ending)
    ensures !Kept(records, j, Left(Sink(records), j * RECORD_LEN, ending))
  {
    hide Sink, Kept;
    var file, c := Sink(records), j * RECORD_LEN;
    LostByShortTruncate(records, j, file[c..c + ending.done]);
  }

  lemma EndingLosesIff(records: seq<bytes>, j: nat, ending: Ending)
    requires 1 <= j <= |records| && AreRecords(records)
    requires ending.NotOpened? || j * RECORD_LEN + ending.done <= |records| * RECORD_LEN
    ensures |Sink(records)| == |records| * RECORD_LEN
    ensures Kept(records, j, Left(Sink(records), j * RECORD_LEN, ending)) <==>
      !CutShort(|Sink(records)|, j * RECORD_LEN, ending)
  {
    SinkSplits(records, j);
    if CutShort(|Sink(records)|, j * RECORD_LEN, ending) {
      LostWhenCutShort(records, j, ending);
    } else {
      KeptUnlessCutShort(records, j, ending);
    }
  }

  /** What the file holds after the first j records of a sink were compacted away. */
  ghost function Compacted(records: seq<bytes>, j: nat, io: CompactIo): bytes
    requires j <= |records| && AreRecords(records)
  {
    SinkSplits(records, j);
    Left(Sink(records), j * RECORD_LEN, EndingOf(|Sink(records)|, j * RECORD_LEN, io))
  }

  /**
   Compacting a sink of whole records loses one exactly when the file opens, a read fails before its
   end with every earlier write whole, and the truncate then works. Partial writes and failed
   truncates only repeat records.
   */
  lemma CompactionLosesIff(records: seq<bytes>, j: nat, io: CompactIo)
    requires 1 <= j <= |records| && AreRecords(records)
    ensures |Sink(records)| == |records| * RECORD_LEN
    ensures Kept(records, j, Compacted(records, j, io)) <==> !CutsEarly(|Sink(records)|, j * RECORD_LEN, io)
  {
    SinkSplits(records, j);
    CutShortIff(|Sink(records)|, j * RECORD_LEN, io);
    EndingLosesIff(records, j, EndingOf(|Sink(records)|, j * RECORD_LEN, io));
  }

  /** If the very first read fails and the truncate works, every record not yet handed over is gone. */
  lemma {:induction false} FailedReadLosesAll(records: seq<bytes>, j: nat, io: CompactIo)
    requires 1 <= j < |records| && AreRecords(records)
    requires io.opens && io.rounds(0).read <= 0 && io.truncates
    ensures Compacted(records, j, io) == [] && !Kept(records, j, Compacted(records, j, io))
  {
    SinkSplits(records, j);
    CompactionLosesIff(records, j, io);
  }

  // ----------------------------------------------------------- the file is a sink again

  /** The bytes are whole records one after the other. */
  ghost predicate IsSink(b: bytes) {
    var records := Records(MetIn(b));
    AreRecords(records) && b == Sink(records)
  }

  lemma SinksAreSinks(records: seq<bytes>)
    requires AreRecords(records)
    ensures IsSink(Sink(records)) && Records(MetIn(Sink(records))) == records
  {
    WholeSinkIsMet(records);
  }

  lemma ProgressIsSinkAgain(records: seq<bytes>, j: nat, done: nat)
    requires 1 <= j <= |records| && j * RECORD_LEN + done <= |records| * RECORD_LEN && AreRecords(records)
    ensures |Sink(records)| == |records| * RECORD_LEN
    ensures IsSink(Progress(Sink(records), j * RECORD_LEN, done))
  {
    var q, x := done / RECORD_LEN, done % RECORD_LEN;
    assert done == q * RECORD_LEN + x;
    ProgressIsSink(records, j, q, x);
    TornAreRecords(records, j, q, x);
    SinksAreSinks(Torn(records, j, q, x));
  }

  lemma CutIsSinkAgain(records: seq<bytes>, j: nat, done: nat)
    requires 1 <= j <= |records| && AreRecords(records)
    requires j * RECORD_LEN + done == |Sink(records)| == |records| * RECORD_LEN
    ensures IsSink(Sink(records)[j * RECORD_LEN..j * RECORD_LEN + done])
  {
    assert Sink(records)[j * RECORD_LEN..j * RECORD_LEN + done] == Sink(records)[j * RECORD_LEN..];
    SinkSplits(records, j);
    SinksAreSinks(records[j..]);
  }

  /** However a compaction ended, unless it cut the file early, whole records are left. */
  lemma LeftIsSink(records: seq<bytes>, j: nat, ending: Ending)
    requires 1 <= j <= |records| && AreRecords(records) && |Sink(records)| == |records| * RECORD_LEN
    requires ending.NotOpened? || j * RECORD_LEN + ending.done <= |records| * RECORD_LEN
    requires !CutShort(|Sink(records)|, j * RECORD_LEN, ending)
    ensures IsSink(Left(Sink(records), j * RECORD_LEN, ending))
  {
    hide Sink, AreRecords, IsSink, Progress;
    match ending
    case NotOpened => SinksAreSinks(records);
    case Stopped(done) => ProgressIsSinkAgain(records, j, done);
    case Ran(done, true) => CutIsSinkAgain(records, j, done);
    case Ran(done, false) => ProgressIsSinkAgain(records, j, done);
  }

  /** A compaction that does not cut early leaves a sink again, with every record not yet handed over. */
  lemma CompactedKeeps(records: seq<bytes>, j: nat, io: CompactIo)
    requires 1 <= j <= |records| && AreRecords(records) && |Sink(records)| == |records| * RECORD_LEN
    requires !CutsEarly(|Sink(records)|, j * RECORD_LEN, io)
    ensures IsSink(Compacted(records, j, io)) && Kept(records, j, Compacted(records, j, io))
  {
    CutShortIff(|Sink(records)|, j * RECORD_LEN, io);
    CompactionLosesIff(records, j, io);
    LeftIsSink(records, j, EndingOf(|Sink(records)|, j * RECORD_LEN, io));
  }
}
