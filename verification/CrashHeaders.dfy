/**
 Record headers byte by byte: which are stepped over by their own length, which begin a record, and what
 a drain then keeps.
 */
module CrashHeaders {
  import opened Common
  import opened CrashRecords
  import opened CrashDrain

  /** The length a header gives. */
  function LengthAt(b: bytes, at: nat): nat
    requires at + 8 <= |b|
  {
    b[at + 6] as nat + 256 * b[at + 7] as nat
  }

  /** The magic, any version but 2, and a length that holds at least the header and ends inside the bytes. */
  predicate OfOtherVersion(b: bytes, at: nat)
    requires at + 8 <= |b|
  {
    && b[at] == 0x43 && b[at + 1] == 0x58 && b[at + 2] == 0x42 && b[at + 3] == 0x43
    && !(b[at + 4] == 2 && b[at + 5] == 0)
    && 8 <= LengthAt(b, at) <= |b| - at
  }

  /** The magic, version 2, the length 2160, and at most 32 breadcrumbs. */
  predicate OfThisVersion(b: bytes, at: nat)
    requires at + 2160 <= |b|
  {
    && b[at] == 0x43 && b[at + 1] == 0x58 && b[at + 2] == 0x42 && b[at + 3] == 0x43
    && b[at + 4] == 2 && b[at + 5] == 0
    && b[at + 6] == 0x70 && b[at + 7] == 0x08
    && b[at + 20] <= 32 && b[at + 21] == 0 && b[at + 22] == 0 && b[at + 23] == 0
  }

  lemma ForeignIsOther(b: bytes, at: nat)
    requires at + 8 <= |b|
    ensures Foreign(b, at) <==> OfOtherVersion(b, at)
    ensures U16(b, at + LENGTH_AT) == LengthAt(b, at)
  {
  }

  lemma ValidIsThis(b: bytes, at: nat)
    requires at + 2160 <= |b|
    ensures Valid(b, at) <==> OfThisVersion(b, at)
  {
  }

  /** The bytes of a header decide what lies there. */
  lemma HeaderDecides(b: bytes, at: nat)
    requires at + 8 <= |b|
    ensures Look(b, at) ==
      if OfOtherVersion(b, at) then ForeignRecord(b[at..at + LengthAt(b, at)])
      else if at + 2160 <= |b| && OfThisVersion(b, at) then WholeRecord(b[at..at + 2160])
      else Garbage
  {
    hide Foreign, Valid, OfOtherVersion, OfThisVersion, U16, LengthAt;
    ForeignIsOther(b, at);
    if at + 2160 <= |b| {
      ValidIsThis(b, at);
    }
  }

  /**
   A scan steps over a record of another version by its own length, over one of this version by 2160
   bytes, and else by one byte.
   */
  lemma ScanStepsByHeader(b: bytes, at: nat)
    requires at + 8 <= |b|
    ensures Sane(LooksOf(b), |b|)
    ensures Met(LooksOf(b), |b|, at) ==
      if OfOtherVersion(b, at) then
        Meet(at, ForeignRecord(b[at..at + LengthAt(b, at)]), Met(LooksOf(b), |b|, at + LengthAt(b, at)))
      else if at + 2160 <= |b| && OfThisVersion(b, at) then
        Meet(at, WholeRecord(b[at..at + 2160]), Met(LooksOf(b), |b|, at + 2160))
      else Met(LooksOf(b), |b|, at + 1)
  {
    hide Look;
    HeaderDecides(b, at);
    LooksAreSane(b);
  }

  /** The scan met something at this offset, or passed over it inside something it met. */
  predicate Reached(m: Meeting, p: nat) {
    match m
    case Done => false
    case Meet(at, found, rest) => p == at || (!found.Garbage? && at < p < at + |found.text|) || Reached(rest, p)
  }

  /** Nothing that looks like a record is skipped, unless it lies inside one that was met. */
  lemma {:induction false} NothingIsSkipped(look: Looks, size: nat, at: nat, p: nat)
    requires Sane(look, size) && at <= p && p + HEADER_LEN <= size && !look(p).Garbage?
    ensures Reached(Met(look, size, at), p)
    decreases size - at
  {
    if at < p {
      if look(at).Garbage? {
        NothingIsSkipped(look, size, at + 1, p);
      } else if at + |look(at).text| <= p {
        NothingIsSkipped(look, size, at + |look(at).text|, p);
      }
    }
  }

  // ------------------------------------------------------- files with foreign records

  /** A header of version `v` that gives the length `n`. */
  function HeaderOf(v: nat, n: nat): (header: bytes)
    requires v < 0x10000 && n < 0x10000
    ensures |header| == 8
  {
    [0x43, 0x58, 0x42, 0x43, (v % 256) as byte, (v / 256) as byte, (n % 256) as byte, (n / 256) as byte]
  }

  lemma HeaderStarts(v: nat, n: nat, rest: bytes)
    requires v < 0x10000 && v != 2 && 8 <= n < 0x10000 && n <= 8 + |rest|
    ensures OfOtherVersion(HeaderOf(v, n) + rest, 0)
  {
    var b := HeaderOf(v, n) + rest;
    assert forall i :: 0 <= i < 8 ==> b[i] == HeaderOf(v, n)[i];
    assert LengthAt(b, 0) == n;
  }

  /** A scan whose budget outlasts the records before a foreign one comes to that. */
  lemma {:induction false} ForeignBehind(records: seq<bytes>, tail: bytes, budget: nat)
    requires AreRecords(records) && |tail| >= 8 && OfOtherVersion(tail, 0) && budget > |records|
    ensures var h := Handed(Sink(records) + tail, budget);
      h.foreign != [] && records <= h.records
  {
    if records == [] {
      assert Sink(records) + tail == tail;
      ScanStepsByHeader(tail, 0);
    } else {
      ForeignBehind(records[1..], tail, budget - 1);
      FirstRecordIsMet(records, tail, budget);
      assert records == [records[0]] + records[1..];
    }
  }

  /**
   Behind any records of this version, a record of any other version and any length from its header up, if the read
   takes it in and the budget reaches it: the records are handed over and the file stays as it is.
   */
  lemma OtherVersionsAreKept(records: seq<bytes>, v: nat, n: nat, rest: bytes, budget: nat, io: SinkIo)
    requires AreRecords(records) && budget > |records|
    requires v < 0x10000 && v != 2 && 8 <= n < 0x10000 && n <= 8 + |rest|
    requires io.opens && |Sink(records)| + n <= Min(io.readLimit, 4 * 1024 * 1024)
    ensures var file := Sink(records) + (HeaderOf(v, n) + rest);
      && records <= DrainedFile(file, budget, io).records
      && LeftBy(file, budget, io) == Some(file)
  {
    hide Handed, Sink, HeaderOf;
    var later := HeaderOf(v, n) + rest;
    var file := Sink(records) + later;
    var got := ReadLength(file, io);
    var seen := got - |Sink(records)|;
    assert file[..got] == Sink(records) + later[..seen];
    HeaderIsRead(v, n, rest, seen);
    ForeignBehind(records, later[..seen], budget);
  }

  lemma HeaderIsRead(v: nat, n: nat, rest: bytes, seen: nat)
    requires v < 0x10000 && v != 2 && 8 <= n < 0x10000 && n <= seen <= 8 + |rest|
    ensures OfOtherVersion((HeaderOf(v, n) + rest)[..seen], 0)
  {
    assert (HeaderOf(v, n) + rest)[..seen] == HeaderOf(v, n) + rest[..seen - 8];
    HeaderStarts(v, n, rest[..seen - 8]);
  }
}
