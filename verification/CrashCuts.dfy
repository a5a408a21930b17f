/** Foreign records that the end of a read cuts off: exactly when a drain gives one up, and an input on which it does. */
module CrashCuts {
  import opened Common
  import opened CrashRecords
  import opened CrashCompaction
  import opened CrashReads
  import opened CrashDrain

  lemma RemovedHoldsNoForeign(content: bytes, budget: nat, io: SinkIo)
    requires 0 < budget && DrainedFile(content, budget, io).consumable
    ensures Foreigns(MetIn(content)) == []
  {
    hide Within, Met;
    assert content[..|content|] == content;
    if content == [] {
      NothingInShort(content);
    } else {
      HandedPlusRest(content, budget);
      var h := Handed(content, budget);
      if |h.records| == budget {
        NothingInShort(content[h.end..]);
      }
    }
  }

  lemma NoForeignGivenUp(content: bytes, budget: nat, io: SinkIo)
    requires 0 < budget && !CutsForeign(content, budget, io)
    ensures !ForeignBefore(MetIn(content), GivenUp(content, budget, io))
  {
    hide Handed, ForeignCut, Look, Met, Ordered;
    LooksAreSane(content);
    MetInOrder(LooksOf(content), |content|, 0, 0);
    if DrainedFile(content, budget, io).consumable {
      RemovedHoldsNoForeign(content, budget, io);
      ForeignBeforeIsMet(MetIn(content), |content|);
    } else {
      NoneBeforeStart(LooksOf(content), MetIn(content), 0, |content|, 0);
      if io.opens {
        PartHandsFirst(content, ReadLength(content, io), budget);
      }
    }
  }

  /**
   A drain gives up where a foreign record begins exactly if the read ends inside that record, none lies
   whole before it, and the scan has budget to take a record past its start. It needs no fault: the read
   cap is enough.
   */
  lemma ForeignGivenUpIff(content: bytes, budget: nat, io: SinkIo)
    requires 0 < budget
    ensures ForeignBefore(MetIn(content), GivenUp(content, budget, io)) <==> CutsForeign(content, budget, io)
  {
    hide Handed, Inside, Met, Look;
    if CutsForeign(content, budget, io) {
      var got := ReadLength(content, io);
      ForeignCutHandsOver(content, got, budget);
      OutsideIsMet(MetIn(content), got, GivenUp(content, budget, io));
    } else {
      NoForeignGivenUp(content, budget, io);
    }
  }

  // --------------------------------------------------- a foreign record given up unseen

  lemma {:induction false} ScanPastGarbage(look: Looks, size: nat, at: nat, n: nat)
    requires Sane(look, size) && at <= n <= size && forall i: nat :: at <= i < n ==> look(i).Garbage?
    ensures n + HEADER_LEN <= size ==> Met(look, size, at) == Met(look, size, n)
    decreases n - at
  {
    if at < n && n + HEADER_LEN <= size {
      ScanPastGarbage(look, size, at + 1, n);
    }
  }

  lemma MetPastGarbage(b: bytes, n: nat)
    requires n + HEADER_LEN <= |b| && forall i: nat :: i < n ==> Look(b, i).Garbage?
    ensures MetIn(b) == Shifted(MetIn(b[n..]), n)
  {
    LooksAreSane(b);
    ScanPastGarbage(LooksOf(b), |b|, 0, n);
    MetInRest(b, n);
  }

  /** The header of a record of version 3, one byte longer than a header with a record of this version in it. */
  const LATER_HEADER: bytes := [0x43, 0x58, 0x42, 0x43, 3, 0, 0x79, 0x08]

  function Zeros(n: nat): bytes {
    seq(n, i => 0)
  }

  /** A file with one foreign record, which holds a record of this version and ends with the file. */
  function LaterFile(n: nat, r: bytes, z: byte): bytes {
    Zeros(n) + LATER_HEADER + r + [z]
  }

  lemma MagicBytes(b: bytes, at: nat)
    requires at + 4 <= |b| && U32(b, at) == MAGIC
    ensures b[at] == 0x43 && b[at + 1] == 0x58
  {
  }

  lemma NoMagic(b: bytes, at: nat)
    requires at + HEADER_LEN <= |b| && (b[at] != 0x43 || b[at + 1] != 0x58)
    ensures Look(b, at).Garbage?
  {
    hide U32, U16;
    if U32(b, at) == MAGIC {
      MagicBytes(b, at);
    }
  }

  /** Where nothing starts: in the zeros, at the header when it is cut off, and inside the header. */
  lemma LaterIsGarbage(n: nat, r: bytes, z: byte, size: nat, i: nat)
    requires |r| == RECORD_LEN && i < n + HEADER_LEN && n + HEADER_LEN + RECORD_LEN <= size <= |LaterFile(n, r, z)|
    requires i == n ==> size < |LaterFile(n, r, z)|
    ensures Look(LaterFile(n, r, z)[..size], i).Garbage?
  {
    var b := LaterFile(n, r, z)[..size];
    assert i < n ==> b[i] == 0;
    assert forall j :: 0 <= j < HEADER_LEN ==> b[n + j] == LATER_HEADER[j];
    if i != n {
      NoMagic(b, i);
    }
  }

  lemma LaterStarts(r: bytes, z: byte)
    requires |r| == RECORD_LEN
    ensures var later := LATER_HEADER + r + [z];
      MetIn(later) == Meet(0, ForeignRecord(later), Done)
  {
    var later := LATER_HEADER + r + [z];
    assert forall j :: 0 <= j < HEADER_LEN ==> later[j] == LATER_HEADER[j];
    assert later[0..|later|] == later;
    LooksAreSane(later);
    assert LooksOf(later)(0) == ForeignRecord(later);
    assert Met(LooksOf(later), |later|, |later|) == Done;
  }

  /** The scan of the whole file meets its one foreign record. */
  lemma LaterWhole(n: nat, r: bytes, z: byte)
    requires |r| == RECORD_LEN
    ensures MetIn(LaterFile(n, r, z)) == Meet(n, ForeignRecord(LATER_HEADER + r + [z]), Done)
  {
    hide MetIn, Look;
    var file := LaterFile(n, r, z);
    assert file[..|file|] == file;
    forall i: nat | i < n
      ensures Look(file, i).Garbage?
    {
      LaterIsGarbage(n, r, z, |file|, i);
    }
    MetPastGarbage(file, n);
    assert file[n..] == LATER_HEADER + r + [z];
    LaterStarts(r, z);
  }

  /** The scan of all but its last byte meets the record inside. */
  lemma LaterCut(n: nat, r: bytes, z: byte)
    requires IsRecord(r)
    ensures |LaterFile(n, r, z)| == n + HEADER_LEN + RECORD_LEN + 1
    ensures Handed(LaterFile(n, r, z)[..n + HEADER_LEN + RECORD_LEN], 1) == Handover([r], [], n + HEADER_LEN + RECORD_LEN)
  {
    hide MetIn, Look;
    var got := n + HEADER_LEN + RECORD_LEN;
    var part := LaterFile(n, r, z)[..got];
    forall i: nat | i < n + HEADER_LEN
      ensures Look(part, i).Garbage?
    {
      LaterIsGarbage(n, r, z, got, i);
    }
    MetPastGarbage(part, n + HEADER_LEN);
    assert part[n + HEADER_LEN..] == r + [];
    MetAfterRecord(r, []);
    NothingMet();
    OneRecordHanded(part, n + HEADER_LEN, r);
  }

  lemma NothingMet()
    ensures MetIn([]) == Done
  {
  }

  lemma OneRecordHanded(b: bytes, at: nat, r: bytes)
    requires MetIn(b) == Meet(at, WholeRecord(r), Done) && |r| == RECORD_LEN
    ensures Handed(b, 1) == Handover([r], [], at + RECORD_LEN)
  {
    var m := Meet(at, WholeRecord(r), Done);
    assert Within(m, 1) == m;
    assert Records(m) == [r] && Foreigns(m) == [];
    assert LastEnd(m, 0) == LastEnd(Done, at + |r|) == at + |r|;
    assert HandoverOf(m) == Handover([r], [], at + RECORD_LEN);
  }

  /**
   A read that stops one byte short of such a file, or a read cap that does, gives up the foreign record:
   the record inside it is handed over, and one byte is left.
   */
  lemma ForeignIsGivenUp(n: nat, r: bytes, z: byte, io: SinkIo)
    requires IsRecord(r) && io.opens && Faultless(io.compact)
    requires ReadLength(LaterFile(n, r, z), io) == n + HEADER_LEN + RECORD_LEN
    ensures var file := LaterFile(n, r, z);
      && Foreigns(MetIn(file)) == [LATER_HEADER + r + [z]]
      && DrainedFile(file, 1, io).records == [r] && LeftBy(file, 1, io) == Some([z])
      && ForeignsIn(LeftBy(file, 1, io)) == []
      && CutsForeign(file, 1, io)
  {
    hide Handed, MetIn, LaterFile, ForeignCut;
    LaterWhole(n, r, z);
    LaterCut(n, r, z);
    LeavesTheRest(LaterFile(n, r, z), 1, io);
    LaterTail(n, r, z);
    NothingInShort([z]);
    ForeignGivenUpIff(LaterFile(n, r, z), 1, io);
  }

  lemma LaterTail(n: nat, r: bytes, z: byte)
    requires |r| == RECORD_LEN
    ensures LaterFile(n, r, z)[n + HEADER_LEN + RECORD_LEN..] == [z]
  {
  }

  /** The read cap alone does it: every read gives all it can, and no compaction has a fault. */
  lemma CapGivesUpForeign(r: bytes, z: byte, io: SinkIo)
    requires IsRecord(r) && Reliable(io)
    ensures var file := LaterFile(DRAIN_MAX_BYTES - HEADER_LEN - RECORD_LEN, r, z);
      |Foreigns(MetIn(file))| == 1 && LeftBy(file, 1, io) == Some([z])
  {
    ForeignIsGivenUp(DRAIN_MAX_BYTES - HEADER_LEN - RECORD_LEN, r, z, io);
  }
}
