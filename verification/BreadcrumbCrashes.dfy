/** What the crash handler can find in the breadcrumb ring, wherever it stops the writer. */
module BreadcrumbCrashes {
  import opened Common
  import opened Probing
  import opened Breadcrumbs

  // ------------------------------------------------------------ slots of pushes

  /** The slot the i-th push goes to. */
  function Slot(i: nat, capacity: nat): (slot: nat)
    requires 0 < capacity
    ensures slot < capacity
  {
    if i < capacity then i else Slot(i - capacity, capacity)
  }

  lemma {:induction false} SlotPlus(i: nat, d: nat, capacity: nat)
    requires 0 < capacity && d <= capacity
    ensures Slot(i + d, capacity) == Wrap(Slot(i, capacity) + d, capacity)
  {
    if i >= capacity {
      SlotPlus(i - capacity, d, capacity);
    }
  }

  /** The ring after these pushes: each of the last ones is in its slot. */
  ghost predicate Recorded(r: Ring, pushed: seq<Message>) {
    var n := |r.entries|;
    && Shaped(r)
    && r.written == r.seqNo == |pushed| && r.head == Slot(|pushed|, n)
    && forall i :: 0 <= i < |pushed| <= i + n ==> r.entries[Slot(i, n)] == Complete(pushed[i], i + 1)
  }

  /** A finished push adds its message to the record. */
  lemma PushRecords(r: Ring, pushed: seq<Message>, m: Message)
    requires Recorded(r, pushed)
    ensures Recorded(Stage(r, m, DONE), pushed + [m])
  {
    StageEnds(r, m);
    var n, r', pushed' := |r.entries|, Stage(r, m, DONE), pushed + [m];
    assert r'.entries == r.entries[r.head := Complete(m, |pushed| + 1)];
    SlotPlus(|pushed|, 1, n);
    forall i | 0 <= i < |pushed'| <= i + n
      ensures r'.entries[Slot(i, n)] == Complete(pushed'[i], i + 1)
    {
      SlotPlus(i, |pushed| - i, n);
      if i < |pushed| {
        assert r.entries[Slot(i, n)] == Complete(pushed[i], i + 1);
      }
    }
  }

  lemma WindowSlot(total: nat, n: nat, count: nat, j: nat)
    requires 0 < n && j < count <= total && count <= n
    ensures Wrap(Slot(total, n) + n - count + j, n) == Slot(total - count + j, n)
  {
    SlotPlus(total - count + j, count - j, n);
  }

  /** The last `count` pushes as finished entries, oldest first. */
  function Tail(pushed: seq<Message>, count: nat): seq<Crumb>
    requires count <= |pushed|
  {
    seq(count, j requires 0 <= j < count => Complete(pushed[|pushed| - count + j], |pushed| - count + j + 1))
  }

  lemma WindowIsTail(r: Ring, pushed: seq<Message>, count: nat)
    requires Recorded(r, pushed) && count <= |pushed| && count <= |r.entries|
    ensures Window(r, count) == Tail(pushed, count)
  {
    var n := |r.entries|;
    forall j | 0 <= j < count
      ensures Window(r, count)[j] == Tail(pushed, count)[j]
    {
      WindowSlot(|pushed|, n, count, j);
      assert r.entries[Slot(|pushed| - count + j, n)] == Complete(pushed[|pushed| - count + j], |pushed| - count + j + 1);
    }
  }

  lemma {:induction false} AllPublished(crumbs: seq<Crumb>)
    requires forall i :: 0 <= i < |crumbs| ==> crumbs[i].seqNo != 0
    ensures Published(crumbs) == crumbs
    decreases |crumbs|
  {
    if crumbs != [] {
      AllPublished(crumbs[..|crumbs| - 1]);
    }
  }

  lemma PublishedOneMore(crumbs: seq<Crumb>, last: Crumb)
    ensures Published(crumbs + [last]) == Published(crumbs) + if last.seqNo == 0 then [] else [last]
  {
    assert (crumbs + [last])[..|crumbs|] == crumbs;
  }

  lemma {:induction false} SkippedOrKept(first: Crumb, rest: seq<Crumb>)
    requires forall i :: 0 <= i < |rest| ==> rest[i].seqNo != 0
    ensures Published([first] + rest) == if first.seqNo == 0 then rest else [first] + rest
    decreases |rest|
  {
    if rest == [] {
      PublishedOneMore([], first);
      assert [] + [first] == [first] == [first] + rest;
    } else {
      var front, last := rest[..|rest| - 1], rest[|rest| - 1];
      SkippedOrKept(first, front);
      JoinsEitherWay([first], front, [last]);
      assert rest == front + [last];
      PublishedOneMore([first] + front, last);
    }
  }

  // -------------------------------------------------------- the writer stops anywhere

  /** How many entries the snapshot window spans when the writer stopped at this stage. */
  function Span(pushed: seq<Message>, stage: nat, capacity: nat, max: nat): nat {
    Min(Min(|pushed| + if stage >= DONE then 1 else 0, capacity), max)
  }

  /** The window takes in the very slot the writer is in. */
  predicate Overlaps(pushed: seq<Message>, stage: nat, capacity: nat, max: nat) {
    stage < MOVED && Span(pushed, stage, capacity, max) == capacity
  }

  /** The entry being written is in the window only as its first, and only if the window is the whole ring. */
  lemma OnlyFirstIsHead(head: nat, n: nat, span: nat, j: nat)
    requires head < n && j < span <= n
    ensures Wrap(head + n - span + j, n) == head <==> span == n && j == 0
  {
  }

  lemma WindowBeforeMoving(r: Ring, m: Message, stage: nat, span: nat)
    requires Shaped(r) && stage < MOVED && span <= |r.entries|
    ensures Window(Stage(r, m, stage), span) ==
      if span == |r.entries| then Window(r, span)[0 := InFlight(r.entries[r.head], m, r.seqNo + 1, stage)]
      else Window(r, span)
  {
    var n := |r.entries|;
    forall j | 0 <= j < span
      ensures Window(Stage(r, m, stage), span)[j] ==
        if span == n && j == 0 then InFlight(r.entries[r.head], m, r.seqNo + 1, stage) else Window(r, span)[j]
    {
      OnlyFirstIsHead(r.head, n, span, j);
    }
  }

  /** The window before the head has moved: only its first entry can be the one being written. */
  lemma WindowWhileWriting(r: Ring, pushed: seq<Message>, m: Message, stage: nat, max: nat)
    requires Recorded(r, pushed) && stage < MOVED
    ensures var n, span := |r.entries|, Span(pushed, stage, |r.entries|, max);
      Window(Stage(r, m, stage), span) ==
        if span == n then [InFlight(r.entries[r.head], m, r.seqNo + 1, stage)] + Tail(pushed, n - 1)
        else Tail(pushed, span)
  {
    var n, span := |r.entries|, Span(pushed, stage, |r.entries|, max);
    WindowBeforeMoving(r, m, stage, span);
    WindowIsTail(r, pushed, span);
    if span == n {
      assert Tail(pushed, n)[1..] == Tail(pushed, n - 1);
    }
  }

  /** Once the head has moved the writer is as good as done, but for the count of pushes. */
  lemma SnapshotAfterMoving(r: Ring, pushed: seq<Message>, m: Message, stage: nat, max: nat)
    requires Recorded(r, pushed) && MOVED <= stage <= DONE
    ensures SnapshotOf(Stage(r, m, stage), max) == Tail(pushed + [m], Span(pushed, stage, |r.entries|, max))
  {
    var span, s, done := Span(pushed, stage, |r.entries|, max), Stage(r, m, stage), Stage(r, m, DONE);
    PushRecords(r, pushed, m);
    FinishedLabel(r, m, stage);
    FinishedLabel(r, m, DONE);
    assert s.entries == done.entries;
    assert Window(s, span) == Window(done, span);
    WindowIsTail(done, pushed + [m], span);
    AllPublished(Tail(pushed + [m], span));
  }

  lemma TailIsNumbered(pushed: seq<Message>, count: nat)
    requires count <= |pushed|
    ensures forall i :: 0 <= i < |Tail(pushed, count)| ==> Tail(pushed, count)[i].seqNo != 0
  {
    var tail := Tail(pushed, count);
    forall i | 0 <= i < |tail|
      ensures tail[i].seqNo != 0
    {
      assert tail[i] == Complete(pushed[|pushed| - count + i], |pushed| - count + i + 1);
    }
  }

  lemma OverlappingSnapshot(r: Ring, pushed: seq<Message>, m: Message, stage: nat, max: nat)
    requires Recorded(r, pushed) && stage < MOVED && Overlaps(pushed, stage, |r.entries|, max)
    ensures SnapshotOf(Stage(r, m, stage), max)
         == Published([InFlight(r.entries[r.head], m, r.seqNo + 1, stage)] + Tail(pushed, |r.entries| - 1))
  {
    WindowWhileWriting(r, pushed, m, stage, max);
  }

  /** While the writer is in the slot a full window begins with, that entry is skipped, or comes first. */
  lemma SnapshotOverlapping(r: Ring, pushed: seq<Message>, m: Message, stage: nat, max: nat)
    requires Recorded(r, pushed) && RETRACTED <= stage < MOVED && Overlaps(pushed, stage, |r.entries|, max)
    ensures var tail := Tail(pushed, |r.entries| - 1);
      SnapshotOf(Stage(r, m, stage), max) == if stage < PUBLISHED then tail else [Complete(m, |pushed| + 1)] + tail
  {
    OverlappingSnapshot(r, pushed, m, stage, max);
    FinishedLabel(r, m, stage);
    TailIsNumbered(pushed, |r.entries| - 1);
    SkippedOrKept(InFlight(r.entries[r.head], m, r.seqNo + 1, stage), Tail(pushed, |r.entries| - 1));
  }

  lemma SnapshotBeforeWriting(r: Ring, pushed: seq<Message>, m: Message, max: nat)
    requires Recorded(r, pushed)
    ensures SnapshotOf(Stage(r, m, 0), max) == Tail(pushed, Span(pushed, 0, |r.entries|, max))
  {
    var span := Span(pushed, 0, |r.entries|, max);
    StageEnds(r, m);
    WindowIsTail(r, pushed, span);
    AllPublished(Tail(pushed, span));
  }

  lemma SnapshotApart(r: Ring, pushed: seq<Message>, m: Message, stage: nat, max: nat)
    requires Recorded(r, pushed) && stage < MOVED && Span(pushed, stage, |r.entries|, max) < |r.entries|
    ensures SnapshotOf(Stage(r, m, stage), max) == Tail(pushed, Span(pushed, stage, |r.entries|, max))
  {
    WindowWhileWriting(r, pushed, m, stage, max);
    AllPublished(Tail(pushed, Span(pushed, stage, |r.entries|, max)));
  }

  /**
   Stop the writer after any number of its writes, after any history. Once the head has moved the
   snapshot is the run of most recent pushes including the new one; before that, the run without it.
   The one exception is an overlapping window read between publishing and moving the head.
   */
  lemma StoppedSnapshot(r: Ring, pushed: seq<Message>, m: Message, stage: nat, max: nat)
    requires Recorded(r, pushed) && stage <= DONE
    ensures var n, span := |r.entries|, Span(pushed, stage, |r.entries|, max);
      SnapshotOf(Stage(r, m, stage), max) ==
        if stage >= MOVED then Tail(pushed + [m], span)
        else if span < n || stage < RETRACTED then Tail(pushed, span)
        else if stage < PUBLISHED then Tail(pushed, n - 1)
        else [Complete(m, |pushed| + 1)] + Tail(pushed, n - 1)
  {
    hide SnapshotOf, Stage, Tail;
    var n, span := |r.entries|, Span(pushed, stage, |r.entries|, max);
    if stage >= MOVED {
      SnapshotAfterMoving(r, pushed, m, stage, max);
    } else if span < n {
      SnapshotApart(r, pushed, m, stage, max);
    } else if stage < RETRACTED {
      SnapshotBeforeWriting(r, pushed, m, max);
    } else {
      SnapshotOverlapping(r, pushed, m, stage, max);
    }
  }

  /** From publishing on the entry is complete. */
  lemma FinishedLabel(r: Ring, m: Message, stage: nat)
    requires Shaped(r)
    ensures stage >= PUBLISHED ==> InFlight(r.entries[r.head], m, r.seqNo + 1, stage) == Complete(m, r.seqNo + 1)
    ensures RETRACTED <= stage < PUBLISHED ==> InFlight(r.entries[r.head], m, r.seqNo + 1, stage).seqNo == 0
  {
    if stage >= PUBLISHED {
      assert InFlight(r.entries[r.head], m, r.seqNo + 1, stage).text == Label(m);
    }
  }

  /** Oldest first and without a gap. */
  ghost predicate InOrder(crumbs: seq<Crumb>) {
    forall i :: 0 <= i < |crumbs| - 1 ==> crumbs[i + 1].seqNo == crumbs[i].seqNo + 1
  }

  lemma TailInOrder(pushed: seq<Message>, count: nat)
    requires count <= |pushed|
    ensures InOrder(Tail(pushed, count))
  {
    var tail := Tail(pushed, count);
    forall i | 0 <= i < |tail| - 1
      ensures tail[i + 1].seqNo == tail[i].seqNo + 1
    {
      var k := |pushed| - count + i;
      assert tail[i] == Complete(pushed[k], k + 1) && tail[i + 1] == Complete(pushed[k + 1], k + 2);
    }
  }

  /** The entries are those of the last messages, oldest first, each as its push asked for it. */
  ghost predicate TellsLast(entries: seq<Crumb>, all: seq<Message>) {
    && |entries| <= |all|
    && forall i :: 0 <= i < |entries| ==>
         var k := |all| - |entries| + i;
         Describes(entries[i], all[k], k + 1)
  }

  lemma TailTellsLast(pushed: seq<Message>, count: nat)
    requires count <= |pushed|
    ensures TellsLast(Tail(pushed, count), pushed)
  {
    forall i | 0 <= i < count
      ensures Describes(Tail(pushed, count)[i], pushed[|pushed| - count + i], |pushed| - count + i + 1)
    {
      CompleteDescribes(pushed[|pushed| - count + i], |pushed| - count + i + 1);
    }
  }

  /** A snapshot runs without a gap, oldest first, unless it overlaps the slot being written just after that was published. */
  lemma SnapshotInOrderIff(r: Ring, pushed: seq<Message>, m: Message, stage: nat, max: nat)
    requires Recorded(r, pushed) && stage <= DONE && 1 < |r.entries|
    ensures InOrder(SnapshotOf(Stage(r, m, stage), max))
      <==> !(stage == PUBLISHED && Overlaps(pushed, stage, |r.entries|, max))
  {
    StoppedSnapshot(r, pushed, m, stage, max);
    var n, span := |r.entries|, Span(pushed, stage, |r.entries|, max);
    if stage >= MOVED {
      TailInOrder(pushed + [m], span);
    } else if span < n || stage < RETRACTED {
      TailInOrder(pushed, span);
    } else if stage < PUBLISHED {
      TailInOrder(pushed, n - 1);
    } else {
      var found := SnapshotOf(Stage(r, m, stage), max);
      assert found[0 + 1] == Tail(pushed, n - 1)[0];
      assert found[0 + 1].seqNo != found[0].seqNo + 1;
    }
  }

  /** With fewer entries asked for than the ring holds, every stopping point gives exactly the most recent pushes. */
  lemma SmallSnapshotsAreExact(r: Ring, pushed: seq<Message>, m: Message, stage: nat, max: nat)
    requires Recorded(r, pushed) && stage <= DONE && max < |r.entries|
    ensures SnapshotOf(Stage(r, m, stage), max) ==
      Tail(if stage >= MOVED then pushed + [m] else pushed, Span(pushed, stage, |r.entries|, max))
  {
    StoppedSnapshot(r, pushed, m, stage, max);
  }

  /** The ring after a history of finished pushes. */
  ghost function AfterPushes(empty: Ring, pushed: seq<Message>): (r: Ring)
    requires Shaped(empty)
    ensures Shaped(r) && |r.entries| == |empty.entries|
  {
    if pushed == [] then empty
    else Stage(AfterPushes(empty, pushed[..|pushed| - 1]), pushed[|pushed| - 1], DONE)
  }

  lemma {:induction false} EveryHistoryIsRecorded(empty: Ring, pushed: seq<Message>)
    requires Shaped(empty) && empty.head == empty.seqNo == empty.written == 0
    ensures Recorded(AfterPushes(empty, pushed), pushed)
    decreases |pushed|
  {
    if pushed != [] {
      var front := pushed[..|pushed| - 1];
      EveryHistoryIsRecorded(empty, front);
      PushRecords(AfterPushes(empty, front), front, pushed[|pushed| - 1]);
      assert front + [pushed[|pushed| - 1]] == pushed;
    }
  }

  /**
   After any history, with the next push stopped after any of its writes: a snapshot of fewer entries
   than the ring holds is the run of most recent pushes as of the last head store, oldest first, each
   entry as its push asked for it.
   */
  lemma EveryStopIsExact(empty: Ring, pushed: seq<Message>, m: Message, stage: nat, max: nat)
    requires Shaped(empty) && empty.head == empty.seqNo == empty.written == 0
    requires stage <= DONE && max < |empty.entries|
    ensures var snapshot := SnapshotOf(Stage(AfterPushes(empty, pushed), m, stage), max);
      var all := if stage >= MOVED then pushed + [m] else pushed;
      && snapshot == Tail(all, Span(pushed, stage, |empty.entries|, max))
      && InOrder(snapshot)
      && |snapshot| == Min(|pushed| + if stage >= DONE then 1 else 0, max)
      && TellsLast(snapshot, all)
  {
    hide TellsLast, InOrder, SnapshotOf;
    EveryHistoryIsRecorded(empty, pushed);
    SmallSnapshotsAreExact(AfterPushes(empty, pushed), pushed, m, stage, max);
    TailInOrder(if stage >= MOVED then pushed + [m] else pushed, Span(pushed, stage, |empty.entries|, max));
    TailTellsLast(if stage >= MOVED then pushed + [m] else pushed, Span(pushed, stage, |empty.entries|, max));
  }

  /**
   The crash handler asks for 32 entries. A ring of no more than that, once full and stopped between
   publishing an entry and moving the head, gives them out of order: the newest comes first.
   */
  lemma FullRingReadsOutOfOrder(empty: Ring, pushed: seq<Message>, m: Message)
    requires Shaped(empty) && empty.head == empty.seqNo == empty.written == 0
    requires 1 < |empty.entries| <= CRASH_CRUMBS && |pushed| >= |empty.entries|
    ensures var snapshot := SnapshotOf(Stage(AfterPushes(empty, pushed), m, PUBLISHED), CRASH_CRUMBS);
      && !InOrder(snapshot)
      && |snapshot| == |empty.entries| && snapshot[0] == Complete(m, |pushed| + 1)
  {
    EveryHistoryIsRecorded(empty, pushed);
    StoppedSnapshot(AfterPushes(empty, pushed), pushed, m, PUBLISHED, CRASH_CRUMBS);
    SnapshotInOrderIff(AfterPushes(empty, pushed), pushed, m, PUBLISHED, CRASH_CRUMBS);
  }
}
