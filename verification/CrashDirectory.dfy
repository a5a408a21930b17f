/** The directory of sinks, one per process, over any run of crashes and drains. */
module CrashDirectory {
  import opened Common
  import opened CrashRecords
  import opened CrashCompaction
  import opened CrashDrain

  /** A sink file's bytes by the pid in its name. */
  type Sinks = map<nat, bytes>

  /** A listed file: the pid in its name, and how reading and compacting it will go. */
  datatype Entry = Entry(pid: nat, io: SinkIo)

  datatype Delivery = Delivery(pid: nat, record: bytes)

  function Tagged(pid: nat, records: seq<bytes>): seq<Delivery> {
    seq(|records|, i requires 0 <= i < |records| => Delivery(pid, records[i]))
  }

  /** What draining one sink hands over, and what it leaves. */
  ghost function DrainedOne(content: bytes, budget: nat, io: SinkIo): (r: (seq<bytes>, Option<bytes>))
    ensures |r.0| <= budget
  {
    ConsumedIsInside(content, budget, io);
    (DrainedFile(content, budget, io).records, LeftBy(content, budget, io))
  }

  /** Draining the listed sinks in turn until the budget is used up; `skip` are the pids still alive, this one included. */
  ghost function Drained(sinks: Sinks, listed: seq<Entry>, skip: set<nat>, budget: nat, soFar: seq<Delivery>)
    : (Sinks, seq<Delivery>)
    decreases |listed|
  {
    if listed == [] || budget == 0 then (sinks, soFar)
    else
      var pid := listed[0].pid;
      if pid in skip || pid !in sinks then Drained(sinks, listed[1..], skip, budget, soFar)
      else
        var (records, left) := DrainedOne(sinks[pid], budget, listed[0].io);
        Drained(Put(sinks, pid, left), listed[1..], skip, budget - |records|, soFar + Tagged(pid, records))
  }

  function Put(sinks: Sinks, pid: nat, left: Option<bytes>): Sinks {
    if left.None? then sinks - {pid} else sinks[pid := left.value]
  }

  /** This process's sink is there, or not, and holds what it held. */
  ghost predicate Untouched(pid: nat, sinks: Sinks, sinks': Sinks) {
    (pid in sinks' <==> pid in sinks) && (pid in sinks ==> sinks'[pid] == sinks[pid])
  }

  lemma LivingAreUntouched(sinks: Sinks, listed: seq<Entry>, skip: set<nat>, budget: nat, pid: nat)
    requires pid in skip
    ensures Untouched(pid, sinks, Drained(sinks, listed, skip, budget, []).0)
  {
    DrainSkipsTheLiving(sinks, listed, skip, budget, [], pid);
  }

  class SinkDirectory {
    var sinks: Sinks

    constructor ()
      ensures sinks == map[]
    {
      sinks := map[];
    }

    /** Removes a sink that was read to its end, or drops the front that was handed over. */
    method Reclaim(pid: nat, found: int, consumable: bool, consumed: nat, io: SinkIo)
      requires pid in sinks && consumed <= |sinks[pid]|
      modifies this
      ensures sinks == Put(old(sinks), pid, FileAfter(old(sinks)[pid], FileDrain(found, [], consumable, consumed), io))
    {
      if found >= 0 {
        if consumable {
          sinks := sinks - {pid};
        } else if consumed > 0 {
          var file := new SinkFile(sinks[pid]);
          file.Compact(consumed, io.compact);
          sinks := sinks[pid := file.content];
        }
      }
    }

    /** Drains one listed sink. */
    method DrainOne(pid: nat, max: nat, visitor: Visitor, io: SinkIo) returns (found: nat, stop: bool, ghost records: seq<bytes>)
      requires pid in sinks && max > 0 && |visitor.received| < visitor.patience
      modifies this, visitor
      ensures var budget := Min(max, visitor.patience - |old(visitor.received)|);
        var (handed, left) := DrainedOne(old(sinks)[pid], budget, io);
        records == handed && found == |records| <= budget && sinks == Put(old(sinks), pid, left)
      ensures visitor.received == old(visitor.received) + records
      ensures stop == (|visitor.received| >= visitor.patience)
    {
      var content := sinks[pid];
      ghost var budget := Min(max, visitor.patience - |visitor.received|);
      records := DrainedOne(content, budget, io).0;
      ConsumedIsInside(content, budget, io);
      var visited, consumable, consumed;
      visited, stop, consumable, consumed := DrainFile(content, max, visitor, io);
      Reclaim(pid, visited, consumable, consumed, io);
      found := if visited >= 0 then visited else 0;
    }

    method Drain(self: nat, alive: set<nat>, listed: seq<Entry>, max: nat, visitor: Visitor)
      returns (visited: int)
      requires |visitor.received| < visitor.patience
      modifies this, visitor
      ensures max == 0 ==> visited == -1 && sinks == old(sinks) && visitor.received == old(visitor.received)
      ensures max > 0 ==>
        var budget := Min(max, visitor.patience - |old(visitor.received)|);
        var (sinks', delivered) := Drained(old(sinks), listed, alive + {self}, budget, []);
        && sinks == sinks' && visited == |delivered|
        && visitor.received == Received(old(visitor.received), delivered)
      ensures visited <= max
      ensures Untouched(self, old(sinks), sinks) && forall pid :: pid in alive ==> Untouched(pid, old(sinks), sinks)
    {
      hide Drained;
      if max == 0 {
        return -1;
      }
      ghost var budget, before, skip := Min(max, visitor.patience - |visitor.received|), visitor.received, alive + {self};
      ghost var goal := Drained(sinks, listed, skip, budget, []);
      ghost var delivered: seq<Delivery> := [];
      visited := 0;
      var stop, i := false, 0;
      assert listed[0..] == listed;
      while i < |listed| && !stop && visited < max
        invariant 0 <= i <= |listed| && 0 <= visited == |delivered| <= budget
        invariant stop == (|visitor.received| >= visitor.patience)
        invariant visitor.received == Received(before, delivered)
        invariant EntriesAhead(goal, sinks, listed, i, skip, budget - visited, delivered)
      {
        var pid := listed[i].pid;
        if pid != self && pid !in alive && pid in sinks {
          var found;
          found, stop, delivered := DrainEntry(listed, i, max - visited, visitor, goal, skip, before, delivered);
          visited := visited + found;
        } else {
          EntryAhead(goal, sinks, listed, i, skip, budget - visited, delivered);
        }
        i := i + 1;
      }
      NothingAhead(goal, sinks, listed, i, skip, budget - visited, delivered);
      forall pid | pid in skip
        ensures Untouched(pid, old(sinks), sinks)
      {
        LivingAreUntouched(old(sinks), listed, skip, budget, pid);
      }
    }

    /** Drains the i-th listed sink, after which the drain still comes to the same. */
    method DrainEntry(listed: seq<Entry>, i: nat, max: nat, visitor: Visitor, ghost goal: (Sinks, seq<Delivery>),
                      ghost skip: set<nat>, ghost before: seq<bytes>, ghost soFar: seq<Delivery>)
      returns (found: nat, stop: bool, ghost delivered: seq<Delivery>)
      requires i < |listed| && listed[i].pid in sinks && listed[i].pid !in skip
      requires max > 0 && |visitor.received| < visitor.patience && visitor.received == Received(before, soFar)
      requires EntriesAhead(goal, sinks, listed, i, skip, Min(max, visitor.patience - |visitor.received|), soFar)
      modifies this, visitor
      ensures var budget := Min(max, visitor.patience - |old(visitor.received)|);
        found <= budget && EntriesAhead(goal, sinks, listed, i + 1, skip, budget - found, delivered)
      ensures visitor.received == Received(before, delivered) && |delivered| == |soFar| + found
      ensures stop == (|visitor.received| >= visitor.patience)
    {
      ghost var records;
      var pid := listed[i].pid;
      EntryAhead(goal, sinks, listed, i, skip, Min(max, visitor.patience - |visitor.received|), soFar);
      found, stop, records := DrainOne(pid, max, visitor, listed[i].io);
      delivered := soFar + Tagged(pid, records);
      RecordsOfTagged(before, soFar, pid, records);
    }
  }

  function RecordsOf(deliveries: seq<Delivery>): seq<bytes> {
    seq(|deliveries|, i requires 0 <= i < |deliveries| => deliveries[i].record)
  }

  /** What a visitor that had received `before` has received after these deliveries. */
  function Received(before: seq<bytes>, deliveries: seq<Delivery>): (received: seq<bytes>)
    ensures |received| == |before| + |deliveries|
  {
    before + RecordsOf(deliveries)
  }

  lemma RecordsOfTagged(before: seq<bytes>, deliveries: seq<Delivery>, pid: nat, records: seq<bytes>)
    ensures Received(before, deliveries + Tagged(pid, records)) == Received(before, deliveries) + records
  {
    assert RecordsOf(deliveries + Tagged(pid, records)) == RecordsOf(deliveries) + records;
  }

  /** From the i-th listed entry on the drain still comes to the same. */
  ghost predicate EntriesAhead(goal: (Sinks, seq<Delivery>), sinks: Sinks, listed: seq<Entry>, i: nat, skip: set<nat>, budget: nat,
                        soFar: seq<Delivery>) {
    i <= |listed| && goal == Drained(sinks, listed[i..], skip, budget, soFar)
  }

  lemma EntryAhead(goal: (Sinks, seq<Delivery>), sinks: Sinks, listed: seq<Entry>, i: nat, skip: set<nat>, budget: nat,
                   soFar: seq<Delivery>)
    requires i < |listed| && budget > 0 && EntriesAhead(goal, sinks, listed, i, skip, budget, soFar)
    ensures var pid := listed[i].pid;
      if pid in skip || pid !in sinks then EntriesAhead(goal, sinks, listed, i + 1, skip, budget, soFar)
      else
        var (records, left) := DrainedOne(sinks[pid], budget, listed[i].io);
        EntriesAhead(goal, Put(sinks, pid, left), listed, i + 1, skip, budget - |records|, soFar + Tagged(pid, records))
  {
    assert listed[i..][1..] == listed[i + 1..];
  }

  lemma NothingAhead(goal: (Sinks, seq<Delivery>), sinks: Sinks, listed: seq<Entry>, i: nat, skip: set<nat>, budget: nat,
                     soFar: seq<Delivery>)
    requires EntriesAhead(goal, sinks, listed, i, skip, budget, soFar) && (i == |listed| || budget == 0)
    ensures goal == (sinks, soFar)
  {
  }

  // --------------------------------------------------- every run of crashes and drains

  /** The records delivered from one process's sink. */
  function From(pid: nat, deliveries: seq<Delivery>): seq<bytes> {
    if deliveries == [] then []
    else
      var last, front := deliveries[|deliveries| - 1], From(pid, deliveries[..|deliveries| - 1]);
      if last.pid == pid then front + [last.record] else front
  }

  lemma FromOneMore(pid: nat, deliveries: seq<Delivery>, d: Delivery)
    ensures From(pid, deliveries + [d]) == if d.pid == pid then From(pid, deliveries) + [d.record] else From(pid, deliveries)
  {
    assert (deliveries + [d])[..|deliveries|] == deliveries;
  }

  lemma TaggedSplits(tag: nat, records: seq<bytes>)
    requires records != []
    ensures var front, last := records[..|records| - 1], records[|records| - 1];
      Tagged(tag, records) == Tagged(tag, front) + [Delivery(tag, last)] && records == front + [last]
  {
  }

  lemma {:induction false} FromOwn(pid: nat, deliveries: seq<Delivery>, records: seq<bytes>)
    ensures From(pid, deliveries + Tagged(pid, records)) == From(pid, deliveries) + records
    decreases |records|
  {
    if records == [] {
      assert deliveries + Tagged(pid, records) == deliveries;
    } else {
      var front, last := records[..|records| - 1], records[|records| - 1];
      FromOwn(pid, deliveries, front);
      FromOneMore(pid, deliveries + Tagged(pid, front), Delivery(pid, last));
      TaggedSplits(pid, records);
      JoinsEitherWay(deliveries, Tagged(pid, front), [Delivery(pid, last)]);
      JoinsEitherWay(From(pid, deliveries), front, [last]);
    }
  }

  lemma {:induction false} FromOther(pid: nat, deliveries: seq<Delivery>, tag: nat, records: seq<bytes>)
    requires tag != pid
    ensures From(pid, deliveries + Tagged(tag, records)) == From(pid, deliveries)
    decreases |records|
  {
    if records == [] {
      assert deliveries + Tagged(tag, records) == deliveries;
    } else {
      var front, last := records[..|records| - 1], records[|records| - 1];
      FromOther(pid, deliveries, tag, front);
      FromOneMore(pid, deliveries + Tagged(tag, front), Delivery(tag, last));
      TaggedSplits(tag, records);
      JoinsEitherWay(deliveries, Tagged(tag, front), [Delivery(tag, last)]);
    }
  }

  lemma FromTagged(pid: nat, deliveries: seq<Delivery>, tag: nat, records: seq<bytes>)
    ensures From(pid, deliveries + Tagged(tag, records)) == From(pid, deliveries) + if tag == pid then records else []
  {
    if tag == pid {
      FromOwn(pid, deliveries, records);
    } else {
      FromOther(pid, deliveries, tag, records);
    }
  }

  /**
   What has been delivered from a sink is the front of what was written to it, in order and each
   once; a file holds exactly the rest; and there is a file just when there is a rest.
   */
  ghost predicate AccountedFor(sinks: Sinks, pid: nat, written: seq<bytes>, delivered: seq<bytes>) {
    && AreRecords(written) && delivered <= written
    && if pid in sinks then delivered < written && sinks[pid] == Sink(written[|delivered|..]) else delivered == written
  }

  ghost predicate AccountOf(sinks: Sinks, written: map<nat, seq<bytes>>, delivered: seq<Delivery>, pid: nat) {
    if pid in written then AccountedFor(sinks, pid, written[pid], From(pid, delivered))
    else pid !in sinks && From(pid, delivered) == []
  }

  ghost predicate Accounted(sinks: Sinks, written: map<nat, seq<bytes>>, delivered: seq<Delivery>) {
    forall pid: nat :: AccountOf(sinks, written, delivered, pid)
  }

  ghost predicate AllReliable(listed: seq<Entry>) {
    forall i :: 0 <= i < |listed| ==> Reliable(listed[i].io)
  }

  lemma OneSinkAccounted(sinks: Sinks, pid: nat, written: seq<bytes>, delivered: seq<bytes>, budget: nat, io: SinkIo)
    requires AccountedFor(sinks, pid, written, delivered) && pid in sinks && 0 < budget <= 1024 && Reliable(io)
    ensures var (records, left) := DrainedOne(sinks[pid], budget, io);
      && AccountedFor(Put(sinks, pid, left), pid, written, delivered + records)
      && (|records| < budget ==> left.None?)
  {
    DrainFrom(written, |delivered|, budget, io);
    var (records, left) := DrainedOne(sinks[pid], budget, io);
    assert written[..|delivered|] == delivered;
    var end := Min(|delivered| + budget, |written|);
    assert |delivered + records| == |written[..end]|;
  }

  /** Draining one sink keeps every process's account. */
  lemma EntryKeepsAccounts(sinks: Sinks, written: map<nat, seq<bytes>>, pid: nat, budget: nat, io: SinkIo,
                           soFar: seq<Delivery>)
    requires Accounted(sinks, written, soFar) && pid in sinks && 0 < budget <= 1024 && Reliable(io)
    ensures var (records, left) := DrainedOne(sinks[pid], budget, io);
      Accounted(Put(sinks, pid, left), written, soFar + Tagged(pid, records))
  {
    var (records, left) := DrainedOne(sinks[pid], budget, io);
    assert AccountOf(sinks, written, soFar, pid);
    OneSinkAccounted(sinks, pid, written[pid], From(pid, soFar), budget, io);
    forall p: nat
      ensures AccountOf(Put(sinks, pid, left), written, soFar + Tagged(pid, records), p)
    {
      assert AccountOf(sinks, written, soFar, p);
      FromTagged(p, soFar, pid, records);
    }
  }

  ghost predicate AccountedAfter(drained: (Sinks, seq<Delivery>), written: map<nat, seq<bytes>>) {
    Accounted(drained.0, written, drained.1)
  }

  /** A drain keeps the accounts. */
  lemma {:induction false} DrainKeepsAccounts(sinks: Sinks, written: map<nat, seq<bytes>>, listed: seq<Entry>,
                                              skip: set<nat>, budget: nat, soFar: seq<Delivery>)
    requires Accounted(sinks, written, soFar) && budget <= 1024 && AllReliable(listed)
    ensures AccountedAfter(Drained(sinks, listed, skip, budget, soFar), written)
    decreases |listed|
  {
    if listed != [] && budget > 0 {
      var pid, rest := listed[0].pid, listed[1..];
      if pid in skip || pid !in sinks {
        DrainKeepsAccounts(sinks, written, rest, skip, budget, soFar);
      } else {
        var (records, left) := DrainedOne(sinks[pid], budget, listed[0].io);
        EntryKeepsAccounts(sinks, written, pid, budget, listed[0].io, soFar);
        DrainKeepsAccounts(Put(sinks, pid, left), written, rest, skip, budget - |records|, soFar + Tagged(pid, records));
      }
    }
  }

  /** A drain, whatever the files hold, neither touches nor delivers from the sink of a living process, nor makes a sink. */
  lemma {:induction false} DrainSkipsTheLiving(sinks: Sinks, listed: seq<Entry>, skip: set<nat>, budget: nat,
                                               soFar: seq<Delivery>, pid: nat)
    requires pid in skip || pid !in sinks
    ensures var (sinks', delivered) := Drained(sinks, listed, skip, budget, soFar);
      && (pid in sinks' <==> pid in sinks) && (pid in sinks ==> sinks'[pid] == sinks[pid])
      && From(pid, delivered) == From(pid, soFar)
    decreases |listed|
  {
    if listed != [] && budget > 0 {
      var first, rest := listed[0].pid, listed[1..];
      if first in skip || first !in sinks {
        DrainSkipsTheLiving(sinks, rest, skip, budget, soFar, pid);
      } else {
        var (records, left) := DrainedOne(sinks[first], budget, listed[0].io);
        FromTagged(pid, soFar, first, records);
        DrainSkipsTheLiving(Put(sinks, first, left), rest, skip, budget - |records|, soFar + Tagged(first, records), pid);
      }
    }
  }

  /** A dead process's sink the listing begins with is emptied and removed, unless it uses up the budget. */
  lemma FirstIsDone(sinks: Sinks, written: map<nat, seq<bytes>>, listed: seq<Entry>, skip: set<nat>, budget: nat,
                    soFar: seq<Delivery>)
    requires Accounted(sinks, written, soFar) && 0 < budget <= 1024 && AllReliable(listed)
    requires listed != [] && listed[0].pid !in skip
    ensures var (sinks', delivered) := Drained(sinks, listed, skip, budget, soFar);
      |delivered| < |soFar| + budget ==> listed[0].pid !in sinks'
  {
    hide From, DrainedOne, AccountedFor;
    var pid, rest := listed[0].pid, listed[1..];
    if pid !in sinks {
      DrainSkipsTheLiving(sinks, rest, skip, budget, soFar, pid);
    } else {
      var (records, left) := DrainedOne(sinks[pid], budget, listed[0].io);
      var sinks', soFar' := Put(sinks, pid, left), soFar + Tagged(pid, records);
      DrainedCount(sinks', rest, skip, budget - |records|, soFar');
      if |records| < budget {
        assert AccountOf(sinks, written, soFar, pid);
        OneSinkAccounted(sinks, pid, written[pid], From(pid, soFar), budget, listed[0].io);
        DrainSkipsTheLiving(sinks', rest, skip, budget - |records|, soFar', pid);
      }
    }
  }

  /** A drain that had budget to spare has emptied and removed every dead process's listed sink. */
  lemma {:induction false} SpareBudgetMeansDone(sinks: Sinks, written: map<nat, seq<bytes>>, listed: seq<Entry>,
                                                skip: set<nat>, budget: nat, soFar: seq<Delivery>, i: nat)
    requires Accounted(sinks, written, soFar) && budget <= 1024 && AllReliable(listed)
    requires i < |listed| && listed[i].pid !in skip
    ensures var (sinks', delivered) := Drained(sinks, listed, skip, budget, soFar);
      |delivered| < |soFar| + budget ==> listed[i].pid !in sinks'
    decreases |listed|
  {
    if budget > 0 {
      var pid, rest := listed[0].pid, listed[1..];
      if i == 0 {
        FirstIsDone(sinks, written, listed, skip, budget, soFar);
      } else if pid in skip || pid !in sinks {
        SpareBudgetMeansDone(sinks, written, rest, skip, budget, soFar, i - 1);
      } else {
        var (records, left) := DrainedOne(sinks[pid], budget, listed[0].io);
        EntryKeepsAccounts(sinks, written, pid, budget, listed[0].io, soFar);
        SpareBudgetMeansDone(Put(sinks, pid, left), written, rest, skip, budget - |records|, soFar + Tagged(pid, records), i - 1);
      }
    }
  }

  lemma {:induction false} DrainedCount(sinks: Sinks, listed: seq<Entry>, skip: set<nat>, budget: nat, soFar: seq<Delivery>)
    ensures |soFar| <= |Drained(sinks, listed, skip, budget, soFar).1| <= |soFar| + budget
    decreases |listed|
  {
    if listed != [] && budget > 0 {
      var pid, rest := listed[0].pid, listed[1..];
      if pid in skip || pid !in sinks {
        DrainedCount(sinks, rest, skip, budget, soFar);
      } else {
        var (records, left) := DrainedOne(sinks[pid], budget, listed[0].io);
        DrainedCount(Put(sinks, pid, left), rest, skip, budget - |records|, soFar + Tagged(pid, records));
      }
    }
  }

  /** A process crashes and appends one record to its own sink, or some process drains. */
  datatype Event =
    | Crashed(pid: nat, record: bytes)
    | DrainCalled(listed: seq<Entry>, skip: set<nat>, budget: nat)

  ghost predicate Admissible(e: Event) {
    match e
    case Crashed(_, record) => |record| == RECORD_LEN && IsRecord(record)
    case DrainCalled(listed, _, budget) => 0 < budget <= 1024 && AllReliable(listed)
  }

  datatype World = World(sinks: Sinks, written: map<nat, seq<bytes>>, delivered: seq<Delivery>)

  ghost function Next(w: World, e: Event): World {
    match e
    case Crashed(pid, record) =>
      World(w.sinks[pid := (if pid in w.sinks then w.sinks[pid] else []) + record],
            w.written[pid := (if pid in w.written then w.written[pid] else []) + [record]],
            w.delivered)
    case DrainCalled(listed, skip, budget) =>
      var (sinks, delivered) := Drained(w.sinks, listed, skip, budget, w.delivered);
      World(sinks, w.written, delivered)
  }

  ghost function After(events: seq<Event>): World {
    if events == [] then World(map[], map[], [])
    else Next(After(events[..|events| - 1]), events[|events| - 1])
  }

  /** The sink of the process that crashed gains exactly its record. */
  lemma CrashIsWritten(sinks: Sinks, written: seq<bytes>, pid: nat, record: bytes, delivered: seq<bytes>)
    requires AccountedFor(sinks, pid, written, delivered) && |record| == RECORD_LEN && IsRecord(record)
    ensures AccountedFor(sinks[pid := (if pid in sinks then sinks[pid] else []) + record], pid,
                         written + [record], delivered)
  {
    var left := written[|delivered|..];
    var all := written + [record];
    assert all[|delivered|..] == left + [record];
    assert pid !in sinks ==> left == [];
    SinkJoins(left, [record]);
    assert Sink([record]) == record;
  }

  lemma CrashKeepsAccounts(w: World, pid: nat, record: bytes)
    requires Accounted(w.sinks, w.written, w.delivered) && |record| == RECORD_LEN && IsRecord(record)
    ensures var w' := Next(w, Crashed(pid, record));
      Accounted(w'.sinks, w'.written, w'.delivered)
  {
    var w', before := Next(w, Crashed(pid, record)), if pid in w.written then w.written[pid] else [];
    assert AccountOf(w.sinks, w.written, w.delivered, pid);
    CrashIsWritten(w.sinks, before, pid, record, From(pid, w.delivered));
    forall p: nat
      ensures AccountOf(w'.sinks, w'.written, w'.delivered, p)
    {
      assert AccountOf(w.sinks, w.written, w.delivered, p);
    }
  }

  /**
   After every run of crashes and drains, with any listings, budgets and living processes: each
   record written has been delivered exactly once or is still in its file, and each sink's
   records are delivered in the order they were written.
   */
  lemma {:induction false} EveryRecordOnce(events: seq<Event>)
    requires forall i :: 0 <= i < |events| ==> Admissible(events[i])
    ensures var w := After(events);
      Accounted(w.sinks, w.written, w.delivered)
    decreases |events|
  {
    if events != [] {
      var front, last := events[..|events| - 1], events[|events| - 1];
      EveryRecordOnce(front);
      var w := After(front);
      match last
      case Crashed(pid, record) => CrashKeepsAccounts(w, pid, record);
      case DrainCalled(listed, skip, budget) =>
        DrainKeepsAccounts(w.sinks, w.written, listed, skip, budget, w.delivered);
    }
  }
}
