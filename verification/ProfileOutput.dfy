/** The profile as it is handed to PHP: frames, top functions and the flattened call tree. */
module ProfileOutput {
  import opened Common
  import opened CallPaths
  import opened Frames
  import opened Sampling
  import opened SampleStores
  import opened StackTree

  const TOP_FUNCTIONS_MAX: nat := 256

  datatype FrameEntry = FrameEntry(function_: bytes, file: Option<bytes>, line: nat)
  datatype Total = Total(frame: nat, samples: nat)
  datatype Triple = Triple(parent: nat, frame: nat, samples: nat)

  // ------------------------------------------------------------------- the lists

  /** The emitted frames, read back out of the arena, are the interned identities in order of id. */
  method EmitFrames(store: SampleStore) returns (list: seq<FrameEntry>)
    requires store.Valid()
    ensures |list| == |store.Current().names.ids|
    ensures forall i :: 0 <= i < |list| ==>
      var id := store.Current().names.ids[i];
      list[i] == FrameEntry(id.name, if id.file == [] then None else Some(id.file), id.line)
  {
    var table, arena := store.frames, store.arena;
    list := [];
    for index := 0 to table.count
      invariant |list| == index
      invariant forall i :: 0 <= i < index ==>
        var id := table.ids[i];
        list[i] == FrameEntry(id.name, if id.file == [] then None else Some(id.file), id.line)
    {
      var frame := table.frames[index];
      assert Spells(arena.Store(), frame, table.ids[index], table.hash);
      var text := arena.base[..arena.used];
      var name := text[frame.nameOff..frame.nameOff + frame.nameLen];
      var file := None;
      if frame.fileOff.Some? {
        file := Some(text[frame.fileOff.value..frame.fileOff.value + frame.fileLen]);
      }
      list := list + [FrameEntry(name, file, frame.line)];
    }
  }

  /** The samples taken in a function itself, over the first `count` nodes. */
  ghost function SelfSamples(nodes: seq<Node>, frame: nat, count: nat): nat
    requires count <= |nodes|
  {
    if count <= 1 then 0
    else SelfSamples(nodes, frame, count - 1)
         + if nodes[count - 1].edge.frame == frame then nodes[count - 1].samples else 0
  }

  /** Self samples per function, folded back out of the tree. */
  method FunctionTotals(nodes: seq<Node>, frameCount: nat) returns (totals: array<Total>)
    requires nodes != []
    ensures fresh(totals) && totals.Length == frameCount
    ensures forall f :: 0 <= f < frameCount ==> totals[f] == Total(f, SelfSamples(nodes, f, |nodes|))
  {
    totals := new Total[frameCount](i => Total(i, 0));
    for index := 1 to |nodes|
      invariant forall f :: 0 <= f < frameCount ==> totals[f] == Total(f, SelfSamples(nodes, f, index))
    {
      var node := nodes[index];
      if node.edge.frame < frameCount {
        totals[node.edge.frame] :=
          Total(totals[node.edge.frame].frame, totals[node.edge.frame].samples + node.samples);
      }
    }
  }

  /** The order the totals are sorted in: heaviest first, then by frame id. */
  predicate Before(a: Total, b: Total) {
    a.samples > b.samples || (a.samples == b.samples && a.frame < b.frame)
  }

  ghost predicate Sorted(s: seq<Total>) {
    forall i, j :: 0 <= i < j < |s| ==> !Before(s[j], s[i])
  }

  /** The front of a sorted list up to where the samples run out, or to the limit. */
  ghost predicate TopOf(sorted: seq<Total>, top: seq<Total>) {
    && top <= sorted && |top| <= TOP_FUNCTIONS_MAX
    && (forall i :: 0 <= i < |top| ==> top[i].samples > 0)
    && (|top| < TOP_FUNCTIONS_MAX ==> forall i :: |top| <= i < |sorted| ==> sorted[i].samples == 0)
  }

  /** Takes from the front until the samples run out or the list is full. */
  method EmitTop(sorted: seq<Total>) returns (top: seq<Total>)
    requires Sorted(sorted)
    ensures TopOf(sorted, top)
  {
    top := [];
    var index := 0;
    while index < |sorted| && |top| < TOP_FUNCTIONS_MAX
      invariant index == |top| <= |sorted| && |top| <= TOP_FUNCTIONS_MAX && top == sorted[..index]
      invariant forall i :: 0 <= i < |top| ==> top[i].samples > 0
    {
      if sorted[index].samples == 0 {
        forall i | index <= i < |sorted|
          ensures sorted[i].samples == 0
        {
          assert i > index ==> !Before(sorted[i], sorted[index]);
        }
        return;
      }
      top := top + [sorted[index]];
      index := index + 1;
    }
  }

  /** Every node but the root, as a triple; a node's id is its position plus one. */
  method EmitStacks(nodes: seq<Node>) returns (stacks: seq<Triple>)
    requires nodes != []
    ensures stacks == Flattened(nodes)
  {
    stacks := [];
    for index := 1 to |nodes|
      invariant stacks == Flattened(nodes[..index])
    {
      stacks := stacks + [Triple(nodes[index].edge.parent, nodes[index].edge.frame, nodes[index].samples)];
      assert nodes[..index + 1][..index] == nodes[..index];
    }
    assert nodes[..|nodes|] == nodes;
  }

  function Flattened(nodes: seq<Node>): (stacks: seq<Triple>)
    requires nodes != []
    ensures |stacks| == |nodes| - 1
  {
    seq(|nodes| - 1, i requires 0 <= i < |nodes| - 1 =>
      Triple(nodes[i + 1].edge.parent, nodes[i + 1].edge.frame, nodes[i + 1].samples))
  }

  // ---------------------------------------------------------------- reading back

  /** Triples a reader can follow: every parent precedes its child, every frame is listed. */
  ghost predicate Readable(frames: seq<Identity>, stacks: seq<Triple>) {
    forall i :: 0 <= i < |stacks| ==> stacks[i].parent <= i && stacks[i].frame < |frames|
  }

  /** The call path of a node id as a reader of the triples finds it. */
  ghost function ReadPath(frames: seq<Identity>, stacks: seq<Triple>, node: nat): CallPath
    requires Readable(frames, stacks) && node <= |stacks|
  {
    if node == 0 then []
    else ReadPath(frames, stacks, stacks[node - 1].parent) + [frames[stacks[node - 1].frame]]
  }

  /** The samples of a call path among the first `count` triples. */
  ghost function ReadWeight(frames: seq<Identity>, stacks: seq<Triple>, path: CallPath, count: nat): nat
    requires Readable(frames, stacks) && count <= |stacks|
  {
    if count == 0 then 0
    else ReadWeight(frames, stacks, path, count - 1)
         + if ReadPath(frames, stacks, count) == path then stacks[count - 1].samples else 0
  }

  lemma {:induction false} ReadPathIsPath(names: Names, tree: Tree, node: nat)
    requires Sound(names, tree) && node < |tree.nodes|
    ensures Readable(names.ids, Flattened(tree.nodes))
    ensures ReadPath(names.ids, Flattened(tree.nodes), node) == PathOf(names, tree, node)
  {
    if node != 0 {
      ReadPathIsPath(names, tree, tree.nodes[node].edge.parent);
    }
  }

  /** What a reader rebuilds from frames and stacks is the profile: the same weight for every call path. */
  lemma {:induction false} ReadingRestoresWeights(names: Names, tree: Tree, path: CallPath, count: nat)
    requires Sound(names, tree) && count < |tree.nodes|
    ensures Readable(names.ids, Flattened(tree.nodes))
    ensures ReadWeight(names.ids, Flattened(tree.nodes), path, count) == WeightUpTo(names, tree, path, count + 1)
  {
    hide ReadPath, PathOf;
    ReadPathIsPath(names, tree, count);
    var read := ReadWeight(names.ids, Flattened(tree.nodes), path, count);
    if count > 0 {
      ReadingRestoresWeights(names, tree, path, count - 1);
      assert Flattened(tree.nodes)[count - 1].samples == tree.nodes[count].samples;
    } else {
      assert WeightUpTo(names, tree, path, 0) == 0 == read;
    }
  }

  // --------------------------------------------------------------------- the sums

  function SumBy(weigh: Total -> nat, s: seq<Total>): nat {
    if s == [] then 0 else SumBy(weigh, s[..|s| - 1]) + weigh(s[|s| - 1])
  }

  const SAMPLES: Total -> nat := (t: Total) => t.samples
  const BUSY: Total -> nat := (t: Total) => if t.samples > 0 then 1 else 0

  lemma {:induction false} SumSplits(weigh: Total -> nat, s: seq<Total>, k: nat)
    requires k <= |s|
    ensures SumBy(weigh, s) == SumBy(weigh, s[..k]) + SumBy(weigh, s[k..])
    decreases |s|
  {
    if k == |s| {
      assert s[..k] == s && s[k..] == [];
    } else {
      var last := |s| - 1;
      SumSplits(weigh, s[..last], k);
      assert s[..last][..k] == s[..k] && s[..last][k..] == s[k..][..|s[k..]| - 1];
    }
  }

  lemma RemoveAt(s: seq<Total>, k: nat)
    requires k < |s|
    ensures multiset(s[..k] + s[k + 1..]) == multiset(s) - multiset{s[k]}
  {
    assert s == s[..k] + [s[k]] + s[k + 1..];
  }

  /** A sum does not depend on the order of its terms. */
  lemma {:induction false} SumPermutes(weigh: Total -> nat, s: seq<Total>, t: seq<Total>)
    requires multiset(s) == multiset(t)
    ensures SumBy(weigh, s) == SumBy(weigh, t)
    decreases |s|
  {
    assert |multiset(s)| == |s| && |multiset(t)| == |t|;
    if s != [] {
      var last, x := |s| - 1, s[|s| - 1];
      assert x in multiset(t);
      var k :| 0 <= k < |t| && t[k] == x;
      var rest := t[..k] + t[k + 1..];
      RemoveAt(s, last);
      RemoveAt(t, k);
      assert s[..last] + s[last + 1..] == s[..last];
      SumPermutes(weigh, s[..last], rest);
      SumSplits(weigh, t, k);
      SumSplits(weigh, rest, k);
      assert rest[..k] == t[..k] && rest[k..] == t[k + 1..];
      SumSplits(weigh, t[k..], 1);
      assert t[k..][1..] == t[k + 1..] && t[k..][..1] == [x];
      assert SumBy(weigh, [x]) == weigh(x) by { assert [x][..0] == []; }
    }
  }

  ghost function TotalsUpTo(nodes: seq<Node>, frameCount: nat, count: nat): seq<Total>
    requires count <= |nodes|
  {
    seq(frameCount, f requires 0 <= f < frameCount => Total(f, SelfSamples(nodes, f, count)))
  }

  /** One more node adds its samples to the total of its function alone. */
  lemma {:induction false} OneMoreNode(nodes: seq<Node>, frameCount: nat, count: nat)
    requires 1 <= count < |nodes|
    ensures SumBy(SAMPLES, TotalsUpTo(nodes, frameCount, count + 1)) == SumBy(SAMPLES, TotalsUpTo(nodes, frameCount, count))
      + if nodes[count].edge.frame < frameCount then nodes[count].samples else 0
    decreases frameCount
  {
    if frameCount > 0 {
      OneMoreNode(nodes, frameCount - 1, count);
      var before, after := TotalsUpTo(nodes, frameCount, count), TotalsUpTo(nodes, frameCount, count + 1);
      assert before[..frameCount - 1] == TotalsUpTo(nodes, frameCount - 1, count);
      assert after[..frameCount - 1] == TotalsUpTo(nodes, frameCount - 1, count + 1);
    }
  }

  lemma {:induction false} NoTotals(nodes: seq<Node>, frameCount: nat)
    requires nodes != []
    ensures SumBy(SAMPLES, TotalsUpTo(nodes, frameCount, 1)) == 0
    decreases frameCount
  {
    if frameCount > 0 {
      NoTotals(nodes, frameCount - 1);
      assert TotalsUpTo(nodes, frameCount, 1)[..frameCount - 1] == TotalsUpTo(nodes, frameCount - 1, 1);
    }
  }

  /** The totals of all functions add up to all samples in the tree. */
  lemma {:induction false} TotalsAddUp(nodes: seq<Node>, frameCount: nat, count: nat)
    requires WellFormed(nodes) && Known(nodes, frameCount) && 1 <= count <= |nodes|
    ensures SumBy(SAMPLES, TotalsUpTo(nodes, frameCount, count)) == TotalUpTo(nodes, count)
  {
    if count == 1 {
      NoTotals(nodes, frameCount);
      assert TotalUpTo(nodes, 0) == 0;
    } else {
      TotalsAddUp(nodes, frameCount, count - 1);
      OneMoreNode(nodes, frameCount, count - 1);
    }
  }

  lemma {:induction false} BusyOf(s: seq<Total>)
    ensures (forall i :: 0 <= i < |s| ==> s[i].samples > 0) ==> SumBy(BUSY, s) == |s|
    ensures (forall i :: 0 <= i < |s| ==> s[i].samples == 0) ==> SumBy(BUSY, s) == 0 == SumBy(SAMPLES, s)
    ensures SumBy(BUSY, s) > 0 ==> SumBy(SAMPLES, s) > 0
    ensures SumBy(BUSY, s) == 0 ==> SumBy(SAMPLES, s) == 0
    decreases |s|
  {
    if s != [] {
      BusyOf(s[..|s| - 1]);
    }
  }

  /** The emitted functions come heaviest first, and none left out is heavier. */
  lemma TopIsHeaviest(sorted: seq<Total>, top: seq<Total>)
    requires Sorted(sorted) && TopOf(sorted, top)
    ensures forall i, j :: 0 <= i < |top| && i < j < |sorted| ==> top[i].samples >= sorted[j].samples
  {
    forall i, j | 0 <= i < |top| && i < j < |sorted|
      ensures top[i].samples >= sorted[j].samples
    {
      assert top[i] == sorted[i] && !Before(sorted[j], sorted[i]);
    }
  }

  lemma TopHoldsAllBusy(sorted: seq<Total>, top: seq<Total>)
    requires TopOf(sorted, top)
    ensures SumBy(SAMPLES, top) <= SumBy(SAMPLES, sorted)
    ensures SumBy(SAMPLES, top) == SumBy(SAMPLES, sorted) <==> SumBy(BUSY, sorted) <= TOP_FUNCTIONS_MAX
  {
    SumSplits(SAMPLES, sorted, |top|);
    SumSplits(BUSY, sorted, |top|);
    assert sorted[..|top|] == top;
    BusyOf(top);
    BusyOf(sorted[|top|..]);
  }

  /** The emitted samples add up to the sample count exactly when at most 256 functions have samples of their own. */
  lemma TopFunctionsAddUp(p: Profile, sorted: seq<Total>, top: seq<Total>)
    requires Consistent(p) && TopOf(sorted, top)
    requires multiset(sorted) == multiset(TotalsUpTo(p.tree.nodes, |p.names.ids|, |p.tree.nodes|))
    ensures var totals := TotalsUpTo(p.tree.nodes, |p.names.ids|, |p.tree.nodes|);
      SumBy(SAMPLES, top) == p.samples <==> SumBy(BUSY, totals) <= TOP_FUNCTIONS_MAX
  {
    var totals := TotalsUpTo(p.tree.nodes, |p.names.ids|, |p.tree.nodes|);
    TotalsAddUp(p.tree.nodes, |p.names.ids|, |p.tree.nodes|);
    SumPermutes(SAMPLES, sorted, totals);
    SumPermutes(BUSY, sorted, totals);
    TopHoldsAllBusy(sorted, top);
  }
}
