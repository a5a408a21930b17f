/**
 What the pipeline is for: after any run of samples the arena, the frame table and the tree
 together are the map from call path to summed weight of the samples that were not dropped.
 */
module CallPaths {
  import opened Common
  import opened Frames
  import opened Probing
  import opened Sampling
  import opened StackTree

  type CallPath = seq<Identity>

  // ------------------------------------------------------- what a stack stands for

  /** The identities of the functions on a stack, innermost first. */
  ghost function Callees(stack: Stack): seq<Identity> {
    if stack == [] then []
    else if stack[0].func.None? then Callees(stack[1..])
    else [Cut(IdentityOf(stack[0].func.value))] + Callees(stack[1..])
  }

  /** The call path of a stack, outermost first; `marked` is whether the truncation marker has an id. */
  ghost function SamplePath(stack: Stack, maxDepth: nat, marked: bool): CallPath {
    var callees, depth := Callees(stack), EffectiveDepth(maxDepth);
    if callees == [] then [ENGINE]
    else if |callees| <= depth then Reverse(callees)
    else (if marked then [TRUNCATED] else []) + Reverse(callees[..depth])
  }

  // ---------------------------------------------------- what the tables stand for

  /** Every node refers to a frame in the table. */
  ghost predicate Known(nodes: seq<Node>, count: nat) {
    forall i :: 1 <= i < |nodes| ==> nodes[i].edge.frame < count
  }

  ghost predicate Sound(names: Names, tree: Tree) {
    Distinct(names.ids, 0) && WellFormed(tree.nodes) && Known(tree.nodes, |names.ids|)
  }

  ghost function Named(ids: seq<Identity>, path: seq<nat>): CallPath
    requires forall k :: 0 <= k < |path| ==> path[k] < |ids|
  {
    seq(|path|, k requires 0 <= k < |path| => ids[path[k]])
  }

  lemma {:induction false} PathKnown(nodes: seq<Node>, count: nat, node: nat)
    requires WellFormed(nodes) && Known(nodes, count) && node < |nodes|
    ensures forall k :: 0 <= k < |Path(nodes, node)| ==> Path(nodes, node)[k] < count
  {
    if node != 0 {
      PathKnown(nodes, count, nodes[node].edge.parent);
    }
  }

  /** The call path a node stands for. */
  ghost function PathOf(names: Names, tree: Tree, node: nat): CallPath
    requires Sound(names, tree) && node < |tree.nodes|
  {
    PathKnown(tree.nodes, |names.ids|, node);
    Named(names.ids, Path(tree.nodes, node))
  }

  /** Two samples share a node exactly when their call paths are equal. */
  lemma NodesArePaths(names: Names, tree: Tree, i: nat, j: nat)
    requires Sound(names, tree) && i < |tree.nodes| && j < |tree.nodes|
    ensures PathOf(names, tree, i) == PathOf(names, tree, j) <==> i == j
  {
    PathKnown(tree.nodes, |names.ids|, i);
    PathKnown(tree.nodes, |names.ids|, j);
    var p, q := Path(tree.nodes, i), Path(tree.nodes, j);
    if Named(names.ids, p) == Named(names.ids, q) {
      forall k | 0 <= k < |p|
        ensures |p| == |q| && p[k] == q[k]
      {
        assert Named(names.ids, p)[k] == Named(names.ids, q)[k];
      }
      assert |p| == |Named(names.ids, p)| == |q|;
      assert p == q;
      PathsAreDistinct(tree.nodes, i, j);
    }
  }

  /** The weight recorded for a call path by the first `count` nodes. */
  ghost function WeightUpTo(names: Names, tree: Tree, path: CallPath, count: nat): nat
    requires Sound(names, tree) && count <= |tree.nodes|
  {
    if count == 0 then 0
    else WeightUpTo(names, tree, path, count - 1)
         + if PathOf(names, tree, count - 1) == path then tree.nodes[count - 1].samples else 0
  }

  ghost function Weight(names: Names, tree: Tree, path: CallPath): nat
    requires Sound(names, tree)
  {
    WeightUpTo(names, tree, path, |tree.nodes|)
  }

  // ------------------------------------------------------------------- growing

  /** New nodes go to the end, without samples. */
  ghost predicate TreeGrows(tree: Tree, tree': Tree, count: nat) {
    && WellFormed(tree'.nodes) && Known(tree'.nodes, count)
    && tree.nodes <= tree'.nodes && tree.hits <= tree'.hits && tree.total == tree'.total
    && forall i :: |tree.nodes| <= i < |tree'.nodes| ==> tree'.nodes[i].samples == 0
  }

  lemma {:induction false} WeightGrows(names: Names, tree: Tree, names': Names, tree': Tree, path: CallPath, count: nat)
    requires Sound(names, tree) && Sound(names', tree') && count <= |tree'.nodes|
    requires NamesGrow(names, names') && TreeGrows(tree, tree', |names'.ids|)
    ensures WeightUpTo(names', tree', path, count) == WeightUpTo(names, tree, path, Min(count, |tree.nodes|))
  {
    if count > 0 {
      WeightGrows(names, tree, names', tree', path, count - 1);
      if count <= |tree.nodes| {
        PathOfKept(names, tree, names', tree', count - 1);
      }
    }
  }

  lemma PathOfKept(names: Names, tree: Tree, names': Names, tree': Tree, node: nat)
    requires Sound(names, tree) && Sound(names', tree') && node < |tree.nodes|
    requires names.ids <= names'.ids
    requires |tree.nodes| <= |tree'.nodes| && forall i :: 0 <= i < |tree.nodes| ==> tree'.nodes[i].edge == tree.nodes[i].edge
    ensures PathOf(names', tree', node) == PathOf(names, tree, node)
  {
    PathKept(tree.nodes, tree'.nodes, node);
    PathKnown(tree.nodes, |names.ids|, node);
  }

  /** Recording at a node adds to the weight of its call path and to nothing else. */
  lemma {:induction false} WeightRecorded(names: Names, tree: Tree, node: nat, weight: nat, path: CallPath, count: nat)
    requires Sound(names, tree) && 0 < node < |tree.nodes| && count <= |tree.nodes|
    ensures Sound(names, Record(tree, node, weight))
    ensures WeightUpTo(names, Record(tree, node, weight), path, count) == WeightUpTo(names, tree, path, count)
      + if node < count && PathOf(names, tree, node) == path then weight else 0
  {
    var tree' := Record(tree, node, weight);
    if count > 0 {
      WeightRecorded(names, tree, node, weight, path, count - 1);
      PathOfKept(names, tree, names, tree', count - 1);
    }
  }

  // -------------------------------------------------------------- one sample

  /** Among the innermost `room` functions, as far as a walk gets, one has no name at all. */
  ghost predicate Nameless(stack: Stack, room: nat) {
    stack != [] &&
    if stack[0].func.None? then Nameless(stack[1..], room)
    else room > 0 && (FullName(stack[0].func.value) == [] || Nameless(stack[1..], room - 1))
  }

  /** A walk that succeeds has the ids of the innermost `room` functions, and knows whether there were more. */
  lemma {:induction false} WalkedMeans(names: Names, limits: Limits, stack: Stack, room: nat)
    requires Distinct(names.ids, 0)
    ensures var walk, callees := Walked(names, limits, stack, room), Callees(stack);
      && NamesGrow(names, walk.names)
      && (walk.ok ==>
            && (forall k :: 0 <= k < |walk.ids| ==> walk.ids[k] < |walk.names.ids|)
            && Named(walk.names.ids, walk.ids) == callees[..Min(|callees|, room)]
            && (walk.cut <==> |callees| > room))
      && (!walk.ok ==> walk.names.hits > names.hits || Nameless(stack, room))
      && (Nameless(stack, room) ==> !walk.ok)
    decreases |stack|
  {
    if stack == [] {
    } else if stack[0].func.None? {
      WalkedMeans(names, limits, stack[1..], room);
    } else if room > 0 {
      var id := IdentityOf(stack[0].func.value);
      InternedMeans(names, limits.frames, limits.arena, id);
      var (names', found) := Interned(names, limits.frames, limits.arena, id);
      if found.Some? {
        WalkedMeans(names', limits, stack[1..], room - 1);
          var rest := Walked(names', limits, stack[1..], room - 1);
        if rest.ok {
          OneMoreCallee(rest.names.ids, found.value, rest.ids, Cut(id), Callees(stack[1..]), room);
        }
      }
    }
  }

  lemma OneMoreCallee(ids: seq<Identity>, first: nat, rest: seq<nat>, callee: Identity, callees: seq<Identity>, room: nat)
    requires first < |ids| && ids[first] == callee && room > 0
    requires forall k :: 0 <= k < |rest| ==> rest[k] < |ids|
    requires Named(ids, rest) == callees[..Min(|callees|, room - 1)]
    ensures forall k :: 0 <= k < |[first] + rest| ==> ([first] + rest)[k] < |ids|
    ensures Named(ids, [first] + rest) == ([callee] + callees)[..Min(|callees| + 1, room)]
  {
    assert Named(ids, [first] + rest) == [callee] + Named(ids, rest);
  }

  lemma ChildMeans(names: Names, tree: Tree, capacity: nat, parent: nat, frame: nat)
    requires Sound(names, tree) && parent < |tree.nodes| && frame < |names.ids|
    ensures var (tree', child) := Child(tree, capacity, parent, frame);
      && TreeGrows(tree, tree', |names.ids|)
      && (child.Some? ==> 0 < child.value < |tree'.nodes|
                          && PathOf(names, tree', child.value) == PathOf(names, tree, parent) + [names.ids[frame]])
      && (child.None? ==> tree'.hits > tree.hits)
  {
    ChildExtendsPath(tree, capacity, parent, frame);
    PathKnown(tree.nodes, |names.ids|, parent);
  }

  /** Descending from a node reaches its path extended by the frames, outermost first. */
  lemma {:induction false} DescendedMeans(names: Names, tree: Tree, capacity: nat, node: nat, ids: seq<nat>)
    requires Sound(names, tree) && node < |tree.nodes| && forall k :: 0 <= k < |ids| ==> ids[k] < |names.ids|
    ensures var (tree', found) := Descended(tree, capacity, node, ids);
      && TreeGrows(tree, tree', |names.ids|)
      && (found.Some? ==> found.value < |tree'.nodes| && (ids != [] || node > 0 ==> found.value > 0)
                          && PathOf(names, tree', found.value) == PathOf(names, tree, node) + Reverse(Named(names.ids, ids)))
      && (found.None? ==> tree'.hits > tree.hits)
    decreases |ids|
  {
    hide PathOf, Child;
    if ids == [] {
      assert Reverse(Named(names.ids, ids)) == [];
    } else {
      var last := |ids| - 1;
      var (tree', child) := Child(tree, capacity, node, ids[last]);
      ChildMeans(names, tree, capacity, node, ids[last]);
      if child.Some? {
        DescendedMeans(names, tree', capacity, child.value, ids[..last]);
        var named := Named(names.ids, ids);
        assert named[..last] == Named(names.ids, ids[..last]);
        assert PathOf(names, tree, node) + [named[last]] + Reverse(named[..last])
            == PathOf(names, tree, node) + Reverse(named);
      }
    }
  }

  lemma MarkerMeans(names: Names, tree: Tree, limits: Limits, parent: nat, marker: Identity, orElse: Option<nat>)
    requires Sound(names, tree) && parent < |tree.nodes| && Cut(marker) == marker && marker.name != []
    ensures var at := MarkerChild(names, tree, limits, parent, marker, orElse);
      && NamesGrow(names, at.names) && TreeGrows(tree, at.tree, |at.names.ids|)
      && (marker in at.names.ids && at.node.Some? ==>
            0 < at.node.value < |at.tree.nodes|
            && PathOf(at.names, at.tree, at.node.value) == PathOf(names, tree, parent) + [marker])
      && (marker in at.names.ids && at.node.None? ==> at.tree.hits > tree.hits)
      && (marker !in at.names.ids ==> at.node == orElse && at.tree == tree && at.names.hits > names.hits)
  {
    InternedMeans(names, limits.frames, limits.arena, marker);
    var (names', id) := Interned(names, limits.frames, limits.arena, marker);
    PathOfKept(names, tree, names', tree, parent);
    if id.Some? {
      ChildMeans(names', tree, limits.nodes, parent, id.value);
    }
  }

  lemma EnteredMeans(names: Names, tree: Tree, limits: Limits, cut: bool)
    requires Sound(names, tree)
    ensures var at := Entered(names, tree, limits, cut);
      && NamesGrow(names, at.names) && TreeGrows(tree, at.tree, |at.names.ids|)
      && (at.node.Some? ==>
            && at.node.value < |at.tree.nodes|
            && PathOf(at.names, at.tree, at.node.value) == if cut && TRUNCATED in at.names.ids then [TRUNCATED] else [])
      && (at.node.None? ==> at.tree.hits > tree.hits)
  {
    MarkersFit();
    assert PathOf(names, tree, NODE_ROOT) == [];
    if cut {
      MarkerMeans(names, tree, limits, NODE_ROOT, TRUNCATED, Some(NODE_ROOT));
    }
  }

  /** The two parts of the way to a sample's node make up its call path. */
  lemma PathCompletes(stack: Stack, maxDepth: nat, marked: bool, named: CallPath, cut: bool, top: CallPath, rest: CallPath)
    requires var callees, depth := Callees(stack), EffectiveDepth(maxDepth);
      named == callees[..Min(|callees|, depth)] && (cut <==> |callees| > depth)
    requires top == if cut && marked then [TRUNCATED] else []
    requires rest == if named == [] && !cut then [ENGINE] else Reverse(named)
    ensures top + rest == SamplePath(stack, maxDepth, marked)
  {
    if !cut {
      assert named == Callees(stack);
      assert [] + rest == rest;
    }
  }

  lemma GrowsFurther(names: Names, names': Names, names'': Names, tree: Tree, tree': Tree, tree'': Tree)
    requires NamesGrow(names, names') && NamesGrow(names', names'')
    requires TreeGrows(tree, tree', |names'.ids|) && TreeGrows(tree', tree'', |names''.ids|)
    ensures NamesGrow(names, names'') && TreeGrows(tree, tree'', |names''.ids|)
  {
  }

  lemma LandedMeans(names: Names, tree: Tree, limits: Limits, node: nat, ids: seq<nat>, cut: bool)
    requires Sound(names, tree) && node < |tree.nodes| && forall k :: 0 <= k < |ids| ==> ids[k] < |names.ids|
    requires cut ==> ids != [] || node > 0
    ensures var at := Landed(names, tree, limits, node, ids, cut);
      && NamesGrow(names, at.names) && TreeGrows(tree, at.tree, |at.names.ids|) && (cut ==> at.names == names)
      && (at.node.Some? ==>
            && 0 < at.node.value < |at.tree.nodes|
            && PathOf(at.names, at.tree, at.node.value) ==
               PathOf(names, tree, node) + if ids == [] && !cut then [ENGINE] else Reverse(Named(names.ids, ids)))
      && (at.node.None? ==> at.names.hits > names.hits || at.tree.hits > tree.hits)
  {
    DescendedMeans(names, tree, limits.nodes, node, ids);
    var (tree', found) := Descended(tree, limits.nodes, node, ids);
    if found.Some? && ids == [] && !cut {
      MarkersFit();
      MarkerMeans(names, tree', limits, found.value, ENGINE, None);
    }
  }

  /**
   A sample that is placed is placed at the node of its call path; one that is not met a full table or a
   nameless frame, and a nameless frame always costs the sample.
   */
  lemma PlacedMeans(names: Names, tree: Tree, limits: Limits, maxDepth: nat, stack: Stack)
    requires Sound(names, tree)
    ensures var at := Placed(names, tree, limits, maxDepth, stack);
      && NamesGrow(names, at.names) && TreeGrows(tree, at.tree, |at.names.ids|)
      && (at.node.Some? ==>
            && 0 < at.node.value < |at.tree.nodes|
            && PathOf(at.names, at.tree, at.node.value) == SamplePath(stack, maxDepth, TRUNCATED in at.names.ids))
      && (at.node.None? ==> at.names.hits > names.hits || at.tree.hits > tree.hits || Nameless(stack, EffectiveDepth(maxDepth)))
      && (Nameless(stack, EffectiveDepth(maxDepth)) ==> at.node.None?)
  {
    var walk := Walked(names, limits, stack, EffectiveDepth(maxDepth));
    WalkedMeans(names, limits, stack, EffectiveDepth(maxDepth));
    if walk.ok {
      var entered := Entered(walk.names, tree, limits, walk.cut);
      EnteredMeans(walk.names, tree, limits, walk.cut);
      GrowsFurther(names, walk.names, entered.names, tree, tree, entered.tree);
      if entered.node.Some? {
        LandingMeans(names, tree, limits, entered, maxDepth, stack, walk.ids, Named(walk.names.ids, walk.ids), walk.cut);
      }
    }
  }

  lemma LandingMeans(names: Names, tree: Tree, limits: Limits, entered: Place, maxDepth: nat, stack: Stack,
                     ids: seq<nat>, named: CallPath, cut: bool)
    requires Sound(names, tree) && Sound(entered.names, entered.tree)
    requires NamesGrow(names, entered.names) && TreeGrows(tree, entered.tree, |entered.names.ids|)
    requires entered.node.Some? && entered.node.value < |entered.tree.nodes|
    requires PathOf(entered.names, entered.tree, entered.node.value)
          == if cut && TRUNCATED in entered.names.ids then [TRUNCATED] else []
    requires (forall k :: 0 <= k < |ids| ==> ids[k] < |entered.names.ids|) && named == Named(entered.names.ids, ids)
    requires var callees, depth := Callees(stack), EffectiveDepth(maxDepth);
      named == callees[..Min(|callees|, depth)] && (cut <==> |callees| > depth)
    ensures var at := Landed(entered.names, entered.tree, limits, entered.node.value, ids, cut);
      && NamesGrow(names, at.names) && TreeGrows(tree, at.tree, |at.names.ids|)
      && (at.node.Some? ==>
            && 0 < at.node.value < |at.tree.nodes|
            && PathOf(at.names, at.tree, at.node.value) == SamplePath(stack, maxDepth, TRUNCATED in at.names.ids))
      && (at.node.None? ==> at.names.hits > names.hits || at.tree.hits > tree.hits)
  {
    CutMeansFrames(stack, maxDepth, ids, named, cut);
    LandedMeans(entered.names, entered.tree, limits, entered.node.value, ids, cut);
    var at := Landed(entered.names, entered.tree, limits, entered.node.value, ids, cut);
    GrowsFurther(names, entered.names, at.names, tree, entered.tree, at.tree);
    PathCompletes(stack, maxDepth, TRUNCATED in at.names.ids, named, cut,
                  PathOf(entered.names, entered.tree, entered.node.value),
                  if ids == [] && !cut then [ENGINE] else Reverse(named));
  }

  /** Only a stack with frames is ever cut. */
  lemma CutMeansFrames(stack: Stack, maxDepth: nat, ids: seq<nat>, named: CallPath, cut: bool)
    requires var callees, depth := Callees(stack), EffectiveDepth(maxDepth);
      named == callees[..Min(|callees|, depth)] && (cut <==> |callees| > depth)
    requires |ids| == |named|
    ensures cut ==> ids != []
  {
  }

  // -------------------------------------------------------------- many samples

  datatype Sample = Sample(stack: Stack, weight: nat)

  /** The call path a sample is recorded under, or None if it is dropped. */
  ghost function Outcome(p: Profile, limits: Limits, maxDepth: nat, stack: Stack): Option<CallPath>
    requires p.tree.nodes != []
  {
    var at := Placed(p.names, p.tree, limits, maxDepth, stack);
    if at.node.None? then None else Some(SamplePath(stack, maxDepth, TRUNCATED in at.names.ids))
  }

  /** Everything that holds of a profile between samples. */
  ghost predicate Consistent(p: Profile) {
    && Sound(p.names, p.tree)
    && p.tree.total == p.samples == TotalUpTo(p.tree.nodes, |p.tree.nodes|)
  }

  ghost function TotalUpTo(nodes: seq<Node>, count: nat): nat
    requires count <= |nodes|
  {
    if count == 0 then 0 else TotalUpTo(nodes, count - 1) + nodes[count - 1].samples
  }

  lemma {:induction false} TotalGrows(nodes: seq<Node>, nodes': seq<Node>, count: nat)
    requires nodes <= nodes' && count <= |nodes'|
    requires forall i :: |nodes| <= i < |nodes'| ==> nodes'[i].samples == 0
    ensures TotalUpTo(nodes', count) == TotalUpTo(nodes, Min(count, |nodes|))
  {
    if count > 0 {
      TotalGrows(nodes, nodes', count - 1);
    }
  }

  lemma {:induction false} TotalRecorded(tree: Tree, node: nat, weight: nat, count: nat)
    requires node < |tree.nodes| && count <= |tree.nodes|
    ensures TotalUpTo(Record(tree, node, weight).nodes, count)
         == TotalUpTo(tree.nodes, count) + if node < count then weight else 0
  {
    if count > 0 {
      TotalRecorded(tree, node, weight, count - 1);
    }
  }

  /** One sample adds its weight to its own call path, or to `dropped`, and to nothing else. */
  lemma CollectedMeans(p: Profile, limits: Limits, maxDepth: nat, stack: Stack, weight: nat, path: CallPath)
    requires Consistent(p)
    ensures var p', outcome := Collected(p, limits, maxDepth, stack, weight), Outcome(p, limits, maxDepth, stack);
      && Consistent(p')
      && NamesGrow(p.names, p'.names)
      && Weight(p'.names, p'.tree, path) == Weight(p.names, p.tree, path) + (if outcome == Some(path) then weight else 0)
      && p'.samples == p.samples + (if outcome.Some? then weight else 0)
      && p'.dropped == p.dropped + (if outcome.None? then weight else 0)
  {
    var at := Placed(p.names, p.tree, limits, maxDepth, stack);
    PlacedMeans(p.names, p.tree, limits, maxDepth, stack);
    WeightGrows(p.names, p.tree, at.names, at.tree, path, |at.tree.nodes|);
    TotalGrows(p.tree.nodes, at.tree.nodes, |at.tree.nodes|);
    if at.node.Some? {
      WeightRecorded(at.names, at.tree, at.node.value, weight, path, |at.tree.nodes|);
      TotalRecorded(at.tree, at.node.value, weight, |at.tree.nodes|);
    }
  }

  ghost function Run(p: Profile, limits: Limits, maxDepth: nat, samples: seq<Sample>): (p': Profile)
    requires p.tree.nodes != []
    ensures p'.tree.nodes != []
    decreases |samples|
  {
    if samples == [] then p
    else
      var last := samples[|samples| - 1];
      var before := Run(p, limits, maxDepth, samples[..|samples| - 1]);
      var after := Collected(before, limits, maxDepth, last.stack, last.weight);
      after
  }

  /** The weights of the samples of a run whose outcome is the given one, added up. */
  ghost function Booked(p: Profile, limits: Limits, maxDepth: nat, samples: seq<Sample>, outcome: Option<CallPath>): nat
    requires p.tree.nodes != []
    decreases |samples|
  {
    if samples == [] then 0
    else
      var last, front := samples[|samples| - 1], samples[..|samples| - 1];
      Booked(p, limits, maxDepth, front, outcome)
      + if Outcome(Run(p, limits, maxDepth, front), limits, maxDepth, last.stack) == outcome then last.weight else 0
  }

  ghost function WeightOf(samples: seq<Sample>): nat {
    if samples == [] then 0 else WeightOf(samples[..|samples| - 1]) + samples[|samples| - 1].weight
  }

  /**
   After any run of samples on empty tables the weight of every call path is exactly the sum of
   the weights of the samples recorded under it, and every tick is either recorded or dropped.
   */
  lemma {:induction false} ProfileIsTheMap(limits: Limits, maxDepth: nat, samples: seq<Sample>, path: CallPath)
    ensures var p := Run(EMPTY, limits, maxDepth, samples);
      && Consistent(p)
      && Weight(p.names, p.tree, path) == Booked(EMPTY, limits, maxDepth, samples, Some(path))
      && p.dropped == Booked(EMPTY, limits, maxDepth, samples, None)
      && p.samples + p.dropped == WeightOf(samples)
    decreases |samples|
  {
    if samples == [] {
      assert WeightUpTo(NO_NAMES, NO_STACKS, path, 1) == 0;
    } else {
      var last, front := samples[|samples| - 1], samples[..|samples| - 1];
      ProfileIsTheMap(limits, maxDepth, front, path);
      CollectedMeans(Run(EMPTY, limits, maxDepth, front), limits, maxDepth, last.stack, last.weight, path);
    }
  }

  lemma EmptyIsConsistent()
    ensures Consistent(EMPTY)
  {
    ProfileIsTheMap(Limits(0, 0, 0), 0, [], []);
  }

  /** With room for one name and one node, a stack without call frames is recorded under the engine's marker. */
  lemma EngineSampleFits(limits: Limits, maxDepth: nat, weight: nat)
    requires limits.frames > 0 && limits.nodes > 1 && limits.arena > |ENGINE_NAME|
    ensures var p := Collected(EMPTY, limits, maxDepth, [], weight);
      p.samples == weight && p.dropped == 0
  {
    MarkersFit();
    assert Interned(NO_NAMES, limits.frames, limits.arena, ENGINE).1 == Some(0);
    assert Child(NO_STACKS, limits.nodes, NODE_ROOT, 0).1 == Some(1);
  }
}
