/** When the tables have room for a sample: exactly then it is recorded, and else it is dropped. */
module SampleRoom {
  import opened Common
  import opened CallPaths
  import opened Frames
  import opened Probing
  import opened Sampling
  import opened StackTree

  // -------------------------------------------------------------- room for the names

  /** The identities still to be added, each once, in the order they are met. */
  ghost function NewOnes(known: seq<Identity>, wanted: seq<Identity>): seq<Identity>
    decreases |wanted|
  {
    if wanted == [] then []
    else if wanted[0] in known then NewOnes(known, wanted[1..])
    else [wanted[0]] + NewOnes(known + [wanted[0]], wanted[1..])
  }

  /** Where the arena's cursor stands after the strings of these identities. */
  ghost function EndOf(used: nat, added: seq<Identity>): (end: nat)
    ensures used <= end
    decreases |added|
  {
    if added == [] then used else EndOf(StoredEnd(used, added[0]), added[1..])
  }

  /** Table and arena have room for what is new among these identities. */
  ghost predicate NamesFit(names: Names, limits: Limits, wanted: seq<Identity>) {
    var added := NewOnes(names.ids, wanted);
    added == [] || (|names.ids| + |added| <= limits.frames && EndOf(names.used, added) <= limits.arena)
  }

  /** The names with what was new added. */
  ghost predicate Holding(names': Names, names: Names, wanted: seq<Identity>) {
    var added := NewOnes(names.ids, wanted);
    names'.ids == names.ids + added && names'.used == EndOf(names.used, added)
  }

  lemma FirstFits(names: Names, limits: Limits, key: Identity, rest: seq<Identity>, names': Names)
    requires names'.ids == names.ids + if key in names.ids then [] else [key]
    requires names'.used == if key in names.ids then names.used else StoredEnd(names.used, key)
    requires key !in names.ids ==> |names.ids| < limits.frames && StoredEnd(names.used, key) <= limits.arena
    ensures NamesFit(names, limits, [key] + rest) <==> NamesFit(names', limits, rest)
    ensures forall after: Names :: Holding(after, names', rest) ==> Holding(after, names, [key] + rest)
  {
    assert ([key] + rest)[1..] == rest;
    if key in names.ids {
      assert names'.ids == names.ids;
    } else {
      var added := NewOnes(names'.ids, rest);
      assert NewOnes(names.ids, [key] + rest) == [key] + added;
      assert ([key] + added)[1..] == added;
      JoinsEitherWay(names.ids, [key], added);
    }
  }

  lemma FirstDoesNotFit(names: Names, limits: Limits, key: Identity, rest: seq<Identity>)
    requires key !in names.ids && (|names.ids| >= limits.frames || StoredEnd(names.used, key) > limits.arena)
    ensures !NamesFit(names, limits, [key] + rest)
  {
    assert ([key] + rest)[1..] == rest;
    var added := NewOnes(names.ids + [key], rest);
    assert NewOnes(names.ids, [key] + rest) == [key] + added;
    assert ([key] + added)[1..] == added;
  }

  /** The functions of a stack that a walk of this depth asks for, innermost first. */
  ghost function Wanted(stack: Stack, room: nat): seq<Identity> {
    Callees(stack)[..Min(|Callees(stack)|, room)]
  }

  lemma WantedFirst(stack: Stack, room: nat)
    requires stack != [] && stack[0].func.Some? && room > 0
    ensures Wanted(stack, room) == [Cut(IdentityOf(stack[0].func.value))] + Wanted(stack[1..], room - 1)
  {
  }

  /** A walk succeeds exactly if no frame within the depth is nameless and all its functions fit. */
  lemma {:induction false} WalkSucceedsIff(names: Names, limits: Limits, stack: Stack, room: nat)
    ensures var walk := Walked(names, limits, stack, room);
      && (walk.ok <==> !Nameless(stack, room) && NamesFit(names, limits, Wanted(stack, room)))
      && (walk.ok ==> Holding(walk.names, names, Wanted(stack, room)))
    decreases |stack|
  {
    if stack != [] && stack[0].func.None? {
      WalkSucceedsIff(names, limits, stack[1..], room);
    } else if stack != [] && room > 0 {
      var id := IdentityOf(stack[0].func.value);
      var (names', found) := Interned(names, limits.frames, limits.arena, id);
      InternRefusedIff(names, limits.frames, limits.arena, id);
      WantedFirst(stack, room);
      if found.Some? {
        WalkSucceedsIff(names', limits, stack[1..], room - 1);
        FirstFits(names, limits, Cut(id), Wanted(stack[1..], room - 1), names');
      } else if id.name != [] {
        FirstDoesNotFit(names, limits, Cut(id), Wanted(stack[1..], room - 1));
      }
    }
  }

  lemma {:induction false} OneMoreWanted(known: seq<Identity>, wanted: seq<Identity>, x: Identity)
    ensures var added := NewOnes(known, wanted);
      NewOnes(known, wanted + [x]) == added + if x in known + added then [] else [x]
    decreases |wanted|
  {
    if wanted == [] {
      assert wanted + [x] == [x];
    } else {
      assert (wanted + [x])[1..] == wanted[1..] + [x];
      if wanted[0] in known {
        OneMoreWanted(known, wanted[1..], x);
      } else {
        OneMoreWanted(known + [wanted[0]], wanted[1..], x);
        var added := NewOnes(known + [wanted[0]], wanted[1..]);
        JoinsEitherWay(known, [wanted[0]], added);
      }
    }
  }

  lemma {:induction false} OneMoreStored(used: nat, added: seq<Identity>, x: Identity)
    ensures EndOf(used, added + [x]) == StoredEnd(EndOf(used, added), x)
    decreases |added|
  {
    if added == [] {
      assert added + [x] == [x];
    } else {
      assert (added + [x])[1..] == added[1..] + [x];
      OneMoreStored(StoredEnd(used, added[0]), added[1..], x);
    }
  }

  /** With what came before in the tables, one more identity is known or has room. */
  ghost predicate NextFits(names: Names, limits: Limits, x: Identity) {
    x in names.ids || (|names.ids| < limits.frames && StoredEnd(names.used, x) <= limits.arena)
  }

  /** Identities fit with one more behind them exactly if they fit and then the one does. */
  lemma OneMoreFits(names: Names, limits: Limits, wanted: seq<Identity>, x: Identity, names': Names)
    requires Holding(names', names, wanted)
    ensures NamesFit(names, limits, wanted + [x]) ==> NamesFit(names, limits, wanted)
    ensures NamesFit(names, limits, wanted) ==>
      (NamesFit(names, limits, wanted + [x]) <==> NextFits(names', limits, x))
  {
    hide NewOnes, EndOf, StoredEnd;
    var added := NewOnes(names.ids, wanted);
    OneMoreWanted(names.ids, wanted, x);
    OneMoreStored(names.used, added, x);
    assert added + [] == added;
  }

  lemma OneMoreHeld(names: Names, wanted: seq<Identity>, x: Identity, names': Names, after: Names)
    requires Holding(names', names, wanted)
    requires after.ids == names'.ids + if x in names'.ids then [] else [x]
    requires after.used == if x in names'.ids then names'.used else StoredEnd(names'.used, x)
    ensures Holding(after, names, wanted + [x])
  {
    hide NewOnes, EndOf, StoredEnd;
    var added := NewOnes(names.ids, wanted);
    OneMoreWanted(names.ids, wanted, x);
    OneMoreStored(names.used, added, x);
    JoinsEitherWay(names.ids, added, [x]);
    assert added + [] == added && names'.ids + [] == names'.ids;
  }

  // -------------------------------------------------------------- room for the nodes

  /** How many nodes of a path, given innermost frame first, the tree lacks below a node. */
  ghost function MissingNodes(nodes: seq<Node>, node: nat, ids: seq<nat>): (missing: nat)
    requires nodes != []
    ensures missing <= |ids|
    decreases |ids|
  {
    if ids == [] then 0
    else
      var last := |ids| - 1;
      match FindEdge(nodes, Edge(node, ids[last]), 1)
      case Some(child) => MissingNodes(nodes, child, ids[..last])
      case None => |ids|
  }

  ghost predicate NodesFit(nodes: seq<Node>, capacity: nat, node: nat, ids: seq<nat>)
    requires nodes != []
  {
    MissingNodes(nodes, node, ids) == 0 || |nodes| + MissingNodes(nodes, node, ids) <= capacity
  }

  lemma NewestHasNoChild(nodes: seq<Node>, edge: Edge, ids: seq<nat>)
    requires WellFormed(nodes) && edge.parent < |nodes|
    ensures MissingNodes(nodes + [Node(edge, 0)], |nodes|, ids) == |ids|
  {
    if ids != [] {
      var grown := nodes + [Node(edge, 0)];
      assert forall i :: 1 <= i < |grown| ==> grown[i].edge.parent != |nodes|;
    }
  }

  /** Descending succeeds exactly if the nodes still missing on the way fit. */
  lemma {:induction false} DescentSucceedsIff(tree: Tree, capacity: nat, node: nat, ids: seq<nat>)
    requires WellFormed(tree.nodes) && node < |tree.nodes|
    ensures var (tree', found) := Descended(tree, capacity, node, ids);
      && (found.Some? <==> NodesFit(tree.nodes, capacity, node, ids))
      && (found.Some? ==> |tree'.nodes| == |tree.nodes| + MissingNodes(tree.nodes, node, ids))
    decreases |ids|
  {
    if ids != [] {
      var last := |ids| - 1;
      var edge := Edge(node, ids[last]);
      var (tree', child) := Child(tree, capacity, node, ids[last]);
      ChildRefusedIff(tree, capacity, node, ids[last]);
      ChildExtendsPath(tree, capacity, node, ids[last]);
      if child.Some? {
        DescentSucceedsIff(tree', capacity, child.value, ids[..last]);
        if FindEdge(tree.nodes, edge, 1).None? {
          NewestHasNoChild(tree.nodes, edge, ids[..last]);
        }
      }
    }
  }

  // ------------------------------------------------------------------- one sample

  /** Where an identity stands in the table. */
  ghost function PositionOf(ids: seq<Identity>, x: Identity): nat {
    if x in ids then IndexOf(ids, x) else |ids|
  }

  ghost function Positions(ids: seq<Identity>, wanted: seq<Identity>): seq<nat> {
    seq(|wanted|, k requires 0 <= k < |wanted| => PositionOf(ids, wanted[k]))
  }

  lemma PositionIs(ids: seq<Identity>, x: Identity, i: nat)
    requires Distinct(ids, 0) && i < |ids| && ids[i] == x
    ensures PositionOf(ids, x) == i
  {
  }

  lemma PositionsAre(ids: seq<Identity>, wanted: seq<Identity>, positions: seq<nat>)
    requires Distinct(ids, 0) && |positions| == |wanted|
    requires forall k :: 0 <= k < |positions| ==> positions[k] < |ids| && ids[positions[k]] == wanted[k]
    ensures positions == Positions(ids, wanted)
  {
    hide PositionOf, Distinct;
    forall k | 0 <= k < |positions|
      ensures positions[k] == PositionOf(ids, wanted[k])
    {
      PositionIs(ids, wanted[k], positions[k]);
    }
  }

  /**
   What a sample asks the tables for, innermost function first: the functions within the depth, then the
   marker of a cut stack if that fits; the engine's marker if there is no function.
   */
  ghost function Trail(names: Names, limits: Limits, stack: Stack, depth: nat): seq<Identity> {
    var wanted := Wanted(stack, depth);
    if wanted == [] then [ENGINE]
    else if |Callees(stack)| > depth && NamesFit(names, limits, wanted + [TRUNCATED]) then wanted + [TRUNCATED]
    else wanted
  }

  /** No frame within the depth is nameless, and what the sample asks for is in the tables or fits. */
  ghost predicate SampleFits(names: Names, tree: Tree, limits: Limits, maxDepth: nat, stack: Stack)
    requires tree.nodes != []
  {
    var trail := Trail(names, limits, stack, EffectiveDepth(maxDepth));
    && !Nameless(stack, EffectiveDepth(maxDepth))
    && NamesFit(names, limits, trail)
    && NodesFit(tree.nodes, limits.nodes, NODE_ROOT, Positions(names.ids + NewOnes(names.ids, trail), trail))
  }

  lemma MarkerInterned(names: Names, limits: Limits, marker: Identity)
    requires Distinct(names.ids, 0) && Cut(marker) == marker && marker.name != []
    ensures var (names', id) := Interned(names, limits.frames, limits.arena, marker);
      && (id.Some? <==> NextFits(names, limits, marker))
      && names'.ids == names.ids + (if id.Some? && marker !in names.ids then [marker] else [])
      && (id.Some? ==>
            && names'.used == (if marker in names.ids then names.used else StoredEnd(names.used, marker))
            && Distinct(names'.ids, 0) && id.value == PositionOf(names'.ids, marker))
  {
    InternRefusedIff(names, limits.frames, limits.arena, marker);
    InternedMeans(names, limits.frames, limits.arena, marker);
  }

  lemma OneStepDown(tree: Tree, capacity: nat, node: nat, id: nat)
    requires tree.nodes != []
    ensures Descended(tree, capacity, node, [id]).1.Some? <==> Child(tree, capacity, node, id).1.Some?
  {
    assert [id][..0] == [];
  }

  lemma OneAloneFits(names: Names, limits: Limits, x: Identity)
    ensures NamesFit(names, limits, [x]) <==> NextFits(names, limits, x)
    ensures NewOnes(names.ids, [x]) == if x in names.ids then [] else [x]
  {
    assert [x][1..] == [];
    assert NewOnes(names.ids, [x]) == if x in names.ids then [] else [x];
    assert EndOf(names.used, [x]) == StoredEnd(names.used, x);
  }

  lemma EngineKept(names: Names, tree: Tree, limits: Limits, maxDepth: nat, stack: Stack, walk: Walk)
    requires Sound(names, tree) && walk == Walked(names, limits, stack, EffectiveDepth(maxDepth)) && walk.ok
    requires Wanted(stack, EffectiveDepth(maxDepth)) == [] && walk.ids == [] && !walk.cut
    requires walk.names.ids == names.ids && walk.names.used == names.used
    requires !Nameless(stack, EffectiveDepth(maxDepth))
    ensures Placed(names, tree, limits, maxDepth, stack).node.Some? <==> SampleFits(names, tree, limits, maxDepth, stack)
  {
    hide Walked, Interned, Child, StoredEnd, NamesFit, NodesFit, Nameless;
    MarkersFit();
    MarkerInterned(walk.names, limits, ENGINE);
    OneAloneFits(names, limits, ENGINE);
    var ids := names.ids + NewOnes(names.ids, [ENGINE]);
    var m := PositionOf(ids, ENGINE);
    assert Positions(ids, [ENGINE]) == [m];
    OneStepDown(tree, limits.nodes, NODE_ROOT, m);
    DescentSucceedsIff(tree, limits.nodes, NODE_ROOT, [m]);
    var (names', id) := Interned(walk.names, limits.frames, limits.arena, ENGINE);
    assert id.Some? ==> names'.ids == ids;
    assert Descended(tree, limits.nodes, NODE_ROOT, []) == (tree, Some(NODE_ROOT));
    assert Placed(names, tree, limits, maxDepth, stack) == MarkerChild(walk.names, tree, limits, NODE_ROOT, ENGINE, None);
    assert Trail(names, limits, stack, EffectiveDepth(maxDepth)) == [ENGINE];
  }

  /** A walk and the names after it, as the sample goes on to use them. */
  ghost predicate WalkDone(names: Names, stack: Stack, depth: nat, walk: Walk) {
    && walk.ok && Distinct(walk.names.ids, 0) && Holding(walk.names, names, Wanted(stack, depth))
    && walk.ids == Positions(walk.names.ids, Wanted(stack, depth))
    && (walk.cut <==> |Callees(stack)| > depth)
  }

  lemma WalkIsDone(names: Names, limits: Limits, stack: Stack, depth: nat)
    requires Distinct(names.ids, 0)
    ensures var walk := Walked(names, limits, stack, depth);
      walk.ok ==> WalkDone(names, stack, depth, walk)
  {
    var walk := Walked(names, limits, stack, depth);
    WalkSucceedsIff(names, limits, stack, depth);
    WalkedMeans(names, limits, stack, depth);
    if walk.ok {
      assert forall k :: 0 <= k < |walk.ids| ==> Named(walk.names.ids, walk.ids)[k] == walk.names.ids[walk.ids[k]];
      PositionsAre(walk.names.ids, Wanted(stack, depth), walk.ids);
    }
  }

  lemma PositionsKept(ids: seq<Identity>, ids': seq<Identity>, wanted: seq<Identity>)
    requires Distinct(ids', 0) && ids <= ids' && forall k :: 0 <= k < |wanted| ==> wanted[k] in ids
    ensures Positions(ids', wanted) == Positions(ids, wanted)
  {
    forall k | 0 <= k < |wanted|
      ensures PositionOf(ids', wanted[k]) == PositionOf(ids, wanted[k])
    {
      assert ids'[PositionOf(ids, wanted[k])] == wanted[k];
    }
  }

  lemma {:induction false} NewOnesCover(known: seq<Identity>, wanted: seq<Identity>, k: nat)
    requires k < |wanted|
    ensures wanted[k] in known + NewOnes(known, wanted)
    decreases |wanted|
  {
    if wanted[0] in known {
      if k > 0 {
        NewOnesCover(known, wanted[1..], k - 1);
      }
    } else {
      var added := NewOnes(known + [wanted[0]], wanted[1..]);
      JoinsEitherWay(known, [wanted[0]], added);
      if k > 0 {
        NewOnesCover(known + [wanted[0]], wanted[1..], k - 1);
      } else {
        assert (known + ([wanted[0]] + added))[|known|] == wanted[0];
      }
    }
  }

  /** A stack that hangs from the root, cut or not. */
  lemma RootedKept(names: Names, tree: Tree, limits: Limits, stack: Stack, depth: nat, walk: Walk)
    requires WellFormed(tree.nodes) && WalkDone(names, stack, depth, walk) && walk.ids != []
    requires Trail(names, limits, stack, depth) == Wanted(stack, depth)
    ensures var trail := Trail(names, limits, stack, depth);
      Descended(tree, limits.nodes, NODE_ROOT, walk.ids).1.Some? <==>
        NodesFit(tree.nodes, limits.nodes, NODE_ROOT, Positions(names.ids + NewOnes(names.ids, trail), trail))
  {
    hide Descended, Trail;
    DescentSucceedsIff(tree, limits.nodes, NODE_ROOT, walk.ids);
  }

  /** A cut stack that hangs from the marker. */
  lemma MarkedKept(names: Names, tree: Tree, limits: Limits, stack: Stack, depth: nat, walk: Walk, names': Names, m: nat)
    requires WellFormed(tree.nodes) && WalkDone(names, stack, depth, walk) && walk.ids != []
    requires Trail(names, limits, stack, depth) == Wanted(stack, depth) + [TRUNCATED]
    requires Distinct(names'.ids, 0) && Holding(names', names, Wanted(stack, depth) + [TRUNCATED])
    requires walk.names.ids <= names'.ids && m == PositionOf(names'.ids, TRUNCATED)
    ensures var trail := Trail(names, limits, stack, depth);
      Descended(tree, limits.nodes, NODE_ROOT, walk.ids + [m]).1.Some? <==>
        NodesFit(tree.nodes, limits.nodes, NODE_ROOT, Positions(names.ids + NewOnes(names.ids, trail), trail))
  {
    hide Descended, Trail, NodesFit;
    var wanted := Wanted(stack, depth);
    forall k | 0 <= k < |wanted|
      ensures wanted[k] in walk.names.ids
    {
      NewOnesCover(names.ids, wanted, k);
    }
    PositionsKept(walk.names.ids, names'.ids, wanted);
    assert Positions(names'.ids, wanted + [TRUNCATED]) == walk.ids + [m];
    DescentSucceedsIff(tree, limits.nodes, NODE_ROOT, walk.ids + [m]);
  }

  lemma MarkerThenDown(tree: Tree, capacity: nat, m: nat, ids: seq<nat>)
    requires tree.nodes != []
    ensures Descended(tree, capacity, NODE_ROOT, ids + [m]) ==
      var (tree', child) := Child(tree, capacity, NODE_ROOT, m);
      if child.None? then (tree', None) else Descended(tree', capacity, child.value, ids)
  {
    assert (ids + [m])[..|ids|] == ids;
  }

  lemma UncutKept(names: Names, tree: Tree, limits: Limits, maxDepth: nat, stack: Stack, walk: Walk)
    requires Sound(names, tree) && walk == Walked(names, limits, stack, EffectiveDepth(maxDepth))
    requires WalkDone(names, stack, EffectiveDepth(maxDepth), walk) && walk.ids != [] && !walk.cut
    ensures Placed(names, tree, limits, maxDepth, stack).node.Some? <==>
      NodesFit(tree.nodes, limits.nodes, NODE_ROOT,
        Positions(names.ids + NewOnes(names.ids, Trail(names, limits, stack, EffectiveDepth(maxDepth))),
                  Trail(names, limits, stack, EffectiveDepth(maxDepth))))
  {
    hide Walked, NodesFit, Descended, NamesFit;
    RootedKept(names, tree, limits, stack, EffectiveDepth(maxDepth), walk);
  }

  lemma CutKept(names: Names, tree: Tree, limits: Limits, maxDepth: nat, stack: Stack, walk: Walk)
    requires Sound(names, tree) && walk == Walked(names, limits, stack, EffectiveDepth(maxDepth))
    requires WalkDone(names, stack, EffectiveDepth(maxDepth), walk) && walk.ids != [] && walk.cut
    requires NamesFit(names, limits, Wanted(stack, EffectiveDepth(maxDepth)))
    ensures Placed(names, tree, limits, maxDepth, stack).node.Some? <==>
      NodesFit(tree.nodes, limits.nodes, NODE_ROOT,
        Positions(names.ids + NewOnes(names.ids, Trail(names, limits, stack, EffectiveDepth(maxDepth))),
                  Trail(names, limits, stack, EffectiveDepth(maxDepth))))
  {
    hide Walked, NodesFit, Descended, NamesFit, Interned, Child, Holding, NextFits;
    var depth := EffectiveDepth(maxDepth);
    var wanted := Wanted(stack, depth);
    MarkersFit();
    MarkerInterned(walk.names, limits, TRUNCATED);
    OneMoreFits(names, limits, wanted, TRUNCATED, walk.names);
    var (names', id) := Interned(walk.names, limits.frames, limits.arena, TRUNCATED);
    if id.None? {
      RootedKept(names, tree, limits, stack, depth, walk);
    } else {
      OneMoreHeld(names, wanted, TRUNCATED, walk.names, names');
      MarkedKept(names, tree, limits, stack, depth, walk, names', id.value);
      MarkerThenDown(tree, limits.nodes, id.value, walk.ids);
    }
  }

  /** A sample gets its node exactly if it fits. */
  lemma PlacedIff(names: Names, tree: Tree, limits: Limits, maxDepth: nat, stack: Stack)
    requires Sound(names, tree)
    ensures Placed(names, tree, limits, maxDepth, stack).node.Some? <==> SampleFits(names, tree, limits, maxDepth, stack)
  {
    hide Walked, Landed, Entered, NodesFit, NewOnes, EndOf, Nameless;
    var depth := EffectiveDepth(maxDepth);
    var walk := Walked(names, limits, stack, depth);
    WalkSucceedsIff(names, limits, stack, depth);
    WalkIsDone(names, limits, stack, depth);
    if !walk.ok {
      NotWalked(names, limits, stack, depth);
    } else if walk.ids == [] {
      NothingWanted(names, stack, depth, walk);
      EngineKept(names, tree, limits, maxDepth, stack, walk);
    } else {
      TrailFits(names, limits, stack, depth);
      if walk.cut {
        CutKept(names, tree, limits, maxDepth, stack, walk);
      } else {
        UncutKept(names, tree, limits, maxDepth, stack, walk);
      }
    }
  }

  lemma NotWalked(names: Names, limits: Limits, stack: Stack, depth: nat)
    requires !NamesFit(names, limits, Wanted(stack, depth)) || Nameless(stack, depth)
    ensures Nameless(stack, depth) || !NamesFit(names, limits, Trail(names, limits, stack, depth))
  {
    var wanted := Wanted(stack, depth);
    if wanted != [] {
      OneMoreFits(names, limits, wanted, TRUNCATED,
                  Names(names.ids + NewOnes(names.ids, wanted), EndOf(names.used, NewOnes(names.ids, wanted)), 0));
    }
  }

  lemma NothingWanted(names: Names, stack: Stack, depth: nat, walk: Walk)
    requires WalkDone(names, stack, depth, walk) && walk.ids == [] && depth > 0
    ensures Wanted(stack, depth) == [] && !walk.cut
    ensures walk.names.ids == names.ids && walk.names.used == names.used
  {
    assert |Positions(walk.names.ids, Wanted(stack, depth))| == |Wanted(stack, depth)|;
  }

  lemma TrailFits(names: Names, limits: Limits, stack: Stack, depth: nat)
    requires NamesFit(names, limits, Wanted(stack, depth)) && Wanted(stack, depth) != []
    ensures NamesFit(names, limits, Trail(names, limits, stack, depth))
  {
  }

  /** A sample is recorded, in full, exactly if it fits; else it is dropped, in full. */
  lemma RecordedIffFits(p: Profile, limits: Limits, maxDepth: nat, stack: Stack, weight: nat)
    requires Consistent(p)
    ensures var p' := Collected(p, limits, maxDepth, stack, weight);
      if SampleFits(p.names, p.tree, limits, maxDepth, stack)
      then p'.samples == p.samples + weight && p'.dropped == p.dropped
      else p'.samples == p.samples && p'.dropped == p.dropped + weight
  {
    hide Placed, SampleFits;
    PlacedIff(p.names, p.tree, limits, maxDepth, stack);
  }

  // ------------------------------------------------------------------ room that is enough

  lemma {:induction false} AddedIsBounded(known: seq<Identity>, wanted: seq<Identity>, used: nat)
    requires forall k :: 0 <= k < |wanted| ==> |wanted[k].name| <= 320 && |wanted[k].file| <= 320
    ensures var added := NewOnes(known, wanted);
      |added| <= |wanted| && EndOf(used, added) <= used + 656 * |added|
    decreases |wanted|
  {
    if wanted != [] {
      if wanted[0] in known {
        AddedIsBounded(known, wanted[1..], used);
      } else {
        AddedIsBounded(known + [wanted[0]], wanted[1..], StoredEnd(used, wanted[0]));
        assert ([wanted[0]] + NewOnes(known + [wanted[0]], wanted[1..]))[1..] == NewOnes(known + [wanted[0]], wanted[1..]);
      }
    }
  }

  lemma {:induction false} CalleesAreCut(stack: Stack)
    ensures forall k :: 0 <= k < |Callees(stack)| ==> |Callees(stack)[k].name| <= 320 && |Callees(stack)[k].file| <= 320
    decreases |stack|
  {
    if stack != [] {
      CalleesAreCut(stack[1..]);
    }
  }

  /**
   So much room is always enough: a place for each function within the depth and one marker, in the frame
   table and among the nodes, and 656 bytes of the arena for each.
   */
  lemma RoomIsEnough(p: Profile, limits: Limits, maxDepth: nat, stack: Stack, weight: nat)
    requires Consistent(p) && !Nameless(stack, EffectiveDepth(maxDepth))
    requires var n := Min(|Callees(stack)|, EffectiveDepth(maxDepth)) + 1;
      && |p.names.ids| + n <= limits.frames && p.names.used + 656 * n <= limits.arena
      && |p.tree.nodes| + n <= limits.nodes
    ensures var p' := Collected(p, limits, maxDepth, stack, weight);
      p'.samples == p.samples + weight && p'.dropped == p.dropped
  {
    hide Collected, NewOnes, EndOf, MissingNodes, Nameless;
    var n := Min(|Callees(stack)|, EffectiveDepth(maxDepth)) + 1;
    var trail := Trail(p.names, limits, stack, EffectiveDepth(maxDepth));
    CalleesAreCut(stack);
    AddedIsBounded(p.names.ids, trail, p.names.used);
    assert 656 * |NewOnes(p.names.ids, trail)| <= 656 * n;
    RecordedIffFits(p, limits, maxDepth, stack, weight);
  }

  lemma {:induction false} Ancestor(nodes: seq<Node>, node: nat, k: nat) returns (a: nat)
    requires WellFormed(nodes) && node < |nodes| && k <= |Path(nodes, node)|
    ensures a < |nodes| && Path(nodes, a) == Path(nodes, node)[..k]
    decreases node
  {
    a := node;
    if k < |Path(nodes, node)| {
      a := Ancestor(nodes, nodes[node].edge.parent, k);
    } else {
      assert Path(nodes, node)[..k] == Path(nodes, node);
    }
  }

  lemma StepIsThere(nodes: seq<Node>, start: nat, next: nat, frame: nat)
    requires WellFormed(nodes) && start < |nodes| && next < |nodes|
    requires Path(nodes, next) == Path(nodes, start) + [frame]
    ensures FindEdge(nodes, Edge(start, frame), 1) == Some(next)
  {
    var parent := nodes[next].edge.parent;
    assert Path(nodes, parent) == Path(nodes, next)[..|Path(nodes, start)|] == Path(nodes, start);
    assert nodes[next].edge.frame == Path(nodes, next)[|Path(nodes, start)|];
    PathsAreDistinct(nodes, parent, start);
  }

  /** Below a node nothing is missing of a path the tree has. */
  lemma {:induction false} NothingMissing(nodes: seq<Node>, start: nat, node: nat, ids: seq<nat>)
    requires WellFormed(nodes) && start < |nodes| && node < |nodes|
    requires Path(nodes, node) == Path(nodes, start) + Reverse(ids)
    ensures MissingNodes(nodes, start, ids) == 0
    decreases |ids|
  {
    if ids != [] {
      var last, k := |ids| - 1, |Path(nodes, start)|;
      var next := Ancestor(nodes, node, k + 1);
      assert Path(nodes, next) == Path(nodes, start) + [ids[last]];
      StepIsThere(nodes, start, next, ids[last]);
      JoinsEitherWay(Path(nodes, start), [ids[last]], Reverse(ids[..last]));
      NothingMissing(nodes, next, node, ids[..last]);
    }
  }

  lemma {:induction false} AllKnown(known: seq<Identity>, wanted: seq<Identity>)
    requires forall k :: 0 <= k < |wanted| ==> wanted[k] in known
    ensures NewOnes(known, wanted) == []
    decreases |wanted|
  {
    if wanted != [] {
      AllKnown(known, wanted[1..]);
    }
  }

  function Turned(path: seq<nat>): seq<nat> {
    seq(|path|, k requires 0 <= k < |path| => path[|path| - 1 - k])
  }

  lemma TurnedBack(path: seq<nat>)
    ensures Reverse(Turned(path)) == path
  {
    hide Reverse;
    forall k | 0 <= k < |path|
      ensures Reverse(Turned(path))[k] == path[k]
    {
      ReverseAt(Turned(path), k);
    }
  }

  lemma TurnedAt(ids: seq<Identity>, path: seq<nat>, trail: seq<Identity>, k: nat)
    requires (forall i :: 0 <= i < |path| ==> path[i] < |ids|) && |path| == |trail|
    requires Named(ids, path) == Reverse(trail) && k < |path|
    ensures ids[path[|path| - 1 - k]] == trail[k]
  {
    hide Reverse;
    var j := |path| - 1 - k;
    ReverseAt(trail, j);
    assert Named(ids, path)[j] == ids[path[j]];
  }

  /** The frames of a path turned round are the places of its identities turned round. */
  lemma PathTurned(ids: seq<Identity>, path: seq<nat>, trail: seq<Identity>)
    requires Distinct(ids, 0) && forall i :: 0 <= i < |path| ==> path[i] < |ids|
    requires Named(ids, path) == Reverse(trail)
    ensures Turned(path) == Positions(ids, trail)
    ensures forall k :: 0 <= k < |trail| ==> trail[k] in ids
  {
    hide Reverse, Distinct, Positions;
    assert |path| == |Named(ids, path)| == |trail|;
    forall k | 0 <= k < |path|
      ensures ids[path[|path| - 1 - k]] == trail[k]
    {
      TurnedAt(ids, path, trail, k);
    }
    PositionsAre(ids, trail, Turned(path));
  }

  /** What a stack's call path turned round is; all of it is known if the tree has the path. */
  ghost function WholeTrail(stack: Stack, depth: nat): seq<Identity> {
    var wanted := Wanted(stack, depth);
    if wanted == [] then [ENGINE] else if |Callees(stack)| > depth then wanted + [TRUNCATED] else wanted
  }

  lemma PathIsWholeTrail(stack: Stack, maxDepth: nat)
    ensures SamplePath(stack, maxDepth, true) == Reverse(WholeTrail(stack, EffectiveDepth(maxDepth)))
  {
    var callees, depth := Callees(stack), EffectiveDepth(maxDepth);
    var wanted := Wanted(stack, depth);
    if callees == [] {
      assert [ENGINE][..0] == [];
    } else if |callees| <= depth {
      assert wanted == callees;
    } else {
      assert (wanted + [TRUNCATED])[..|wanted|] == wanted;
    }
  }

  /** A call path that is in the tree is recorded again however full the tables are. */
  lemma KnownPathIsRecorded(p: Profile, limits: Limits, maxDepth: nat, stack: Stack, weight: nat, node: nat)
    requires Consistent(p) && !Nameless(stack, EffectiveDepth(maxDepth))
    requires node < |p.tree.nodes| && PathOf(p.names, p.tree, node) == SamplePath(stack, maxDepth, true)
    ensures var p' := Collected(p, limits, maxDepth, stack, weight);
      p'.samples == p.samples + weight && p'.dropped == p.dropped
  {
    hide Collected, Callees, Reverse, Nameless, MissingNodes;
    var depth, path := EffectiveDepth(maxDepth), Path(p.tree.nodes, node);
    var trail := WholeTrail(stack, depth);
    PathKnown(p.tree.nodes, |p.names.ids|, node);
    PathIsWholeTrail(stack, maxDepth);
    PathTurned(p.names.ids, path, trail);
    AllKnown(p.names.ids, trail);
    assert Trail(p.names, limits, stack, depth) == trail;
    TurnedBack(path);
    assert Path(p.tree.nodes, NODE_ROOT) + Reverse(Turned(path)) == path;
    NothingMissing(p.tree.nodes, NODE_ROOT, node, Turned(path));
    assert p.names.ids + [] == p.names.ids;
    RecordedIffFits(p, limits, maxDepth, stack, weight);
  }
}
