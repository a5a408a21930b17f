/** One sample: a stack walk, interned frame by frame and folded into the call tree, as functions on values. */
module Sampling {
  import opened Common
  import opened Frames
  import opened StackTree

  const DEPTH_HARD_MAX: nat := 256

  const SCOPE_SEPARATOR: bytes := [58, 58]                                        // ::
  const MAIN: bytes := [123, 109, 97, 105, 110, 125]                              // {main}
  const ENGINE_NAME: bytes := [60, 101, 110, 103, 105, 110, 101, 62]              // <engine>
  const TRUNCATED_NAME: bytes := [60, 116, 114, 117, 110, 99, 97, 116, 101, 100, 62] // <truncated>

  const ENGINE: Identity := Identity(ENGINE_NAME, [], 0)
  const TRUNCATED: Identity := Identity(TRUNCATED_NAME, [], 0)

  lemma MarkersFit()
    ensures Cut(ENGINE) == ENGINE && Cut(TRUNCATED) == TRUNCATED
  {
  }

  /** The parts of an engine function the profiler reads. */
  datatype Func = Func(scope: Option<bytes>, name: Option<bytes>, user: bool, file: Option<bytes>, line: nat)

  /** The capacities fixed at module startup. */
  datatype Limits = Limits(frames: nat, arena: nat, nodes: nat)

  /** A call frame; a stack is the engine's chain of them, innermost first. */
  datatype CallFrame = CallFrame(func: Option<Func>)
  type Stack = seq<CallFrame>

  // ------------------------------------------------------------- naming a frame

  function FullName(func: Func): bytes {
    (if func.scope.Some? then func.scope.value + SCOPE_SEPARATOR else [])
    + (if func.name.Some? then func.name.value else MAIN)
  }

  /** A function is known by its name and where it is declared; internal ones have no place. */
  function IdentityOf(func: Func): Identity {
    Identity(FullName(func),
             if func.user && func.file.Some? then func.file.value else [],
             if func.user then func.line else 0)
  }

  function NameAppend(name: bytes, text: bytes): (r: bytes)
    requires |name| <= FRAME_NAME_MAX
    ensures |r| <= FRAME_NAME_MAX
  {
    name + text[..Min(|text|, FRAME_NAME_MAX - |name|)]
  }

  /** Appending pieces to a bounded buffer cuts their concatenation. */
  lemma AppendCuts(text: bytes, more: bytes)
    ensures NameAppend(CutName(text), more) == CutName(text + more)
  {
  }

  /** The bounded buffer ends up holding the start of the full name. */
  method BuildName(func: Func) returns (name: bytes)
    ensures name == CutName(FullName(func))
  {
    name := [];
    ghost var scope := [];
    if func.scope.Some? {
      name := NameAppend(name, func.scope.value);
      AppendCuts(func.scope.value, SCOPE_SEPARATOR);
      name := NameAppend(name, SCOPE_SEPARATOR);
      scope := func.scope.value + SCOPE_SEPARATOR;
    }
    if func.name.Some? {
      AppendCuts(scope, func.name.value);
      name := NameAppend(name, func.name.value);
    } else {
      AppendCuts(scope, MAIN);
      name := NameAppend(name, MAIN);
    }
  }

  // ------------------------------------------------------- one sample, on values

  /** Everything one sample may change. */
  datatype Profile = Profile(names: Names, tree: Tree, samples: nat, dropped: nat)

  const EMPTY: Profile := Profile(NO_NAMES, NO_STACKS, 0, 0)

  function EffectiveDepth(maxDepth: nat): (depth: nat)
    ensures 1 <= depth <= DEPTH_HARD_MAX
  {
    if maxDepth == 0 || maxDepth > DEPTH_HARD_MAX then DEPTH_HARD_MAX else maxDepth
  }

  /** The outcome of a walk: frame ids innermost first, whether frames were left out, and whether all were interned. */
  datatype Walk = Walk(names: Names, ids: seq<nat>, cut: bool, ok: bool)

  ghost function Walked(names: Names, limits: Limits, stack: Stack, room: nat): Walk
    decreases |stack|
  {
    if stack == [] then Walk(names, [], false, true)
    else if stack[0].func.None? then Walked(names, limits, stack[1..], room)
    else if room == 0 then Walk(names, [], true, true)
    else
      var (names', id) := Interned(names, limits.frames, limits.arena, IdentityOf(stack[0].func.value));
      if id.None? then Walk(names', [], false, false)
      else
        After([id.value], Walked(names', limits, stack[1..], room - 1))
  }

  /** The ids collected so far followed by those of the rest of the walk. */
  function After(ids: seq<nat>, rest: Walk): Walk {
    rest.(ids := ids + rest.ids)
  }

  /** With these ids collected, the rest of the stack from the i-th frame on completes the walk. */
  ghost predicate WalkAhead(walk: Walk, names: Names, limits: Limits, stack: Stack, i: nat, room: nat, ids: seq<nat>) {
    i <= |stack| && walk == After(ids, Walked(names, limits, stack[i..], room))
  }

  /** The walk has ended with these ids, or goes on from the i-th frame. */
  ghost predicate WalkCame(walk: Walk, names: Names, limits: Limits, stack: Stack, i: nat, room: nat, ids: seq<nat>,
                           cut: bool, ok: bool) {
    if cut || !ok then walk == Walk(names, ids, cut, ok) else WalkAhead(walk, names, limits, stack, i, room, ids)
  }

  lemma WalkBegins(names: Names, limits: Limits, stack: Stack, room: nat, none: seq<nat>)
    requires none == []
    ensures WalkCame(Walked(names, limits, stack, room), names, limits, stack, 0, room, none, false, true)
  {
    assert stack[0..] == stack;
    assert [] + Walked(names, limits, stack, room).ids == Walked(names, limits, stack, room).ids;
  }

  lemma WalkEnds(walk: Walk, names: Names, limits: Limits, stack: Stack, i: nat, room: nat, ids: seq<nat>, cut: bool, ok: bool)
    requires WalkCame(walk, names, limits, stack, i, room, ids, cut, ok) && (i >= |stack| || cut || !ok)
    ensures walk == Walk(names, ids, cut, ok)
  {
  }

  /** What the walk of the rest of a stack comes down to after its next frame. */
  lemma FrameAhead(walk: Walk, names: Names, limits: Limits, stack: Stack, i: nat, room: nat, ids: seq<nat>)
    requires i < |stack|
    ensures WalkAhead(walk, names, limits, stack, i, room, ids) ==>
      if stack[i].func.None? then WalkAhead(walk, names, limits, stack, i + 1, room, ids)
      else if room == 0 then walk == Walk(names, ids, true, true)
      else
        var (names', id) := Interned(names, limits.frames, limits.arena, IdentityOf(stack[i].func.value));
        if id.None? then walk == Walk(names', ids, false, false)
        else WalkAhead(walk, names', limits, stack, i + 1, room - 1, ids + [id.value])
  {
    assert stack[i..][1..] == stack[i + 1..];
    if stack[i].func.Some? && room > 0 {
      var (names', id) := Interned(names, limits.frames, limits.arena, IdentityOf(stack[i].func.value));
      if id.Some? {
        JoinsEitherWay(ids, [id.value], Walked(names', limits, stack[i + 1..], room - 1).ids);
      }
    }
  }

  /** Follows, and where needed creates, the nodes of a path given innermost frame first. */
  function Descended(tree: Tree, capacity: nat, node: nat, ids: seq<nat>): (r: (Tree, Option<nat>))
    requires tree.nodes != []
    ensures r.0.nodes != []
    decreases |ids|
  {
    if ids == [] then (tree, Some(node))
    else
      var (tree', child) := Child(tree, capacity, node, ids[|ids| - 1]);
      if child.None? then (tree', None)
      else Descended(tree', capacity, child.value, ids[..|ids| - 1])
  }

  /** The names and the tree after looking for a sample's node, and the node unless some table was full. */
  datatype Place = Place(names: Names, tree: Tree, node: Option<nat>)

  /** The child of a node that stands for a marker rather than a call frame. */
  ghost function MarkerChild(names: Names, tree: Tree, limits: Limits, parent: nat, marker: Identity, orElse: Option<nat>): (at: Place)
    requires tree.nodes != []
    ensures at.tree.nodes != []
  {
    var (names', id) := Interned(names, limits.frames, limits.arena, marker);
    if id.None? then Place(names', tree, orElse)
    else
      var (tree', node) := Child(tree, limits.nodes, parent, id.value);
      Place(names', tree', node)
  }

  /** A cut stack hangs from the truncation marker if that can be interned, else from the root. */
  ghost function Entered(names: Names, tree: Tree, limits: Limits, cut: bool): (at: Place)
    requires tree.nodes != []
    ensures at.tree.nodes != []
  {
    if cut then MarkerChild(names, tree, limits, NODE_ROOT, TRUNCATED, Some(NODE_ROOT))
    else Place(names, tree, Some(NODE_ROOT))
  }

  /** Down from the node a stack hangs from; with no call frame at all, to the engine's marker. */
  ghost function Landed(names: Names, tree: Tree, limits: Limits, node: nat, ids: seq<nat>, cut: bool): (at: Place)
    requires tree.nodes != []
    ensures at.tree.nodes != []
  {
    var (tree', found) := Descended(tree, limits.nodes, node, ids);
    if found.Some? && ids == [] && !cut then MarkerChild(names, tree', limits, found.value, ENGINE, None)
    else Place(names, tree', found)
  }

  ghost function Placed(names: Names, tree: Tree, limits: Limits, maxDepth: nat, stack: Stack): (at: Place)
    requires tree.nodes != []
    ensures at.tree.nodes != []
  {
    var walk := Walked(names, limits, stack, EffectiveDepth(maxDepth));
    if !walk.ok then Place(walk.names, tree, None)
    else
      var at := Entered(walk.names, tree, limits, walk.cut);
      if at.node.None? then at
      else Landed(at.names, at.tree, limits, at.node.value, walk.ids, walk.cut)
  }

  /** The profile once a sample is recorded at its place, or dropped for want of one. */
  function Filed(at: Place, samples: nat, dropped: nat, weight: nat): Profile {
    match at
    case Place(names, tree, None) => Profile(names, tree, samples, dropped + weight)
    case Place(names, tree, Some(node)) => Profile(names, Record(tree, node, weight), samples + weight, dropped)
  }

  ghost function Collected(p: Profile, limits: Limits, maxDepth: nat, stack: Stack, weight: nat): (p': Profile)
    requires p.tree.nodes != []
    ensures p'.tree.nodes != []
  {
    Filed(Placed(p.names, p.tree, limits, maxDepth, stack), p.samples, p.dropped, weight)
  }
}
