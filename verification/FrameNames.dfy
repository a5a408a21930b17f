/** How the call path a sample is recorded under spells the functions on its stack. */
module FrameNames {
  import opened Common
  import opened CallPaths
  import opened Frames
  import opened Sampling

  /** The functions on a stack, innermost first; frames without a function do not count. */
  function Functions(stack: Stack): seq<Func> {
    if stack == [] then []
    else (if stack[0].func.Some? then [stack[0].func.value] else []) + Functions(stack[1..])
  }

  /** The first 320 bytes of a text. */
  ghost predicate Starts(part: bytes, text: bytes) {
    part <= text && |part| == if |text| < 320 then |text| else 320
  }

  /** `scope::name`, or the one that is there, with `{main}` for code outside any function. */
  ghost predicate IsNamed(name: bytes, f: Func) {
    match f.scope
    case Some(scope) =>
      Starts(name, scope + [58, 58] + if f.name.Some? then f.name.value else [123, 109, 97, 105, 110, 125])
    case None => Starts(name, if f.name.Some? then f.name.value else [123, 109, 97, 105, 110, 125])
  }

  /** Where a user function is declared; nothing for one of the engine's own. */
  ghost predicate IsPlaced(file: bytes, line: nat, f: Func) {
    if !f.user then file == [] && line == 0
    else line == f.line && if f.file.Some? then Starts(file, f.file.value) else file == []
  }

  ghost predicate Tells(id: Identity, f: Func) {
    IsNamed(id.name, f) && IsPlaced(id.file, id.line, f)
  }

  lemma IdentityTells(f: Func)
    ensures Tells(Cut(IdentityOf(f)), f)
  {
  }

  lemma {:induction false} CalleesTell(stack: Stack)
    ensures |Callees(stack)| == |Functions(stack)|
    ensures forall k :: 0 <= k < |Callees(stack)| ==> Tells(Callees(stack)[k], Functions(stack)[k])
    decreases |stack|
  {
    hide Tells, IdentityOf;
    if stack != [] {
      CalleesTell(stack[1..]);
      if stack[0].func.Some? {
        IdentityTells(stack[0].func.value);
      }
    }
  }

  lemma LastAre(front: CallPath, callees: seq<Identity>, k: nat)
    requires k < |callees|
    ensures var path := front + Reverse(callees);
      |path| == |front| + |callees| && path[|path| - 1 - k] == callees[k]
  {
    ReverseAt(callees, |callees| - 1 - k);
  }

  /** How far down a depth setting lets a walk go. */
  function Depth(maxDepth: nat): nat {
    if 1 <= maxDepth <= 256 then maxDepth else 256
  }

  /** The path of a recorded sample ends with its innermost functions, innermost last; a cut one may begin with the marker. */
  ghost predicate PathTells(path: CallPath, functions: seq<Func>, depth: nat) {
    var n := Min(|functions|, depth);
    if functions == [] then path == [Identity([60, 101, 110, 103, 105, 110, 101, 62], [], 0)]
    else
      && n <= |path| <= n + (if |functions| > depth then 1 else 0)
      && (forall k :: 0 <= k < n ==> Tells(path[|path| - 1 - k], functions[k]))
      && (|path| > n ==> path[0] == Identity([60, 116, 114, 117, 110, 99, 97, 116, 101, 100, 62], [], 0))
  }

  lemma SamplePathTells(stack: Stack, maxDepth: nat, marked: bool)
    ensures PathTells(SamplePath(stack, maxDepth, marked), Functions(stack), Depth(maxDepth))
  {
    hide Tells, Reverse, Functions, Callees;
    var path, callees, functions := SamplePath(stack, maxDepth, marked), Callees(stack), Functions(stack);
    var n := Min(|functions|, Depth(maxDepth));
    CalleesTell(stack);
    if callees != [] {
      var front := if |callees| > n && marked then [TRUNCATED] else [];
      assert callees[..n] == callees || n < |callees|;
      assert path == front + Reverse(callees[..n]);
      forall k | 0 <= k < n
        ensures Tells(path[|path| - 1 - k], functions[k])
      {
        LastAre(front, callees[..n], k);
      }
    }
  }

  /** A sample that is recorded is recorded under the functions of its own stack, as they are named and declared. */
  lemma RecordedUnderItsFunctions(p: Profile, limits: Limits, maxDepth: nat, stack: Stack)
    requires CallPaths.Sound(p.names, p.tree)
    ensures var at := Placed(p.names, p.tree, limits, maxDepth, stack);
      at.node.Some? ==>
        && CallPaths.Sound(at.names, at.tree) && at.node.value < |at.tree.nodes|
        && PathTells(PathOf(at.names, at.tree, at.node.value), Functions(stack), Depth(maxDepth))
  {
    hide Placed, SamplePath, PathTells;
    PlacedMeans(p.names, p.tree, limits, maxDepth, stack);
    var at := Placed(p.names, p.tree, limits, maxDepth, stack);
    SamplePathTells(stack, maxDepth, TRUNCATED in at.names.ids);
  }
}
