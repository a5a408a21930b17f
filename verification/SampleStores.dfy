/** The storage samples are folded into, in place. */
module SampleStores {
  import opened Common
  import opened Arena
  import opened Frames
  import opened StackTree
  import opened Sampling

  /** Where samples are stored: the arena, the frame table, the call tree and the scratch array of a walk. */
  class SampleStore {
    const arena: Arena
    const frames: FrameTable
    const tree: StackTree
    const sampleIds: array<nat>

    var samples: nat
    var dropped: nat
    var truncatedFrame: Option<nat>
    var engineFrame: Option<nat>

    ghost function Parts(): set<object> {
      {arena, arena.base, frames, frames.frames, frames.buckets, tree, tree.nodes, tree.buckets, sampleIds}
    }

    ghost predicate Interning()
      reads this, Parts()
    {
      && this !in Parts()
      && arena.base as object != frames.frames && arena.base as object != frames.buckets
      && arena.Valid() && frames.Valid() && frames.SpelledIn(arena)
      && (truncatedFrame.Some? ==> truncatedFrame.value < |frames.ids| && frames.ids[truncatedFrame.value] == TRUNCATED)
      && (engineFrame.Some? ==> engineFrame.value < |frames.ids| && frames.ids[engineFrame.value] == ENGINE)
    }

    ghost predicate Valid()
      reads this, Parts()
    {
      && frames.buckets != tree.buckets && sampleIds !in {frames.buckets, tree.buckets}
      && sampleIds.Length == DEPTH_HARD_MAX
      && Interning() && tree.Valid()
    }

    ghost function Bounds(): Limits {
      Limits(frames.capacity, arena.size, tree.capacity)
    }

    ghost function Current(): Profile
      requires Valid()
      reads this, Parts()
    {
      Profile(frames.State(arena), tree.State(), samples, dropped)
    }

    constructor (maxFrames: nat, maxNodes: nat, arenaBytes: nat, frameHash: Identity -> nat, edgeHash: Edge -> nat)
      requires 0 < maxFrames <= FRAMES_MAX && 2 <= maxNodes <= NODES_MAX && 0 < arenaBytes <= ARENA_MAX
      ensures Valid() && fresh(Parts())
      ensures Current() == EMPTY && Bounds() == Limits(maxFrames, arenaBytes, maxNodes)
    {
      arena := new Arena(arenaBytes);
      frames := new FrameTable(maxFrames, frameHash);
      tree := new StackTree(maxNodes, edgeHash);
      sampleIds := new nat[DEPTH_HARD_MAX](_ => 0);
      samples, dropped := 0, 0;
      truncatedFrame, engineFrame := None, None;
    }

    /** The name, file and line a function goes by. */
    method Describe(func: Func) returns (name: bytes, file: bytes, line: nat)
      ensures Cut(Identity(name, file, line)) == Cut(IdentityOf(func))
    {
      name := BuildName(func);
      file, line := [], 0;
      if func.user {
        if func.file.Some? {
          file := func.file.value;
        }
        line := func.line;
      }
      CutTwice(FullName(func), file, line);
    }

    method FrameFor(func: Func) returns (id: Option<nat>)
      requires Interning()
      modifies arena, arena.base, frames, frames.frames, frames.buckets
      ensures Interning() && old(frames.ids) <= frames.ids
      ensures (frames.State(arena), id) == Interned(old(frames.State(arena)), frames.capacity, arena.size, IdentityOf(func))
    {
      hide Resolved, FrameTable.Valid, FrameTable.SpelledIn;
      var name, file, line := Describe(func);
      id := frames.Intern(arena, name, file, line);
    }

    method EngineFrame() returns (id: Option<nat>)
      requires Interning()
      modifies this`engineFrame, arena, arena.base, frames, frames.frames, frames.buckets
      ensures Interning() && old(frames.ids) <= frames.ids
      ensures (frames.State(arena), id) == Interned(old(frames.State(arena)), frames.capacity, arena.size, ENGINE)
    {
      MarkersFit();
      if engineFrame.Some? {
        assert frames.ids[engineFrame.value] in frames.ids;
        return engineFrame;
      }
      id := frames.Intern(arena, ENGINE_NAME, [], 0);
      engineFrame := id;
    }

    method TruncationFrame() returns (id: Option<nat>)
      requires Interning()
      modifies this`truncatedFrame, arena, arena.base, frames, frames.frames, frames.buckets
      ensures Interning() && old(frames.ids) <= frames.ids
      ensures (frames.State(arena), id) == Interned(old(frames.State(arena)), frames.capacity, arena.size, TRUNCATED)
    {
      MarkersFit();
      if truncatedFrame.Some? {
        assert frames.ids[truncatedFrame.value] in frames.ids;
        return truncatedFrame;
      }
      id := frames.Intern(arena, TRUNCATED_NAME, [], 0);
      truncatedFrame := id;
    }

    method SetId(depth: nat, id: nat)
      requires Interning() && sampleIds != frames.buckets && depth < sampleIds.Length
      modifies sampleIds
      ensures Interning() && frames.State(arena) == old(frames.State(arena))
      ensures sampleIds[..depth + 1] == old(sampleIds[..depth]) + [id]
    {
      sampleIds[depth] := id;
      assert sampleIds[..depth + 1] == sampleIds[..depth] + [id];
    }

    /** Interns one frame of the walk into slot `depth` of `sampleIds`. */
    method NoteFrame(func: Func, depth: nat) returns (id: Option<nat>)
      requires Interning() && sampleIds != frames.buckets && depth < sampleIds.Length
      modifies arena, arena.base, frames, frames.frames, frames.buckets, sampleIds
      ensures Interning()
      ensures (frames.State(arena), id) == Interned(old(frames.State(arena)), frames.capacity, arena.size, IdentityOf(func))
      ensures if id.Some? then sampleIds[..depth + 1] == old(sampleIds[..depth]) + [id.value]
              else sampleIds[..depth] == old(sampleIds[..depth])
    {
      id := FrameFor(func);
      if id.Some? {
        SetId(depth, id.value);
      }
    }

    /** One turn of the walk: the i-th frame is skipped, cuts the walk off, is refused or gets the next place. */
    method WalkFrame(stack: Stack, i: nat, depth: nat, limit: nat, ghost walk: Walk)
      returns (next: nat, truncated: bool, ok: bool)
      requires Interning() && sampleIds != frames.buckets && depth <= limit <= sampleIds.Length && i < |stack|
      requires WalkAhead(walk, frames.State(arena), Bounds(), stack, i, limit - depth, sampleIds[..depth])
      modifies arena, arena.base, frames, frames.frames, frames.buckets, sampleIds
      ensures Interning() && next <= limit
      ensures WalkCame(walk, frames.State(arena), Bounds(), stack, i + 1, limit - next, sampleIds[..next], truncated, ok)
    {
      hide Interning, WalkAhead, Interned;
      next, truncated, ok := depth, false, true;
      FrameAhead(walk, frames.State(arena), Bounds(), stack, i, limit - depth, sampleIds[..depth]);
      if stack[i].func.Some? {
        if depth >= limit {
          truncated := true;
          return;
        }
        var id := NoteFrame(stack[i].func.value, depth);
        if id.None? {
          ok := false;
          return;
        }
        next := depth + 1;
      }
    }

    /** Interns the frames of a stack, innermost first, into `sampleIds`. */
    method WalkStack(stack: Stack, limit: nat) returns (depth: nat, truncated: bool, ok: bool)
      requires Interning() && sampleIds != frames.buckets && limit <= sampleIds.Length
      modifies arena, arena.base, frames, frames.frames, frames.buckets, sampleIds
      ensures Interning() && depth <= limit
      ensures Walk(frames.State(arena), sampleIds[..depth], truncated, ok)
           == Walked(old(frames.State(arena)), Bounds(), stack, limit)
    {
      depth, truncated, ok := 0, false, true;
      ghost var walk := Walked(frames.State(arena), Bounds(), stack, limit);
      var i := 0;
      WalkBegins(frames.State(arena), Bounds(), stack, limit, sampleIds[..depth]);
      while i < |stack| && !truncated && ok
        invariant depth <= limit && Interning()
        invariant WalkCame(walk, frames.State(arena), Bounds(), stack, i, limit - depth, sampleIds[..depth], truncated, ok)
      {
        depth, truncated, ok := WalkFrame(stack, i, depth, limit, walk);
        i := i + 1;
      }
      WalkEnds(walk, frames.State(arena), Bounds(), stack, i, limit - depth, sampleIds[..depth], truncated, ok);
    }

    /** Descends outermost to innermost, so that the tree mirrors the call path. */
    method Descend(start: nat, depth: nat) returns (node: Option<nat>)
      requires tree.Valid() && sampleIds != tree.buckets && depth <= sampleIds.Length
      modifies tree, tree.nodes, tree.buckets
      ensures tree.Valid()
      ensures (tree.State(), node) == Descended(old(tree.State()), tree.capacity, start, old(sampleIds[..depth]))
    {
      node := Some(start);
      var index := depth;
      while index > 0
        invariant 0 <= index <= depth && node.Some? && tree.Valid()
        invariant Descended(old(tree.State()), tree.capacity, start, old(sampleIds[..depth]))
               == Descended(tree.State(), tree.capacity, node.value, sampleIds[..index])
      {
        index := index - 1;
        assert sampleIds[..index + 1][..index] == sampleIds[..index];
        node := tree.FindOrCreate(node.value, sampleIds[index]);
        if node.None? {
          return;
        }
      }
    }

    /** The node a cut stack hangs from: the marker's if that can be interned, else the root. */
    method EnterTruncated() returns (node: Option<nat>)
      requires Valid()
      modifies this`truncatedFrame, arena, arena.base, frames, frames.frames, frames.buckets, tree, tree.nodes, tree.buckets
      ensures Valid()
      ensures Place(frames.State(arena), tree.State(), node)
           == Entered(old(frames.State(arena)), old(tree.State()), Bounds(), true)
    {
      hide FrameTable.Valid, FrameTable.SpelledIn, StackTree.Valid;
      var marker := TruncationFrame();
      node := Some(NODE_ROOT);
      if marker.Some? {
        node := tree.FindOrCreate(NODE_ROOT, marker.value);
      }
    }

    /** The node of samples taken with no PHP frame on the stack. */
    method EngineNode(parent: nat) returns (node: Option<nat>)
      requires Valid()
      modifies this`engineFrame, arena, arena.base, frames, frames.frames, frames.buckets, tree, tree.nodes, tree.buckets
      ensures Valid()
      ensures Place(frames.State(arena), tree.State(), node)
           == MarkerChild(old(frames.State(arena)), old(tree.State()), Bounds(), parent, ENGINE, None)
    {
      hide FrameTable.Valid, FrameTable.SpelledIn, StackTree.Valid;
      var engine := EngineFrame();
      node := None;
      if engine.Some? {
        node := tree.FindOrCreate(parent, engine.value);
      }
    }

    /** Goes down from the node a stack hangs from, to the engine's marker if there is no call frame. */
    method Land(start: nat, depth: nat, truncated: bool) returns (node: Option<nat>)
      requires Valid() && depth <= sampleIds.Length
      modifies this`engineFrame, arena, arena.base, frames, frames.frames, frames.buckets, tree, tree.nodes, tree.buckets
      ensures Valid()
      ensures Place(frames.State(arena), tree.State(), node)
           == Landed(old(frames.State(arena)), old(tree.State()), Bounds(), start, old(sampleIds[..depth]), truncated)
    {
      node := Descend(start, depth);
      if node.Some? && depth == 0 && !truncated {
        node := EngineNode(node.value);
      }
    }

    /** Finds or creates the node of a stack; None when some table is full. */
    method FindPlace(maxDepth: nat, stack: Stack) returns (node: Option<nat>)
      requires Valid()
      modifies Parts(), this`truncatedFrame, this`engineFrame
      ensures Valid()
      ensures Place(frames.State(arena), tree.State(), node)
           == Placed(old(frames.State(arena)), old(tree.State()), Bounds(), maxDepth, stack)
    {
      var depth, truncated, ok := WalkStack(stack, EffectiveDepth(maxDepth));
      if !ok {
        return None;
      }
      node := Some(NODE_ROOT);
      if truncated {
        node := EnterTruncated();
        if node.None? {
          return;
        }
      }
      node := Land(node.value, depth, truncated);
    }

    method Credit(node: nat, weight: nat)
      requires Valid()
      modifies tree, tree.nodes
      ensures Valid() && tree.State() == Record(old(tree.State()), node, weight)
      ensures frames.State(arena) == old(frames.State(arena))
    {
      hide FrameTable.Valid, FrameTable.SpelledIn;
      tree.Attribute(node, weight);
    }

    /** Books a sample whose node was looked for. */
    method File(node: Option<nat>, weight: nat)
      requires Valid()
      modifies this`samples, this`dropped, tree, tree.nodes
      ensures Valid()
      ensures Current() == Filed(Place(old(frames.State(arena)), old(tree.State()), node), old(samples), old(dropped), weight)
    {
      hide FrameTable.Valid, FrameTable.SpelledIn, StackTree.Valid;
      if node.None? {
        dropped := dropped + weight;
        return;
      }
      Credit(node.value, weight);
      samples := samples + weight;
    }

    /** Folds one sample of the given weight into the tree, or counts it as dropped. */
    method Collect(maxDepth: nat, stack: Stack, weight: nat)
      requires Valid()
      modifies Parts(), this`samples, this`dropped, this`truncatedFrame, this`engineFrame
      ensures Valid()
      ensures Current() == Collected(old(Current()), Bounds(), maxDepth, stack, weight)
    {
      var node := FindPlace(maxDepth, stack);
      File(node, weight);
    }

    method ResetNames()
      requires Interning() && frames.buckets != tree.buckets && tree.Valid()
      modifies arena, frames, frames.buckets, this`truncatedFrame, this`engineFrame
      ensures Interning() && tree.Valid() && frames.State(arena) == NO_NAMES && tree.State() == old(tree.State())
    {
      hide StackTree.Valid;
      arena.Reset();
      frames.Reset();
      truncatedFrame, engineFrame := None, None;
    }

    /** Leaves old array contents behind, and yet a state that cannot be told from a fresh one. */
    method Reset()
      requires Valid()
      modifies Parts(), this
      ensures Valid() && Current() == EMPTY
    {
      hide FrameTable.Valid, FrameTable.SpelledIn, StackTree.Valid;
      ResetNames();
      tree.Reset();
      samples, dropped := 0, 0;
    }
  }
}
