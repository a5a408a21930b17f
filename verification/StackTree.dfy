/** The call tree: a trie of call paths in a flat node array with a hashed edge index. */
module StackTree {
  import opened Common
  import opened Probing

  const NODE_NONE: nat := UINT32_MAX
  const NODE_ROOT: nat := 0

  datatype Edge = Edge(parent: nat, frame: nat)
  datatype Node = Node(edge: Edge, samples: nat)

  /** What the tree means; node ids are positions in `nodes`. */
  datatype Tree = Tree(nodes: seq<Node>, hits: nat, total: nat)

  const ROOT: Node := Node(Edge(NODE_NONE, UINT32_MAX), 0)
  const NO_STACKS: Tree := Tree([ROOT], 0, 0)

  /** The least node from `from` up that hangs on this edge. */
  function FindEdge(nodes: seq<Node>, edge: Edge, from: nat): (found: Option<nat>)
    requires from <= |nodes|
    ensures found.Some? ==> from <= found.value < |nodes| && nodes[found.value].edge == edge
    ensures found.None? ==> forall i :: from <= i < |nodes| ==> nodes[i].edge != edge
    decreases |nodes| - from
  {
    if from == |nodes| then None
    else if nodes[from].edge == edge then Some(from)
    else FindEdge(nodes, edge, from + 1)
  }

  function Created(tree: Tree, capacity: nat, edge: Edge): (Tree, Option<nat>) {
    if |tree.nodes| >= capacity then (tree.(hits := tree.hits + 1), None)
    else (tree.(nodes := tree.nodes + [Node(edge, 0)]), Some(|tree.nodes|))
  }

  /** With no edge occurring twice, any search that finds an edge, or proves it absent, is the linear one. */
  lemma SearchAgrees(nodes: seq<Node>, edges: seq<Edge>, edge: Edge, found: Option<nat>)
    requires 1 <= |nodes| == |edges| && (forall i :: 0 <= i < |nodes| ==> nodes[i].edge == edges[i]) && Distinct(edges, 1)
    requires if found.Some? then 1 <= found.value < |edges| && edges[found.value] == edge
             else forall i :: 1 <= i < |edges| ==> edges[i] != edge
    ensures FindEdge(nodes, edge, 1) == found
  {
  }

  /** Find-or-create as a linear search of the node array. */
  function Child(tree: Tree, capacity: nat, parent: nat, frame: nat): (Tree, Option<nat>)
    requires tree.nodes != []
  {
    if parent >= |tree.nodes| then (tree, None)
    else
      var edge := Edge(parent, frame);
      match FindEdge(tree.nodes, edge, 1)
      case Some(id) => (tree, Some(id))
      case None => Created(tree, capacity, edge)
  }

  function Record(tree: Tree, node: nat, weight: nat): Tree {
    if node >= |tree.nodes| || weight == 0 then tree
    else Tree(tree.nodes[node := tree.nodes[node].(samples := tree.nodes[node].samples + weight)],
              tree.hits, tree.total + weight)
  }

  /** The root comes first, every other node after its parent, and no edge occurs twice. */
  ghost predicate WellFormed(nodes: seq<Node>) {
    && nodes != [] && nodes[0] == ROOT
    && (forall i :: 1 <= i < |nodes| ==> nodes[i].edge.parent < i)
    && (forall i, j :: 1 <= i < j < |nodes| ==> nodes[i].edge != nodes[j].edge)
  }

  /** The frames on the way from the root to a node, outermost first. */
  ghost function Path(nodes: seq<Node>, node: nat): seq<nat>
    requires WellFormed(nodes) && node < |nodes|
  {
    if node == 0 then [] else Path(nodes, nodes[node].edge.parent) + [nodes[node].edge.frame]
  }

  /** Two nodes with the same path are the same node. */
  lemma {:induction false} PathsAreDistinct(nodes: seq<Node>, i: nat, j: nat)
    requires WellFormed(nodes) && i < |nodes| && j < |nodes|
    requires Path(nodes, i) == Path(nodes, j)
    ensures i == j
  {
    if i != 0 && j != 0 {
      var p, q := Path(nodes, nodes[i].edge.parent), Path(nodes, nodes[j].edge.parent);
      assert p == Path(nodes, i)[..|p|] && q == Path(nodes, j)[..|q|];
      PathsAreDistinct(nodes, nodes[i].edge.parent, nodes[j].edge.parent);
      assert Path(nodes, i)[|p|] == nodes[i].edge.frame;
    }
  }

  /** A path only depends on the edges up to its node. */
  lemma {:induction false} PathKept(nodes: seq<Node>, nodes': seq<Node>, node: nat)
    requires WellFormed(nodes) && WellFormed(nodes')
    requires node < |nodes| <= |nodes'| && forall i :: 0 <= i < |nodes| ==> nodes'[i].edge == nodes[i].edge
    ensures Path(nodes', node) == Path(nodes, node)
  {
    if node != 0 {
      PathKept(nodes, nodes', nodes[node].edge.parent);
    }
  }

  /** Find-or-create keeps the tree well formed and every path in it, and finds the longer path. */
  lemma ChildExtendsPath(tree: Tree, capacity: nat, parent: nat, frame: nat)
    requires WellFormed(tree.nodes)
    ensures var (tree', child) := Child(tree, capacity, parent, frame);
      && WellFormed(tree'.nodes)
      && tree.nodes <= tree'.nodes <= tree.nodes + [Node(Edge(parent, frame), 0)]
      && tree'.total == tree.total && tree'.hits >= tree.hits
      && (child.Some? ==> parent < |tree.nodes| && 0 < child.value < |tree'.nodes|
                          && Path(tree'.nodes, child.value) == Path(tree.nodes, parent) + [frame])
      && (child.None? && parent < |tree.nodes| ==> tree' == tree.(hits := tree.hits + 1))
  {
    var (tree', child) := Child(tree, capacity, parent, frame);
    if child.Some? {
      PathKept(tree.nodes, tree'.nodes, parent);
    }
  }

  /** A child of a node in the tree is refused exactly when it is new and the tree is full; only that counts as a hit. */
  lemma ChildRefusedIff(tree: Tree, capacity: nat, parent: nat, frame: nat)
    requires tree.nodes != [] && parent < |tree.nodes|
    ensures var (tree', child) := Child(tree, capacity, parent, frame);
      var isNew := forall i :: 1 <= i < |tree.nodes| ==> tree.nodes[i].edge != Edge(parent, frame);
      && (child.None? <==> isNew && |tree.nodes| >= capacity)
      && |tree'.nodes| == |tree.nodes| + (if isNew && child.Some? then 1 else 0)
      && tree'.hits == tree.hits + (if child.None? then 1 else 0)
  {
  }

  class StackTree {
    const hash: Edge -> nat
    const capacity: nat
    const nodes: array<Node>
    const buckets: array<nat>
    var count: nat
    var hits: nat
    var total: nat
    ghost var edges: seq<Edge>
    ghost var slots: seq<nat>

    ghost predicate Valid()
      reads this, nodes, buckets
    {
      && 2 <= capacity == nodes.Length <= NODES_MAX
      && 2 * capacity <= buckets.Length && 16 <= buckets.Length && PowerOfTwo(buckets.Length)
      && 1 <= count == |edges| <= capacity
      && (forall i :: 0 <= i < count ==> nodes[i].edge == edges[i])
      && Distinct(edges, 1)
      && Index(buckets[..], slots, edges, 1, hash)
    }

    ghost function State(): Tree
      requires Valid()
      reads this, nodes, buckets
    {
      Tree(nodes[..count], hits, total)
    }

    constructor (capacity: nat, hash: Edge -> nat)
      requires 2 <= capacity <= NODES_MAX
      ensures Valid() && fresh(nodes) && fresh(buckets)
      ensures this.capacity == capacity && this.hash == hash
      ensures State() == NO_STACKS
    {
      var size := BucketCount(capacity);
      this.capacity, this.hash := capacity, hash;
      nodes := new Node[capacity](_ => Node(Edge(0, 0), 0));
      buckets := new nat[size](_ => 0);
      count, hits, total := 1, 0, 0;
      edges, slots := [ROOT.edge], [0];
      new;
      nodes[0] := ROOT;
    }

    /** Probes for an edge: the node that hangs on it, or the empty bucket where it belongs. */
    method Locate(edge: Edge) returns (slot: nat, found: Option<nat>, ghost steps: nat)
      requires Valid()
      ensures slot < buckets.Length
      ensures found.Some? ==> 1 <= found.value < count && edges[found.value] == edge
      ensures found.None? ==>
        && (forall i :: 1 <= i < count ==> edges[i] != edge)
        && Missed(buckets[..], edges, hash(edge), edge, steps)
        && slot == Probe(hash(edge), steps, buckets.Length) && buckets[slot] == 0
    {
      hide Missed, Reachable, Distinct, PowerOfTwo;
      var code := hash(edge);
      slot := Home(code, buckets.Length);

      ghost var free: nat := 0;
      steps := 0;
      FreeBucket(buckets[..], slots, edges, 1, hash);
      free :| 0 <= free < buckets.Length && buckets[..][free] == 0;
      ProbeStarts(buckets[..], edges, code, edge, free);
      while buckets[slot] != 0
        invariant slot < buckets.Length && Underway(buckets[..], edges, code, edge, free, slot, steps)
        decreases Gap(slot, free, buckets.Length)
      {
        var id := buckets[slot] - 1;
        if nodes[id].edge.parent == edge.parent && nodes[id].edge.frame == edge.frame {
          assert edges[id] == edge;
          return slot, Some(id), steps;
        }
        ProbeGoesOn(buckets[..], edges, code, edge, free, slot, steps);
        slot := Wrap(slot + 1, buckets.Length);
        steps := steps + 1;
      }
      MissIsAbsence(buckets[..], slots, edges, 1, hash, edge, steps);
      found := None;
    }

    method Write(edge: Edge, slot: nat)
      requires count < nodes.Length && slot < buckets.Length
      modifies nodes, buckets
      ensures nodes[..] == old(nodes[..])[count := Node(edge, 0)]
      ensures buckets[..] == old(buckets[..])[slot := count + 1]
    {
      nodes[count] := Node(edge, 0);
      buckets[slot] := count + 1;
    }

    /** Adds the node of an edge that a probe did not meet, in the bucket where the probe ended. */
    method Append(edge: Edge, slot: nat, ghost steps: nat)
      requires Valid() && count < capacity
      requires forall i :: 1 <= i < count ==> edges[i] != edge
      requires Missed(buckets[..], edges, hash(edge), edge, steps)
      requires slot == Probe(hash(edge), steps, buckets.Length) && buckets[slot] == 0
      modifies this`count, this`edges, this`slots, nodes, buckets
      ensures Valid() && count == old(count) + 1
      ensures nodes[..count] == old(nodes[..count]) + [Node(edge, 0)]
    {
      hide Index, Missed, PowerOfTwo;
      Inserted(buckets[..], slots, edges, 1, hash, edge, steps);
      ghost var was, all := nodes[..count], nodes[..];
      Write(edge, slot);
      count := count + 1;
      edges, slots := edges + [edge], slots + [slot];
      assert nodes[..count] == was + [Node(edge, 0)] by {
        assert was == all[..count - 1];
      }
    }

    /** Adds a node for an edge not in the tree, if there is room. */
    method Create(edge: Edge, slot: nat, ghost steps: nat) returns (child: Option<nat>)
      requires Valid() && edge.parent < count
      requires forall i :: 1 <= i < count ==> edges[i] != edge
      requires Missed(buckets[..], edges, hash(edge), edge, steps)
      requires slot == Probe(hash(edge), steps, buckets.Length) && buckets[slot] == 0
      modifies this, nodes, buckets
      ensures Valid()
      ensures (State(), child) == Created(old(State()), capacity, edge)
    {
      hide Index, Missed, Distinct;
      if count >= capacity {
        hits := hits + 1;
        return None;
      }
      Append(edge, slot, steps);
      return Some(count - 1);
    }

    /** The hashed edge index answers, and leaves the tree, exactly as a linear search would. */
    method FindOrCreate(parent: nat, frame: nat) returns (child: Option<nat>)
      requires Valid()
      modifies this, nodes, buckets
      ensures Valid()
      ensures (State(), child) == Child(old(State()), capacity, parent, frame)
    {
      hide Index, Missed, Distinct, Created;
      if parent >= count {
        return None;
      }
      var edge := Edge(parent, frame);
      ghost var steps;
      var slot;
      slot, child, steps := Locate(edge);
      SearchAgrees(nodes[..count], edges, edge, child);
      if child.Some? {
        return;
      }
      child := Create(edge, slot, steps);
    }

    method Attribute(node: nat, weight: nat)
      requires Valid()
      modifies this`total, nodes
      ensures Valid()
      ensures State() == Record(old(State()), node, weight)
    {
      if node >= count || weight == 0 {
        return;
      }
      nodes[node] := nodes[node].(samples := nodes[node].samples + weight);
      total := total + weight;
    }

    method Reset()
      requires Valid()
      modifies this, nodes, buckets
      ensures Valid() && State() == NO_STACKS
    {
      if count > 1 {
        forall i | 0 <= i < buckets.Length {
          buckets[i] := 0;
        }
      }
      nodes[0] := ROOT;
      count := 1;
      hits, total := 0, 0;
      edges, slots := [ROOT.edge], [0];
    }
  }
}
