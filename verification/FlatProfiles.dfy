/** Profiles of one sample in each of many functions, and what the list of top functions makes of them. */
module FlatProfiles {
  import opened Common
  import opened Arena
  import opened CallPaths
  import opened Frames
  import opened ProfileOutput
  import opened Sampling
  import opened StackTree

  /** The i-th of a file's functions, told apart by line alone, and a sample taken in it with nothing above. */
  function Declared(i: nat): Func {
    Func(None, Some([102]), true, None, i)
  }

  function OneFrame(i: nat): Sample {
    Sample([CallFrame(Some(Declared(i)))], 1)
  }

  function Flat(n: nat): seq<Sample> {
    seq(n, i requires 0 <= i < n => OneFrame(i))
  }

  function FlatUsed(n: nat): (used: nat)
    ensures used <= 8 * n
  {
    if n == 0 then 0 else AfterPut(FlatUsed(n - 1), 1)
  }

  function FlatIds(n: nat): seq<Identity> {
    seq(n, i requires 0 <= i < n => Identity([102], [], i))
  }

  function FlatNodes(n: nat): seq<Node> {
    [ROOT] + seq(n, i requires 0 <= i < n => Node(Edge(NODE_ROOT, i), 1))
  }

  /** The profile of one sample in each of n functions. */
  function FlatProfile(n: nat): Profile {
    Profile(Names(FlatIds(n), FlatUsed(n), 0), Tree(FlatNodes(n), 0, n), n, 0)
  }

  lemma NextFunctionIsNew(limits: Limits, n: nat)
    requires limits.frames > n && limits.arena >= 8 * (n + 1)
    ensures Interned(FlatProfile(n).names, limits.frames, limits.arena, IdentityOf(Declared(n)))
         == (FlatProfile(n + 1).names, Some(n))
  {
    var id := Identity([102], [], n);
    assert IdentityOf(Declared(n)) == id && Cut(id) == id;
    assert id !in FlatIds(n);
    assert FlatIds(n + 1) == FlatIds(n) + [id];
  }

  lemma NextNodeIsNew(limits: Limits, n: nat)
    requires limits.nodes > n + 1
    ensures var tree := FlatProfile(n).tree;
      Child(tree, limits.nodes, NODE_ROOT, n) == (tree.(nodes := FlatNodes(n) + [Node(Edge(NODE_ROOT, n), 0)]), Some(n + 1))
  {
    assert FindEdge(FlatNodes(n), Edge(NODE_ROOT, n), 1) == None;
  }

  lemma OneFrameWalks(limits: Limits, n: nat, depth: nat)
    requires limits.frames > n && limits.arena >= 8 * (n + 1) && depth > 0
    ensures Walked(FlatProfile(n).names, limits, OneFrame(n).stack, depth)
         == Walk(FlatProfile(n + 1).names, [n], false, true)
  {
    NextFunctionIsNew(limits, n);
    var stack := OneFrame(n).stack;
    assert stack[1..] == [];
    assert [n] + [] == [n];
  }

  lemma OneFrameLands(limits: Limits, n: nat)
    requires limits.nodes > n + 1
    ensures Landed(FlatProfile(n + 1).names, FlatProfile(n).tree, limits, NODE_ROOT, [n], false)
         == Place(FlatProfile(n + 1).names, FlatProfile(n).tree.(nodes := FlatNodes(n) + [Node(Edge(NODE_ROOT, n), 0)]), Some(n + 1))
  {
    NextNodeIsNew(limits, n);
    var (tree', child) := Child(FlatProfile(n).tree, limits.nodes, NODE_ROOT, n);
    assert [n][0] == n && [n][..0] == [];
    assert Descended(tree', limits.nodes, n + 1, []) == (tree', Some(n + 1));
    assert Descended(FlatProfile(n).tree, limits.nodes, NODE_ROOT, [n]) == (tree', Some(n + 1));
  }

  lemma OneMoreFlat(limits: Limits, maxDepth: nat, n: nat)
    requires limits.frames > n && limits.nodes > n + 1 && limits.arena >= 8 * (n + 1)
    ensures Collected(FlatProfile(n), limits, maxDepth, OneFrame(n).stack, 1) == FlatProfile(n + 1)
  {
    OneFrameWalks(limits, n, EffectiveDepth(maxDepth));
    OneFrameLands(limits, n);
    var nodes := FlatNodes(n) + [Node(Edge(NODE_ROOT, n), 0)];
    assert nodes[n + 1 := Node(Edge(NODE_ROOT, n), 1)] == FlatNodes(n + 1);
  }

  lemma {:induction false} FlatRun(limits: Limits, maxDepth: nat, n: nat)
    requires limits.frames >= n && limits.nodes > n && limits.arena >= 8 * n
    ensures Run(EMPTY, limits, maxDepth, Flat(n)) == FlatProfile(n)
  {
    if n == 0 {
      assert FlatProfile(0) == EMPTY;
    } else {
      FlatRun(limits, maxDepth, n - 1);
      OneMoreFlat(limits, maxDepth, n - 1);
      assert Flat(n)[..n - 1] == Flat(n - 1);
    }
  }

  lemma {:induction false} EachIsBusy(n: nat, f: nat, count: nat)
    requires f < n && 1 <= count <= n + 1
    ensures SelfSamples(FlatNodes(n), f, count) == if f + 1 < count then 1 else 0
    decreases count
  {
    if count > 1 {
      EachIsBusy(n, f, count - 1);
    }
  }

  lemma AllAreBusy(n: nat)
    ensures var totals := TotalsUpTo(FlatNodes(n), n, n + 1);
      SumBy(BUSY, totals) == n
  {
    var totals := TotalsUpTo(FlatNodes(n), n, n + 1);
    forall f | 0 <= f < n
      ensures totals[f].samples == 1
    {
      EachIsBusy(n, f, n + 1);
    }
    BusyOf(totals);
  }

  lemma FlatIsConsistent(limits: Limits, maxDepth: nat, n: nat)
    requires limits.frames >= n && limits.nodes > n && limits.arena >= 8 * n
    ensures Run(EMPTY, limits, maxDepth, Flat(n)) == FlatProfile(n) && Consistent(FlatProfile(n))
  {
    FlatRun(limits, maxDepth, n);
    ProfileIsTheMap(limits, maxDepth, Flat(n), []);
  }

  /** No list of top functions adds up to more than the sample count. */
  lemma TopIsNoMore(p: Profile, sorted: seq<Total>, top: seq<Total>)
    requires Consistent(p) && TopOf(sorted, top)
    requires multiset(sorted) == multiset(TotalsUpTo(p.tree.nodes, |p.names.ids|, |p.tree.nodes|))
    ensures SumBy(SAMPLES, top) <= p.samples
  {
    TotalsAddUp(p.tree.nodes, |p.names.ids|, |p.tree.nodes|);
    SumPermutes(SAMPLES, sorted, TotalsUpTo(p.tree.nodes, |p.names.ids|, |p.tree.nodes|));
    TopHoldsAllBusy(sorted, top);
  }

  /**
   One sample in each of more than 256 functions, with room for them all: however the totals are
   sorted, the functions emitted have fewer samples than the profile counts.
   */
  lemma ManyFunctionsFallShort(limits: Limits, maxDepth: nat, n: nat, sorted: seq<Total>, top: seq<Total>)
    requires limits.frames >= n > TOP_FUNCTIONS_MAX && limits.nodes > n && limits.arena >= 8 * n
    requires TopOf(sorted, top)
    requires var p := Run(EMPTY, limits, maxDepth, Flat(n));
      multiset(sorted) == multiset(TotalsUpTo(p.tree.nodes, |p.names.ids|, |p.tree.nodes|))
    ensures SumBy(SAMPLES, top) < Run(EMPTY, limits, maxDepth, Flat(n)).samples == n
  {
    FlatIsConsistent(limits, maxDepth, n);
    AllAreBusy(n);
    TopFunctionsAddUp(FlatProfile(n), sorted, top);
    TopIsNoMore(FlatProfile(n), sorted, top);
  }

  /** Such totals are sorted as they stand, and the list is the first 256 of them. */
  lemma FlatTop(n: nat)
    requires n > TOP_FUNCTIONS_MAX
    ensures var totals := TotalsUpTo(FlatNodes(n), n, n + 1);
      Sorted(totals) && TopOf(totals, totals[..TOP_FUNCTIONS_MAX])
  {
    var totals := TotalsUpTo(FlatNodes(n), n, n + 1);
    forall f | 0 <= f < n
      ensures totals[f] == Total(f, 1)
    {
      EachIsBusy(n, f, n + 1);
    }
  }
}
