/** The cache's calls, seen as the operations on finite maps that the runs of RadixRuns speak about. */
module RadixObserved {
  import opened Basics
  import opened RadixPages
  import opened RadixTree
  import opened RadixWalk
  import opened RadixStore
  import opened RadixCache
  import opened RadixCapacity
  import M = RadixRuns

  /** Matching and inserting do to the tree what a run's operations do; inserting is undefined in the same cases. */
  lemma CallsAreOps(cfg: Config, c: Cache, u: Tier, q: seq<Page>, ids: seq<UnitId>)
    requires Shaped(c) && |ids| == |q|
    ensures var r := M.Apply(c.tree, c.next, M.Match(q)); r.Done? && RadixCache.Match(c, q) == c.(tree := r.tree, next := r.next)
    ensures var r := M.Apply(c.tree, c.next, M.Put(u, q, ids)); var i := RadixCache.Insert(cfg, c, u, q, ids);
            (i.Ok? <==> r.Done?) && (i.Ok? ==> i.value.tree == r.tree && i.value.next == r.next)
  {
    hide WF, Below;
  }

  /** Dropping an evictable leafmost node is a run's drop. */
  lemma EvictionIsDrop(cfg: Config, c: Cache, n: NodeId, u: Tier)
    requires Shaped(c) && Leafmost(c.tree, u, n) && Evictable(c.tree[n].res[u])
    ensures var r := M.Apply(c.tree, c.next, M.Drop(u, n));
            && r.Done?
            && EvictNode(cfg, c, n, u, None).tree == r.tree && EvictNode(cfg, c, n, u, None).next == r.next
  {
    hide WF, Below;
  }

  ghost predicate AllLeafmost(c: Cache, u: Tier, ns: seq<NodeId>) {
    forall i :: 0 <= i < |ns| ==> Leafmost(c.tree, u, ns[i])
  }

  /** What is left after an eviction: the same nodes or fewer, on the same paths, with the same resources or fewer. */
  lemma EvictShrinks(cfg: Config, c: Cache, n: NodeId, u: Tier)
    requires Shaped(c) && n in c.tree
    ensures var r := EvictNode(cfg, c, n, u, None).tree;
            forall m :: m in r ==> m in c.tree && r[m].path == c.tree[m].path && r[m].res.Keys <= c.tree[m].res.Keys
  {
    if u in c.tree[n].res && Evictable(c.tree[n].res[u]) {
      DetachKeeps(c.tree, n, u);
      PruneKeys(Detach(c.tree, n, u), n);
    }
  }

  lemma RestLeafmost(cfg: Config, c: Cache, u: Tier, ns: seq<NodeId>)
    requires Shaped(c) && ns != [] && Candidates(c, u, ns) && AllLeafmost(c, u, ns)
    ensures AllLeafmost(EvictNode(cfg, c, ns[0], u, None), u, ns[1..])
  {
    EvictRest(cfg, c, u, None, ns);
    EvictShrinks(cfg, c, ns[0], u);
    var r := EvictNode(cfg, c, ns[0], u, None);
    forall i | 0 <= i < |ns[1..]| ensures Leafmost(r.tree, u, ns[1..][i]) {
      assert Leafmost(c.tree, u, ns[i + 1]);
    }
  }

  /** The dropping eviction loop is a run of drops, so it is covered by the refinement over runs. */
  lemma {:induction false} LoopIsRun(cfg: Config, c: Cache, u: Tier, ns: seq<NodeId>, deficit: int) returns (ops: seq<M.Op>)
    requires Shaped(c) && M.Inv(c.tree, c.next) && Candidates(c, u, ns) && AllLeafmost(c, u, ns)
    ensures var r := M.Exec(c.tree, c.next, ops); var l := EvictLoop(cfg, c, u, None, ns, deficit);
            !r.stuck && r.tree == l.tree && r.next == l.next
    ensures forall k :: 0 <= k < |ops| ==> ops[k].Drop? && ops[k].u == u && ops[k].n in ns
    decreases |ns|
  {
    hide WF, Below, M.Inv, M.SoleTiers, EvictNode, M.Apply, Leafmost;
    ops := [];
    if ns != [] && deficit > 0 {
      if CanEvict(c, u, ns[0]) {
        EvictRest(cfg, c, u, None, ns);
        RestLeafmost(cfg, c, u, ns);
        FirstDrop(cfg, c, ns[0], u);
        var rest := LoopIsRun(cfg, EvictNode(cfg, c, ns[0], u, None), u, ns[1..], deficit - Size(c, u, ns[0]));
        ops := [M.Drop(u, ns[0])] + rest;
        assert ops[1..] == rest;
      } else {
        ops := LoopIsRun(cfg, c, u, ns[1..], deficit);
      }
    }
  }

  lemma FirstDrop(cfg: Config, c: Cache, n: NodeId, u: Tier)
    requires Shaped(c) && M.Inv(c.tree, c.next) && Leafmost(c.tree, u, n) && Evictable(c.tree[n].res[u])
    ensures var r := M.Apply(c.tree, c.next, M.Drop(u, n)); var e := EvictNode(cfg, c, n, u, None);
            && r.Done? && e.tree == r.tree && e.next == r.next && M.Inv(e.tree, e.next)
  {
    EvictionIsDrop(cfg, c, n, u);
    M.ApplyRefines(c.tree, c.next, M.Drop(u, n));
  }
}
