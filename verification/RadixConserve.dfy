/** Conservation: every unit is in exactly one place, through every operation and every run. */
module RadixConserve {
  import opened Basics
  import opened RadixPages
  import opened RadixTree
  import opened RadixWalk
  import opened RadixStore
  import opened RadixUnits
  import opened RadixCache

  /** The units of tier `u` the cache holds: on the free list, or attached to a node. */
  ghost function Held(c: Cache, u: Tier): multiset<UnitId> {
    multiset(c.free.At(u)) + TreeUnits(c.tree, u)
  }

  /** Every id about is one the tier's allocator hands out. */
  ghost predicate Genuine(cfg: Config, c: Cache) {
    forall u: Tier :: InRange(cfg.total.At(u), Held(c, u))
  }

  lemma GenuineFrom(cfg: Config, c: Cache, c': Cache)
    requires Genuine(cfg, c) && forall u: Tier :: Held(c', u) <= Held(c, u)
    ensures Genuine(cfg, c')
  {
    forall u: Tier ensures InRange(cfg.total.At(u), Held(c', u)) {
      assert InRange(cfg.total.At(u), Held(c, u));
    }
  }

  // ---- pieces ------------------------------------------------------------------------------------

  lemma GiveHeld(cfg: Config, c: Cache, u: Tier, ids: seq<UnitId>, v: Tier)
    requires InRange(cfg.total.At(u), multiset(ids))
    ensures Held(Give(cfg, c, u, ids), v) == Held(c, v) + (if v == u then multiset(ids) else multiset{})
  {
    AcceptedAll(cfg.total.At(u), ids);
  }

  lemma TakeHeld(c: Cache, u: Tier, n: nat, v: Tier)
    requires n <= |c.free.At(u)|
    ensures Held(Take(c, u, n), v) + (if v == u then multiset(Popped(c.free.At(u), n)) else multiset{}) == Held(c, v)
  {
    PoppedUnits(c.free.At(u), n);
  }

  lemma NodeHeld(c: Cache, n: NodeId, u: Tier)
    requires n in c.tree
    ensures NodeUnits(c.tree[n], u) == multiset(ResourceIds(c.tree, n, u)) && NodeUnits(c.tree[n], u) <= Held(c, u)
  {
    TreeUnitsPut(c.tree, u, n, c.tree[n]);
  }

  lemma NodeGenuine(cfg: Config, c: Cache, n: NodeId, u: Tier)
    requires n in c.tree && Genuine(cfg, c)
    ensures InRange(cfg.total.At(u), multiset(ResourceIds(c.tree, n, u)))
  {
    NodeHeld(c, n, u);
    assert InRange(cfg.total.At(u), Held(c, u));
  }

  lemma AttachHeld(cfg: Config, c: Cache, n: NodeId, u: Tier, r: Resource, v: Tier)
    requires n in c.tree && Genuine(cfg, c)
    ensures Held(AttachAt(cfg, c, n, u, r), v) == Held(c, v) + (if v == u then multiset(r.ids) else multiset{})
  {
    NodeGenuine(cfg, c, n, u);
    NodeHeld(c, n, u);
    AcceptedAll(cfg.total.At(u), ResourceIds(c.tree, n, u));
    AttachUnits(c.tree, n, u, r, v);
    if v == u {
      Shuffle(multiset(c.free.At(u)), NodeUnits(c.tree[n], u), TreeUnits(Attach(c.tree, n, u, r), u), TreeUnits(c.tree, u), multiset(r.ids));
    }
  }

  lemma Shuffle(free: multiset<UnitId>, gone: multiset<UnitId>, tree': multiset<UnitId>, tree: multiset<UnitId>, came: multiset<UnitId>)
    requires tree' + gone == tree + came
    ensures free + gone + tree' == free + tree + came
  {
    assert free + gone + tree' == free + (tree' + gone);
  }

  lemma DetachHeld(cfg: Config, c: Cache, n: NodeId, u: Tier, v: Tier)
    requires n in c.tree && Genuine(cfg, c)
    ensures Held(DetachAt(cfg, c, n, u), v) == Held(c, v)
  {
    NodeGenuine(cfg, c, n, u);
    NodeHeld(c, n, u);
    AcceptedAll(cfg.total.At(u), ResourceIds(c.tree, n, u));
    DetachUnits(c.tree, n, u, v);
  }

  lemma ReserveHeld(cfg: Config, c: Cache, n: NodeId, src: Tier, dst: Tier, isPromote: bool, k: nat, v: Tier)
    requires n in c.tree && k <= |c.free.At(dst)| && Genuine(cfg, c)
    ensures Held(Reserve(cfg, c, n, src, dst, isPromote, k), v) == Held(c, v)
  {
    forall w: Tier ensures Held(Take(c, dst, k), w) <= Held(c, w) { TakeHeld(c, dst, k, w); }
    GenuineFrom(cfg, c, Take(c, dst, k));
    TakeHeld(c, dst, k, v);
    AttachHeld(cfg, Take(c, dst, k), n, dst, Resource(Popped(c.free.At(dst), k), 0, Pending, c.nextHandle), v);
  }

  lemma {:induction false} RunUnits(w: Walk, q: seq<Page>, u: Tier)
    requires WalkOk(w, q)
    ensures TreeUnits(Run(w, q).tree, u) == TreeUnits(w.tree, u)
    decreases |q| - w.consumed
  {
    if CanStep(w, q) {
      StepMoves(w, q);
      var c := w.tree[w.cur].children[q[w.consumed]];
      var k := StepPages(w.tree[c], q, w.consumed);
      if k < |w.tree[c].seg| { SplitUnits(w.tree, c, k, w.next, u); }
      RunUnits(Step(w, q), q, u);
    }
  }

  // ---- operations --------------------------------------------------------------------------------

  lemma MatchHeld(c: Cache, q: seq<Page>, u: Tier)
    requires Shaped(c)
    ensures Held(Match(c, q), u) == Held(c, u)
  {
    AllTiers();
    RunUnits(Start(c.tree, c.next), q, u);
  }

  /** The units handed to an insert end up in the tree or on the free list. */
  lemma InsertHeld(cfg: Config, c: Cache, u: Tier, q: seq<Page>, ids: seq<UnitId>, v: Tier)
    requires Shaped(c) && Insert(cfg, c, u, q, ids).Ok? && InRange(cfg.total.At(u), multiset(ids))
    ensures Held(Insert(cfg, c, u, q, ids).value, v) == Held(c, v) + (if v == u then multiset(ids) else multiset{})
  {
    AllTiers();
    WalkFindsLongest(c.tree, c.next, q, u);
    RunUnits(Start(c.tree, c.next), q, v);
    InsertAtHeld(cfg, c, WalkTree(c.tree, c.next, q), u, q, ids, v);
  }

  lemma InsertAtHeld(cfg: Config, c: Cache, w: Walk, u: Tier, q: seq<Page>, ids: seq<UnitId>, v: Tier)
    requires WalkOk(w, q) && |ids| == |q| && w.matched[u] <= |q| && w.last[u] in w.tree
    requires TreeUnits(w.tree, v) == TreeUnits(c.tree, v) && InRange(cfg.total.At(u), multiset(ids))
    requires InsertAt(w, u, q, ids).Inserted?
    ensures (var r := InsertAt(w, u, q, ids);
             Held(Give(cfg, c.(tree := r.tree, next := r.next), u, r.freed), v))
         == Held(c, v) + (if v == u then multiset(ids) else multiset{})
  {
    var r := InsertAt(w, u, q, ids);
    var m := w.matched[u];
    FreedInRange(cfg.total.At(u), ids, m);
    if m == |q| {
      assert ids[..m] == ids;
      SwappedHeld(cfg, c, w.tree, w.next, u, ids, multiset{}, v);
    } else {
      GrownUnits(w, u, q, ids, v);
      SwappedHeld(cfg, c, r.tree, r.next, u, ids[..m], multiset(ids[m..]), v);
    }
  }

  lemma SwappedHeld(cfg: Config, c: Cache, tree: Tree, next: NodeId, u: Tier, freed: seq<UnitId>, kept: multiset<UnitId>, v: Tier)
    requires InRange(cfg.total.At(u), multiset(freed))
    requires TreeUnits(tree, v) == TreeUnits(c.tree, v) + (if v == u then kept else multiset{})
    ensures Held(Give(cfg, c.(tree := tree, next := next), u, freed), v)
         == Held(c, v) + (if v == u then multiset(freed) + kept else multiset{})
  {
    GiveHeld(cfg, c.(tree := tree, next := next), u, freed, v);
  }

  lemma GrownUnits(w: Walk, u: Tier, q: seq<Page>, ids: seq<UnitId>, v: Tier)
    requires WalkOk(w, q) && |ids| == |q| && w.matched[u] < |q| && w.last[u] in w.tree
    ensures multiset(ids) == multiset(ids[..w.matched[u]]) + multiset(ids[w.matched[u]..])
    ensures TreeUnits(Grown(w, u, q, ids), v)
         == TreeUnits(w.tree, v) + (if v == u then multiset(ids[w.matched[u]..]) else multiset{})
  {
    var m := w.matched[u];
    assert ids == ids[..m] + ids[m..];
    AddLeafUnits(w.tree, w.last[u], q[m..], map[u := Resource(ids[m..], 0, Ready, 0)], w.next, v);
  }

  lemma FreedInRange(total: nat, ids: seq<UnitId>, m: nat)
    requires m <= |ids| && InRange(total, multiset(ids))
    ensures InRange(total, multiset(ids[..m]))
  {
    forall id | id in multiset(ids[..m]) ensures 0 < id < total { assert id in multiset(ids); }
  }

  lemma EvictedHeld(cfg: Config, c: Cache, n: NodeId, u: Tier)
    requires n in c.tree && Genuine(cfg, c) && u in c.tree[n].res
    ensures var ids := c.tree[n].res[u].ids; var c1 := c.(tree := Detach(c.tree, n, u));
            && InRange(cfg.total.At(u), multiset(ids)) && Genuine(cfg, c1)
            && forall w: Tier :: Held(c1, w) + (if w == u then multiset(ids) else multiset{}) == Held(c, w)
  {
    var ids := c.tree[n].res[u].ids;
    NodeGenuine(cfg, c, n, u);
    var c1 := c.(tree := Detach(c.tree, n, u));
    forall w: Tier ensures Held(c1, w) + (if w == u then multiset(ids) else multiset{}) == Held(c, w) {
      DetachUnits(c.tree, n, u, w);
    }
    GenuineFrom(cfg, c, c1);
  }

  lemma EvictHeld(cfg: Config, c: Cache, n: NodeId, u: Tier, promoteTo: Option<Tier>, v: Tier)
    requires Shaped(c) && n in c.tree && Genuine(cfg, c)
    ensures Held(EvictNode(cfg, c, n, u, promoteTo), v) == Held(c, v)
  {
    hide ResourceIds, Prune, Reserve, Popped, ResourcesOk, AttachAt, Held;
    if u in c.tree[n].res && Evictable(c.tree[n].res[u]) {
      var ids := c.tree[n].res[u].ids;
      EvictedHeld(cfg, c, n, u);
      DetachKeeps(c.tree, n, u);
      var c1 := c.(tree := Detach(c.tree, n, u));
      assert Shaped(c1);
      if promoteTo.Some? && promoteTo.value in cfg.enabled && |ids| <= |c1.free.At(promoteTo.value)|
         && BudgetOk(cfg, c1, promoteTo.value, |ids|)
      {
        DemotedHeld(cfg, c1, n, u, promoteTo.value, ids, v);
      } else {
        DroppedHeld(cfg, c1, n, u, ids, v);
      }
    }
  }

  lemma DemotedHeld(cfg: Config, c: Cache, n: NodeId, u: Tier, dst: Tier, ids: seq<UnitId>, v: Tier)
    requires n in c.tree && Genuine(cfg, c) && |ids| <= |c.free.At(dst)| && InRange(cfg.total.At(u), multiset(ids))
    ensures Held(Give(cfg, Reserve(cfg, c, n, u, dst, false, |ids|), u, ids), v)
         == Held(c, v) + (if v == u then multiset(ids) else multiset{})
  {
    ReserveHeld(cfg, c, n, u, dst, false, |ids|, v);
    GiveHeld(cfg, Reserve(cfg, c, n, u, dst, false, |ids|), u, ids, v);
  }

  lemma DroppedHeld(cfg: Config, c: Cache, n: NodeId, u: Tier, ids: seq<UnitId>, v: Tier)
    requires Shaped(c) && InRange(cfg.total.At(u), multiset(ids))
    ensures Held(Give(cfg, c.(tree := Prune(c.tree, n)), u, ids), v) == Held(c, v) + (if v == u then multiset(ids) else multiset{})
  {
    PruneUnits(c.tree, n, v);
    GiveHeld(cfg, c.(tree := Prune(c.tree, n)), u, ids, v);
  }

  lemma CompleteHeld(cfg: Config, c: Cache, h: Handle, success: bool, v: Tier)
    requires Shaped(c) && Genuine(cfg, c) && CompleteOp(cfg, c, h, success).Ok?
    ensures Held(CompleteOp(cfg, c, h, success).value, v) == Held(c, v)
  {
    var p := c.inflight[h];
    var c1 := Settle(c, h);
    assert forall w: Tier :: Held(c1, w) == Held(c, w);
    GenuineFrom(cfg, c, c1);
    if p.dst in c.tree[p.node].res {
      if success {
        var r := c.tree[p.node].res[p.dst].(state := Ready, handle := 0);
        var c2 := c1.(tree := Attach(c1.tree, p.node, p.dst, r));
        forall w: Tier ensures Held(c2, w) == Held(c, w) { ReadyHeld(c1, p.node, p.dst, r, w); }
        GenuineFrom(cfg, c, c2);
        DetachHeld(cfg, c2, p.node, p.src, v);
      } else {
        DetachKeeps(c.tree, p.node, p.dst);
        DetachHeld(cfg, c1, p.node, p.dst, v);
        PruneUnits(Detach(c.tree, p.node, p.dst), p.node, v);
      }
    }
  }

  /** Re-attaching a resource with the same ids moves no unit. */
  lemma ReadyHeld(c: Cache, n: NodeId, u: Tier, r: Resource, v: Tier)
    requires n in c.tree && u in c.tree[n].res && r.ids == c.tree[n].res[u].ids
    ensures Held(c.(tree := Attach(c.tree, n, u, r)), v) == Held(c, v)
  {
    AttachUnits(c.tree, n, u, r, v);
    if u == v { Cancel(TreeUnits(Attach(c.tree, n, u, r), v), TreeUnits(c.tree, v), multiset(r.ids)); }
  }
}
