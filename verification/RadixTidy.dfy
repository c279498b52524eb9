/** No empty nodes are left behind: pruning on every path that takes a resource away. */
module RadixTidy {
  import opened Basics
  import opened RadixPages
  import opened RadixTree
  import opened RadixStore
  import opened RadixUnits
  import opened RadixCache
  import opened RadixConserve
  import opened RadixPins
  import opened RadixSystem
  import opened RadixTransfer
  import opened RadixCapacity
  import opened RadixDemote
  import W = RadixWalk

  /** Every node but the root has a child or a resource. */
  ghost predicate Tidy(t: Tree) {
    forall n :: n in t && n != ROOT ==> Useful(t[n])
  }

  predicate Useful(nd: Node) { nd.children != map[] || nd.res != map[] }

  ghost predicate TidyBut(t: Tree, x: NodeId) {
    forall n :: n in t && n != ROOT && n != x ==> Useful(t[n])
  }

  // ---- the tree ----------------------------------------------------------------------------------

  /** Pruning from the one node that may have become empty leaves none. */
  lemma {:induction false} PruneTidies(t: Tree, x: NodeId)
    requires WF(t) && TidyBut(t, x)
    ensures Tidy(Prune(t, x))
    decreases |t|
  {
    if x in t && x != ROOT && Orphan(t[x]) {
      UnlinkKeeps(t, x);
      var r, p := Unlink(t, x), t[x].parent;
      forall n | n in r && n != ROOT && n != p ensures Useful(r[n]) { assert r[n] == t[n]; }
      PruneTidies(r, p);
    }
  }

  lemma SplitTidy(t: Tree, c: NodeId, k: nat, born: NodeId)
    requires WF(t) && Tidy(t) && c in t && c != ROOT && born !in t && 0 < k < |t[c].seg|
    ensures ResourcesOk(t[c]) && Linked(t, c) && Tidy(SplitNode(t, c, k, born))
  {
    SplitReady(t, c);
    SplitHalves(t, c, k, born);
    var r := SplitNode(t, c, k, born);
    assert Useful(t[c]);
    HalfKeys(t[c].res, k, |t[c].seg|);
    forall n | n in r && n != ROOT ensures Useful(r[n]) {
      if n == born {
        assert r[n].children == t[c].children && r[n].res.Keys == t[c].res.Keys;
      } else if n == c {
        assert t[c].seg[k] in r[c].children;
      } else {
        assert Useful(t[n]);
      }
    }
  }

  lemma {:induction false} RunTidies(w: W.Walk, q: seq<Page>)
    requires W.WalkOk(w, q) && Tidy(w.tree)
    ensures Tidy(W.Run(w, q).tree)
    decreases |q| - w.consumed
  {
    hide WF, Tidy;
    if W.CanStep(w, q) {
      W.StepMoves(w, q);
      var c := w.tree[w.cur].children[q[w.consumed]];
      var k := W.StepPages(w.tree[c], q, w.consumed);
      if k < |w.tree[c].seg| { SplitTidy(w.tree, c, k, w.next); }
      RunTidies(W.Step(w, q), q);
    }
  }

  lemma AddLeafTidy(t: Tree, base: NodeId, seg: seq<Page>, res: map<Tier, Resource>, born: NodeId)
    requires Tidy(t) && base in t && born !in t && seg != [] && res != map[]
    ensures Tidy(AddLeaf(t, base, seg, res, born))
  {
    var r := AddLeaf(t, base, seg, res, born);
    forall n | n in r && n != ROOT ensures Useful(r[n]) {
      if n == base {
        assert seg[0] in r[n].children;
      } else if n != born {
        assert Useful(t[n]);
      }
    }
  }

  lemma MatchTidy(c: Cache, q: seq<Page>)
    requires Shaped(c) && Tidy(c.tree)
    ensures Tidy(RadixCache.Match(c, q).tree)
  {
    W.StartOk(c.tree, c.next, q);
    RunTidies(W.Start(c.tree, c.next), q);
  }

  lemma InsertAtTidy(w: W.Walk, u: Tier, q: seq<Page>, ids: seq<UnitId>)
    requires W.WalkOk(w, q) && Tidy(w.tree) && |ids| == |q| && w.matched[u] <= |q| && w.last[u] in w.tree
    requires InsertAt(w, u, q, ids).Inserted?
    ensures Tidy(InsertAt(w, u, q, ids).tree)
  {
    hide WF, Tidy, AddLeaf;
    var m := w.matched[u];
    if m < |q| {
      var res := map[u := Resource(ids[m..], 0, Ready, 0)];
      assert u in res;
      AddLeafTidy(w.tree, w.last[u], q[m..], res, w.next);
    }
  }

  lemma InsertTidy(cfg: Config, c: Cache, u: Tier, q: seq<Page>, ids: seq<UnitId>)
    requires Shaped(c) && Tidy(c.tree) && RadixCache.Insert(cfg, c, u, q, ids).Ok?
    ensures Tidy(RadixCache.Insert(cfg, c, u, q, ids).value.tree)
  {
    hide WF, W.Below, Tidy, InsertAt, W.Run;
    MatchTidy(c, q);
    W.WalkFindsLongest(c.tree, c.next, q, u);
    InsertAtTidy(W.WalkTree(c.tree, c.next, q), u, q, ids);
  }

  lemma AttachTidy(t: Tree, n: NodeId, u: Tier, r: Resource)
    requires n in t && TidyBut(t, n)
    ensures Tidy(Attach(t, n, u, r))
  {
    var x := Attach(t, n, u, r);
    assert u in x[n].res;
    forall m | m in x && m != ROOT ensures Useful(x[m]) { if m != n { assert Useful(t[m]); } }
  }

  lemma DetachTidy(t: Tree, n: NodeId, u: Tier)
    requires n in t && Tidy(t)
    ensures TidyBut(Detach(t, n, u), n)
    ensures Useful(Detach(t, n, u)[n]) ==> Tidy(Detach(t, n, u))
  {
    var x := Detach(t, n, u);
    forall m | m in x && m != ROOT && m != n ensures Useful(x[m]) { assert Useful(t[m]); }
  }

  lemma EvictTidy(cfg: Config, c: Cache, n: NodeId, u: Tier, to: Option<Tier>)
    requires Shaped(c) && Tidy(c.tree) && n in c.tree
    ensures Tidy(EvictNode(cfg, c, n, u, to).tree)
  {
    hide WF, W.Below, Tidy, TidyBut, Prune;
    DetachKeeps(c.tree, n, u);
    DetachTidy(c.tree, n, u);
    var t := Detach(c.tree, n, u);
    PruneTidies(t, n);
    if u in c.tree[n].res && to.Some? && |c.tree[n].res[u].ids| <= |c.free.At(to.value)| {
      AttachTidy(t, n, to.value, Resource(Popped(c.free.At(to.value), |c.tree[n].res[u].ids|), 0, Pending, c.nextHandle));
    }
  }

  lemma StartTidy(cfg: Config, c: Cache, n: NodeId, src: Tier, dst: Tier, p: bool)
    requires Tidy(c.tree) && n in c.tree && StartOp(cfg, c, n, src, dst, p).Ok?
    ensures Tidy(StartOp(cfg, c, n, src, dst, p).value.tree)
  {
    var k := |c.tree[n].res[src].ids|;
    AttachTidy(c.tree, n, dst, Resource(Popped(c.free.At(dst), k), 0, Pending, c.nextHandle));
  }

  lemma FailTidy(cfg: Config, c: Cache, h: Handle)
    requires Shaped(c) && Tidy(c.tree) && CompleteOp(cfg, c, h, false).Ok?
    ensures Tidy(CompleteOp(cfg, c, h, false).value.tree)
  {
    hide WF, W.Below, Tidy, TidyBut, Prune;
    var p := c.inflight[h];
    DetachKeeps(c.tree, p.node, p.dst);
    DetachTidy(c.tree, p.node, p.dst);
    PruneTidies(Detach(c.tree, p.node, p.dst), p.node);
  }

  /** A finished demotion onto its own source tier takes the only resource of a node without children. */
  ghost predicate Strands(c: Cache, h: Handle) {
    && h in c.inflight
    && var p := c.inflight[h];
       && !p.isPromote && p.src == p.dst && p.node in c.tree
       && c.tree[p.node].children == map[] && c.tree[p.node].res.Keys == {p.dst}
  }

  lemma FinishTidyIff(cfg: Config, c: Cache, h: Handle)
    requires Shaped(c) && Tidy(c.tree) && CompleteOp(cfg, c, h, true).Ok?
    ensures Tidy(CompleteOp(cfg, c, h, true).value.tree) <==> !Strands(c, h)
  {
    var p := c.inflight[h];
    var r := CompleteOp(cfg, c, h, true).value;
    if p.dst in c.tree[p.node].res {
      RootHasNone(c.tree, p.node, p.dst);
      var t := Attach(c.tree, p.node, p.dst, c.tree[p.node].res[p.dst].(state := Ready, handle := 0));
      AttachTidy(c.tree, p.node, p.dst, c.tree[p.node].res[p.dst].(state := Ready, handle := 0));
      if !p.isPromote {
        DetachTidy(t, p.node, p.src);
        var nd := r.tree[p.node];
        assert nd.res.Keys == c.tree[p.node].res.Keys - {p.src};
        assert nd.res == map[] <==> nd.res.Keys == {};
        if Strands(c, h) {
          assert !Useful(nd);
        } else if p.src != p.dst {
          assert p.dst in nd.res;
        } else if c.tree[p.node].children == map[] {
          assert nd.res.Keys != {};
        }
      }
    }
  }

  lemma PinTidy(t: Tree, n: NodeId, u: Tier)
    requires Tidy(t) && n in t
    ensures Tidy(Pinned(t, n, u)) && Tidy(Unpinned(t, n, u))
  {
    hide Pinned, Unpinned;
    PinTwin(t, n, u);
    TwinTidy(t, Pinned(t, n, u));
    TwinTidy(t, Unpinned(t, n, u));
  }

  lemma TwinTidy(a: Tree, b: Tree)
    requires Tidy(a) && Twin(a, b)
    ensures Tidy(b)
  {
    forall n | n in b && n != ROOT ensures Useful(b[n]) {
      assert TwinNode(a[n], b[n]) && Useful(a[n]);
      assert a[n].res != map[] ==> a[n].res.Keys != {};
    }
  }

  /** Evicting onto a tier the node does not hold and failing that operation leaves the tree that dropping would
      have left, the table and counters of before, and the same free units. */
  lemma DemoteFailIsDrop(cfg: Config, c: Cache, n: NodeId, u: Tier, d: Tier)
    requires Shaped(c) && Genuine(cfg, c) && n in c.tree && u in c.tree[n].res && d !in c.tree[n].res
    requires c.nextHandle !in c.inflight && c.nextHandle in EvictNode(cfg, c, n, u, Some(d)).inflight
    ensures Shaped(EvictNode(cfg, c, n, u, Some(d)))
    ensures var r := CompleteOp(cfg, EvictNode(cfg, c, n, u, Some(d)), c.nextHandle, false);
            var x := EvictNode(cfg, c, n, u, None);
            && r.Ok? && r.value.tree == x.tree && r.value.inflight == c.inflight && r.value.pending == c.pending
            && (forall v: Tier :: multiset(r.value.free.At(v)) == multiset(x.free.At(v)))
  {
    hide Shaped, Genuine, EvictNode, CompleteOp, Demoted, TreeUnits, Evictable;
    var e := EvictNode(cfg, c, n, u, Some(d));
    var x := EvictNode(cfg, c, n, u, None);
    var h := c.nextHandle;
    OpsAreDemotions(cfg, c, n, u, d);
    EvictShaped(cfg, c, n, u, Some(d));
    FailUndoes(cfg, c, e, n, u, d);
    EvictGenuine(cfg, c, n, u, Some(d));
    forall v: Tier ensures multiset(CompleteOp(cfg, e, h, false).value.free.At(v)) == multiset(x.free.At(v)) {
      EvictHeld(cfg, c, n, u, Some(d), v);
      EvictHeld(cfg, c, n, u, None, v);
      CompleteHeld(cfg, e, h, false, v);
      SameFree(CompleteOp(cfg, e, h, false).value, x, v);
    }
  }

  lemma SameFree(a: Cache, b: Cache, v: Tier)
    requires Held(a, v) == Held(b, v) && a.tree == b.tree
    ensures multiset(a.free.At(v)) == multiset(b.free.At(v))
  {
    hide TreeUnits;
    var t := TreeUnits(a.tree, v);
    assert multiset(a.free.At(v)) == Held(a, v) - t;
    assert multiset(b.free.At(v)) == Held(b, v) - t;
  }

  lemma OpsAreDemotions(cfg: Config, c: Cache, n: NodeId, u: Tier, d: Tier)
    requires Shaped(c) && n in c.tree && u in c.tree[n].res
    requires c.nextHandle !in c.inflight && c.nextHandle in EvictNode(cfg, c, n, u, Some(d)).inflight
    ensures Evictable(c.tree[n].res[u]) && Demoted(c, EvictNode(cfg, c, n, u, Some(d)), n, u, d)
    ensures WF(Detach(c.tree, n, u)) && EvictNode(cfg, c, n, u, None).tree == Prune(Detach(c.tree, n, u), n)
  {
    hide WF, Reserve, Prune;
    DemotesAt(cfg, c, n, u, Some(d));
    DetachKeeps(c.tree, n, u);
  }

  lemma FailUndoes(cfg: Config, c: Cache, e: Cache, n: NodeId, u: Tier, d: Tier)
    requires Shaped(e) && n in c.tree && u in c.tree[n].res && d !in c.tree[n].res && c.nextHandle !in c.inflight
    requires Demoted(c, e, n, u, d) && WF(Detach(c.tree, n, u))
    ensures var r := CompleteOp(cfg, e, c.nextHandle, false);
            r.Ok? && r.value.tree == Prune(Detach(c.tree, n, u), n) && r.value.inflight == c.inflight && r.value.pending == c.pending
  {
    hide WF, W.Below, Prune, Settle;
    SettleFresh(c, e, c.nextHandle, PendingOp(n, u, d, false, |c.tree[n].res[u].ids|));
    var t := Detach(e.tree, n, d);
    assert t[n].res == c.tree[n].res - {u};
    assert t == Detach(c.tree, n, u);
  }

  // ---- every call, and runs ----------------------------------------------------------------------

  /** No call leaves an empty node behind, except exactly the completion that strands one. */
  lemma StepTidyIff(cfg: Config, s: Sys, a: Act)
    requires Shaped(s.cache) && Tidy(s.cache.tree) && Step(cfg, s, a).Some?
    ensures Tidy(Step(cfg, s, a).value.cache.tree) <==> !(a.Complete? && a.success && Strands(s.cache, a.h))
  {
    hide WF, W.Below, Tidy, Strands, RadixCache.Match, RadixCache.Insert, EvictNode, StartOp, CompleteOp, Pinned, Unpinned;
    var c := s.cache;
    match a
    case Match(q) => MatchTidy(c, q);
    case Insert(u, q, i) => if Inserts(cfg, s, u, q, i) { InsertTidy(cfg, c, u, q, s.hands[i].ids); }
    case Evict(n, u, to) => if n in c.tree { EvictTidy(cfg, c, n, u, to); }
    case Start(n, src, dst, p) => if StartOp(cfg, c, n, src, dst, p).Ok? { StartTidy(cfg, c, n, src, dst, p); }
    case Complete(h, ok) =>
      UnknownStays(cfg, c, h, ok);
      if CompleteOp(cfg, c, h, ok).Ok? {
        if ok { FinishTidyIff(cfg, c, h); } else { FailTidy(cfg, c, h); }
      }
    case Pin(n, u) => PinTidy(c.tree, n, u);
    case Unpin(n, u) => PinTidy(c.tree, n, u);
    case _ =>
  }

  lemma UnknownStays(cfg: Config, c: Cache, h: Handle, ok: bool)
    requires Shaped(c)
    ensures CompleteOp(cfg, c, h, ok).Err? && CompleteOp(cfg, c, h, ok).error != DanglingNode ==> !Strands(c, h)
  {}

  /** Transfers and eviction targets between different tiers. */
  predicate Across(a: Act) {
    (a.Start? ==> a.src != a.dst) && (a.Evict? ==> a.promoteTo != Some(a.u))
  }

  ghost predicate OpsAcross(c: Cache) {
    forall h :: h in c.inflight ==> c.inflight[h].src != c.inflight[h].dst
  }

  lemma EvictAcross(cfg: Config, c: Cache, n: NodeId, u: Tier, to: Option<Tier>)
    requires Shaped(c) && OpsAcross(c) && n in c.tree && to != Some(u)
    ensures OpsAcross(EvictNode(cfg, c, n, u, to))
  {
    hide WF, W.Below, Prune, Give;
    DemotesAt(cfg, c, n, u, to);
  }

  lemma StartAcross(cfg: Config, c: Cache, n: NodeId, src: Tier, dst: Tier, p: bool)
    requires OpsAcross(c) && n in c.tree && src != dst && StartOp(cfg, c, n, src, dst, p).Ok?
    ensures OpsAcross(StartOp(cfg, c, n, src, dst, p).value)
  {}

  lemma CompleteAcross(cfg: Config, c: Cache, h: Handle, ok: bool)
    requires Shaped(c) && OpsAcross(c) && CompleteOp(cfg, c, h, ok).Ok?
    ensures OpsAcross(CompleteOp(cfg, c, h, ok).value)
  {
    hide CompleteOp, Shaped, Without;
    CompleteLaw(cfg, c, h, ok);
  }

  /** The other calls leave the table alone. */
  lemma OtherOps(cfg: Config, s: Sys, a: Act)
    requires Shaped(s.cache) && !a.Evict? && !a.Start? && !a.Complete? && Step(cfg, s, a).Some?
    requires OpsAcross(s.cache)
    ensures OpsAcross(Step(cfg, s, a).value.cache)
  {
    hide WF, W.Below, OpsAcross, W.WalkTree, InsertPages, Pinned, Unpinned, EvictNode, StartOp, CompleteOp;
    SameTable(s.cache, Step(cfg, s, a).value.cache);
  }

  lemma SameTable(c: Cache, d: Cache)
    requires OpsAcross(c) && d.inflight == c.inflight
    ensures OpsAcross(d)
  {}

  lemma StepAcross(cfg: Config, s: Sys, a: Act)
    requires Shaped(s.cache) && OpsAcross(s.cache) && Across(a) && Step(cfg, s, a).Some?
    ensures OpsAcross(Step(cfg, s, a).value.cache)
  {
    hide Shaped, OpsAcross, RadixCache.Match, RadixCache.Insert, EvictNode, StartOp, CompleteOp, Pinned, Unpinned;
    var c := s.cache;
    match a
    case Evict(n, u, to) => if n in c.tree { EvictAcross(cfg, c, n, u, to); }
    case Start(n, src, dst, p) => if StartOp(cfg, c, n, src, dst, p).Ok? { StartAcross(cfg, c, n, src, dst, p); }
    case Complete(h, ok) => if CompleteOp(cfg, c, h, ok).Ok? { CompleteAcross(cfg, c, h, ok); }
    case _ => OtherOps(cfg, s, a);
  }

  /** Over every run of such calls, no node but the root is ever without child and resource. */
  lemma {:induction false} RunTidy(cfg: Config, s: Sys, acts: seq<Act>)
    requires Shaped(s.cache) && Tidy(s.cache.tree) && OpsAcross(s.cache)
    requires (forall k :: 0 <= k < |acts| ==> Across(acts[k])) && Run(cfg, s, acts).Some?
    ensures Tidy(Run(cfg, s, acts).value.cache.tree)
    decreases |acts|
  {
    hide Step, Shaped, Tidy;
    if acts != [] {
      StepShaped(cfg, s, acts[0]);
      StepTidyIff(cfg, s, acts[0]);
      StepAcross(cfg, s, acts[0]);
      RunTidy(cfg, Step(cfg, s, acts[0]).value, acts[1..]);
    }
  }

  lemma AlwaysTidy(cfg: Config, acts: seq<Act>)
    requires (forall k :: 0 <= k < |acts| ==> Across(acts[k])) && StateAfter(cfg, acts).Some?
    ensures Tidy(StateAfter(cfg, acts).value.cache.tree)
  {
    NewGood(cfg);
    RunTidy(cfg, NewSys(cfg), acts);
  }
}
