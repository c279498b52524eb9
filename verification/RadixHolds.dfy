/** What a pin is for: while it is held, the units collected for the pinned node stay what they are. */
module RadixHolds {
  import opened Basics
  import opened RadixPages
  import opened RadixTree
  import opened RadixStore
  import opened RadixUnits
  import opened RadixCache
  import opened RadixInflight
  import opened RadixPins
  import opened RadixChains
  import opened RadixSystem
  import W = RadixWalk

  /** The live pins after a call, beside the one on `n`. */
  function PinsAfter(others: seq<PinRef>, a: Act): seq<PinRef> {
    match a
    case Pin(x, v) => others + [PinRef(x, v)]
    case Unpin(x, v) => Released(others, PinRef(x, v))
    case _ => others
  }

  /** Only live pins are released, as their destructors do. */
  predicate Disciplined(others: seq<PinRef>, a: Act) {
    a.Unpin? ==> PinRef(a.n, a.u) in others
  }

  predicate AllDisciplined(others: seq<PinRef>, acts: seq<Act>)
    decreases |acts|
  {
    acts == [] || (Disciplined(others, acts[0]) && AllDisciplined(PinsAfter(others, acts[0]), acts[1..]))
  }

  /** Completing `p` takes tier `u` off its node: a failed destination, or a finished demotion's source. */
  predicate Takes(t: Tree, p: PendingOp, success: bool, u: Tier) {
    && p.node in t && p.dst in t[p.node].res
    && if success then !p.isPromote && p.src == u && u in t[p.node].res else p.dst == u
  }

  /** The calls that change the units of a pinned chain: a walk that cuts the pinned node, a reservation onto the
      chain, and a completion that takes the tier off a node of the chain. No eviction does. */
  ghost predicate Harms(cfg: Config, s: Sys, a: Act, n: NodeId, u: Tier)
    requires Shaped(s.cache) && n in s.cache.tree
  {
    var c := s.cache;
    match a
    case Match(q) => CutsPinned(c.tree, n, u, q)
    case Insert(v, q, i) => Inserts(cfg, s, v, q, i) && CutsPinned(c.tree, n, u, q)
    case Evict(m, v, to) => m in c.tree && OnChain(c.tree, m, n) && Demotes(cfg, c, m, v, to) && to.value == u
    case Start(m, src, dst, p) => m in c.tree && OnChain(c.tree, m, n) && StartOp(cfg, c, m, src, dst, p).Ok? && dst == u
    case Complete(h, ok) =>
      h in c.inflight && Takes(c.tree, c.inflight[h], ok, u) && OnChain(c.tree, c.inflight[h].node, n)
    case _ => false
  }

  /** The pin on `n` and the other live pins are counted along its chain. */
  ghost predicate InForce(c: Cache, others: seq<PinRef>, n: NodeId, u: Tier) {
    Guarded(c.tree, others, n, u) && PinsBelow(others, c.next)
  }

  /** The units collected for `n`, or nothing if it is gone. */
  ghost function Units(c: Cache, n: NodeId, u: Tier): Option<seq<UnitId>>
    requires Shaped(c)
  {
    if n in c.tree then Some(Collect(c.tree, n, u)) else None
  }

  // ---- reserving ---------------------------------------------------------------------------------

  /** Units reserved now are not those a node holds already. */
  lemma FreshDiffers(cfg: Config, s: Sys, m: NodeId, u: Tier, k: nat)
    requires Conserved(cfg, s) && m in s.cache.tree && 0 < k <= |s.cache.free.At(u)|
    ensures Popped(s.cache.free.At(u), k) != NodeIds(s.cache.tree[m], u)
  {
    var c := s.cache;
    var free, t := c.free.At(u), c.tree;
    var out := Popped(free, k);
    if out == NodeIds(t[m], u) {
      var id := out[0];
      assert free[|free| - 1] == id;
      assert id in multiset(free);
      SumAt(t, t.Keys, u, m);
      assert id in NodeUnits(t[m], u);
      assert Whole(s, u) == Universe(cfg.total.At(u));
      UniverseHas(cfg.total.At(u), id);
    }
  }

  /** A reservation off the chain, or on another tier, does no harm. */
  lemma ReserveSpares(cfg: Config, c: Cache, m: NodeId, src: Tier, dst: Tier, p: bool, k: nat, others: seq<PinRef>, n: NodeId, u: Tier)
    requires Shaped(c) && m in c.tree && m != ROOT && k <= |c.free.At(dst)| && k == |c.tree[m].seg|
    requires InForce(c, others, n, u) && (dst == u ==> !OnChain(c.tree, m, n))
    ensures var r := Reserve(cfg, c, m, src, dst, p, k);
            Shaped(r) && InForce(r, others, n, u) && Collect(r.tree, n, u) == Collect(c.tree, n, u)
  {
    hide WF, W.Below, Guarded, OnChain;
    ReserveShaped(cfg, c, m, src, dst, p, k);
    ChangeHolds(c.tree, Reserve(cfg, c, m, src, dst, p, k).tree, others, n, u, m);
  }

  /** One onto the chain changes what is collected. */
  lemma ReserveChanges(cfg: Config, c: Cache, m: NodeId, src: Tier, u: Tier, p: bool, k: nat, n: NodeId)
    requires Shaped(c) && m in c.tree && m != ROOT && k <= |c.free.At(u)| && k == |c.tree[m].seg| && n in c.tree
    requires OnChain(c.tree, m, n) && Popped(c.free.At(u), k) != NodeIds(c.tree[m], u)
    ensures var r := Reserve(cfg, c, m, src, u, p, k);
            Shaped(r) && n in r.tree && Collect(r.tree, n, u) != Collect(c.tree, n, u)
  {
    hide WF, W.Below, OnChain;
    ReserveShaped(cfg, c, m, src, u, p, k);
    CollectDiffers(c.tree, Reserve(cfg, c, m, src, u, p, k).tree, n, u, m);
  }

  // ---- each call ---------------------------------------------------------------------------------

  lemma MatchHolds(c: Cache, q: seq<Page>, others: seq<PinRef>, n: NodeId, u: Tier)
    requires Shaped(c) && InForce(c, others, n, u)
    ensures var r := RadixCache.Match(c, q);
            && n in r.tree
            && (!CutsPinned(c.tree, n, u, q) ==> InForce(r, others, n, u) && Collect(r.tree, n, u) == Collect(c.tree, n, u))
            && (CutsPinned(c.tree, n, u, q) ==> Collect(r.tree, n, u) != Collect(c.tree, n, u))
  {
    hide WF, Guarded, Collect, LeavesInside;
    GuardHas(c.tree, others, n, u);
    W.StartOk(c.tree, c.next, q);
    var w := W.Start(c.tree, c.next);
    if CutsPinned(c.tree, n, u, q) {
      RunLoses(w, q, n, u);
    } else {
      RunHolds(w, q, others, n, u);
      GuardHas(W.Run(w, q).tree, others, n, u);
    }
  }

  /** What follows the walk of an insert: a leaf that is on no pinned chain. */
  lemma InsertAtHolds(w: W.Walk, v: Tier, q: seq<Page>, ids: seq<UnitId>, others: seq<PinRef>, n: NodeId, u: Tier)
    requires W.WalkOk(w, q) && |ids| == |q| && w.matched[v] <= |q| && w.last[v] in w.tree && n in w.tree
    requires InsertAt(w, v, q, ids).Inserted? && WF(InsertAt(w, v, q, ids).tree)
    ensures var r := InsertAt(w, v, q, ids);
            && n in r.tree && Collect(r.tree, n, u) == Collect(w.tree, n, u)
            && (Guarded(w.tree, others, n, u) && PinsBelow(others, w.next) ==>
                  Guarded(r.tree, others, n, u) && PinsBelow(others, r.next))
  {
    hide WF, Guarded, Collect;
    var m := w.matched[v];
    if m < |q| {
      var res := map[v := Resource(ids[m..], 0, Ready, 0)];
      CollectLeaf(w.tree, w.last[v], q[m..], res, w.next, n, u);
      if Guarded(w.tree, others, n, u) && PinsBelow(others, w.next) {
        GuardLeaf(w.tree, w.last[v], q[m..], res, w.next, others, n, u);
      }
    }
  }

  lemma InsertHolds(cfg: Config, c: Cache, v: Tier, q: seq<Page>, ids: seq<UnitId>, others: seq<PinRef>, n: NodeId, u: Tier)
    requires Shaped(c) && InForce(c, others, n, u) && RadixCache.Insert(cfg, c, v, q, ids).Ok?
    ensures var r := RadixCache.Insert(cfg, c, v, q, ids).value;
            && Shaped(r) && n in r.tree
            && (!CutsPinned(c.tree, n, u, q) ==> InForce(r, others, n, u) && Collect(r.tree, n, u) == Collect(c.tree, n, u))
            && (CutsPinned(c.tree, n, u, q) ==> Collect(r.tree, n, u) != Collect(c.tree, n, u))
  {
    hide WF, W.Below, Guarded, Collect, CutsPinned, InsertAt;
    InsertShaped(cfg, c, v, q, ids);
    MatchHolds(c, q, others, n, u);
    W.WalkFindsLongest(c.tree, c.next, q, v);
    InsertAtHolds(W.WalkTree(c.tree, c.next, q), v, q, ids, others, n, u);
  }

  /** A pinned resource is not evictable. */
  lemma NotEvictable(t: Tree, others: seq<PinRef>, n: NodeId, u: Tier, m: NodeId)
    requires Guarded(t, others, n, u) && m in t && OnChain(t, m, n) && u in t[m].res
    ensures !Evictable(t[m].res[u])
  {
    assert GuardedAt(t, others, m, u);
  }

  lemma DetachSpares(c: Cache, m: NodeId, v: Tier, others: seq<PinRef>, n: NodeId, u: Tier)
    requires Shaped(c) && m in c.tree && InForce(c, others, n, u) && (v == u && u in c.tree[m].res ==> !OnChain(c.tree, m, n))
    ensures var r := c.(tree := Detach(c.tree, m, v));
            Shaped(r) && InForce(r, others, n, u) && Collect(r.tree, n, u) == Collect(c.tree, n, u)
  {
    hide WF, Guarded, OnChain;
    DetachKeeps(c.tree, m, v);
    ChangeHolds(c.tree, Detach(c.tree, m, v), others, n, u, m);
  }

  lemma EvictHolds(cfg: Config, s: Sys, m: NodeId, v: Tier, to: Option<Tier>, others: seq<PinRef>, n: NodeId, u: Tier)
    requires Shaped(s.cache) && Conserved(cfg, s) && InForce(s.cache, others, n, u) && m in s.cache.tree
    ensures var c := s.cache; var r := EvictNode(cfg, c, m, v, to);
            && Shaped(r) && n in r.tree && n in c.tree
            && (if OnChain(c.tree, m, n) && Demotes(cfg, c, m, v, to) && to.value == u
                then Collect(r.tree, n, u) != Collect(c.tree, n, u)
                else InForce(r, others, n, u) && Collect(r.tree, n, u) == Collect(c.tree, n, u))
  {
    hide WF, W.Below, Guarded, OnChain, Collect, Reserve, Conserved, Prune;
    var c := s.cache;
    GuardHas(c.tree, others, n, u);
    EvictShaped(cfg, c, m, v, to);
    if v in c.tree[m].res && Evictable(c.tree[m].res[v]) {
      if v == u && OnChain(c.tree, m, n) { NotEvictable(c.tree, others, n, u, m); }
      DetachSpares(c, m, v, others, n, u);
      RootHasNone(c.tree, m, v);
      SegmentNotEmpty(c.tree, m);
      var d := c.(tree := Detach(c.tree, m, v));
      DetachChain(c.tree, m, v, n, u);
      var k := |c.tree[m].res[v].ids|;
      if Demotes(cfg, c, m, v, to) {
        if OnChain(c.tree, m, n) && to.value == u {
          FreshDiffers(cfg, s, m, u, k);
          ReserveChanges(cfg, d, m, v, u, false, k, n);
        } else {
          ReserveSpares(cfg, d, m, v, to.value, false, k, others, n, u);
          GuardHas(Reserve(cfg, d, m, v, to.value, false, k).tree, others, n, u);
        }
      } else {
        PruneHolds(d.tree, m, others, n, u);
        GuardHas(Prune(d.tree, m), others, n, u);
      }
    }
  }

  lemma DetachChain(t: Tree, m: NodeId, v: Tier, n: NodeId, u: Tier)
    requires m in t && n in t
    ensures var r := Detach(t, m, v);
            && r.Keys == t.Keys && r[m].seg == t[m].seg && (OnChain(r, m, n) <==> OnChain(t, m, n))
            && (v != u ==> NodeIds(r[m], u) == NodeIds(t[m], u))
  {}

  lemma StartHolds(cfg: Config, s: Sys, m: NodeId, src: Tier, dst: Tier, p: bool, others: seq<PinRef>, n: NodeId, u: Tier)
    requires Shaped(s.cache) && Conserved(cfg, s) && InForce(s.cache, others, n, u) && m in s.cache.tree
    requires StartOp(cfg, s.cache, m, src, dst, p).Ok?
    ensures var c := s.cache; var r := StartOp(cfg, c, m, src, dst, p).value;
            && Shaped(r) && n in r.tree && n in c.tree
            && (if OnChain(c.tree, m, n) && dst == u
                then Collect(r.tree, n, u) != Collect(c.tree, n, u)
                else InForce(r, others, n, u) && Collect(r.tree, n, u) == Collect(c.tree, n, u))
  {
    hide WF, W.Below, Guarded, OnChain, Collect, Reserve, Conserved;
    var c := s.cache;
    GuardHas(c.tree, others, n, u);
    RootHasNone(c.tree, m, src);
    SegmentNotEmpty(c.tree, m);
    var k := |c.tree[m].res[src].ids|;
    if OnChain(c.tree, m, n) && dst == u {
      FreshDiffers(cfg, s, m, u, k);
      ReserveChanges(cfg, c, m, src, u, p, k, n);
    } else {
      ReserveSpares(cfg, c, m, src, dst, p, k, others, n, u);
      GuardHas(Reserve(cfg, c, m, src, dst, p, k).tree, others, n, u);
    }
  }

  lemma SegmentNotEmpty(t: Tree, m: NodeId)
    requires WF(t) && m in t && m != ROOT
    ensures t[m].seg != []
  {
    assert Linked(t, m);
  }

  lemma DetachChanges(t: Tree, m: NodeId, n: NodeId, u: Tier)
    requires WF(t) && m in t && n in t && OnChain(t, m, n) && u in t[m].res
    ensures WF(Detach(t, m, u)) && Collect(Detach(t, m, u), n, u) != Collect(t, n, u)
  {
    hide WF, OnChain;
    DetachKeeps(t, m, u);
    RootHasNone(t, m, u);
    SegmentNotEmpty(t, m);
    CollectDiffers(t, Detach(t, m, u), n, u, m);
  }

  /** The first half of a successful completion: the destination is ready, with its units and pins. */
  lemma ReadyHolds(c: Cache, m: NodeId, v: Tier, others: seq<PinRef>, n: NodeId, u: Tier)
    requires Shaped(c) && m in c.tree && v in c.tree[m].res && InForce(c, others, n, u)
    ensures var r := c.(tree := Attach(c.tree, m, v, c.tree[m].res[v].(state := Ready, handle := 0)));
            && Shaped(r) && InForce(r, others, n, u) && Collect(r.tree, n, u) == Collect(c.tree, n, u)
            && (OnChain(r.tree, m, n) <==> OnChain(c.tree, m, n)) && r.tree[m].res.Keys == c.tree[m].res.Keys
  {
    hide WF, Guarded;
    GuardHas(c.tree, others, n, u);
    RootHasNone(c.tree, m, v);
    AttachKeeps(c.tree, m, v, c.tree[m].res[v].(state := Ready, handle := 0));
    ChangeHolds(c.tree, Attach(c.tree, m, v, c.tree[m].res[v].(state := Ready, handle := 0)), others, n, u, m);
  }

  lemma FailHolds(cfg: Config, c: Cache, h: Handle, others: seq<PinRef>, n: NodeId, u: Tier)
    requires Shaped(c) && InForce(c, others, n, u) && CompleteOp(cfg, c, h, false).Ok?
    ensures var r := CompleteOp(cfg, c, h, false).value; var p := c.inflight[h];
            && Shaped(r) && n in c.tree
            && (if Takes(c.tree, p, false, u) && OnChain(c.tree, p.node, n)
                then n in r.tree ==> Collect(r.tree, n, u) != Collect(c.tree, n, u)
                else n in r.tree && InForce(r, others, n, u) && Collect(r.tree, n, u) == Collect(c.tree, n, u))
  {
    hide WF, W.Below, Guarded, OnChain, Collect, Prune, Settle;
    GuardHas(c.tree, others, n, u);
    CompleteShaped(cfg, c, h, false);
    var p := c.inflight[h];
    SettleTree(c, h);
    if p.dst in c.tree[p.node].res {
      var d := Detach(c.tree, p.node, p.dst);
      DetachKeeps(c.tree, p.node, p.dst);
      var r := Prune(d, p.node);
      if p.dst == u && OnChain(c.tree, p.node, n) {
        DetachChanges(c.tree, p.node, n, u);
        if n in r { PruneCollects(d, p.node, n, u); }
      } else {
        DetachSpares(c, p.node, p.dst, others, n, u);
        PruneHolds(d, p.node, others, n, u);
        GuardHas(r, others, n, u);
      }
    }
  }

  lemma SettleTree(c: Cache, h: Handle)
    requires h in c.inflight
    ensures Settle(c, h).tree == c.tree && Settle(c, h).next == c.next
  {}

  lemma FinishHolds(cfg: Config, c: Cache, h: Handle, others: seq<PinRef>, n: NodeId, u: Tier)
    requires Shaped(c) && InForce(c, others, n, u) && CompleteOp(cfg, c, h, true).Ok?
    ensures var r := CompleteOp(cfg, c, h, true).value; var p := c.inflight[h];
            && Shaped(r) && n in c.tree && n in r.tree
            && (if Takes(c.tree, p, true, u) && OnChain(c.tree, p.node, n)
                then Collect(r.tree, n, u) != Collect(c.tree, n, u)
                else InForce(r, others, n, u) && Collect(r.tree, n, u) == Collect(c.tree, n, u))
  {
    hide WF, W.Below, Guarded, OnChain, Collect, Settle;
    GuardHas(c.tree, others, n, u);
    CompleteShaped(cfg, c, h, true);
    var p := c.inflight[h];
    SettleTree(c, h);
    if p.dst in c.tree[p.node].res {
      ReadyHolds(c, p.node, p.dst, others, n, u);
      var d := c.(tree := Attach(c.tree, p.node, p.dst, c.tree[p.node].res[p.dst].(state := Ready, handle := 0)));
      if !p.isPromote {
        if p.src == u && u in c.tree[p.node].res && OnChain(c.tree, p.node, n) {
          DetachChanges(d.tree, p.node, n, u);
        } else {
          DetachSpares(d, p.node, p.src, others, n, u);
        }
      }
    }
  }

  lemma PinsHold(c: Cache, x: NodeId, v: Tier, others: seq<PinRef>, n: NodeId, u: Tier)
    requires Shaped(c) && InForce(c, others, n, u) && x in c.tree
    ensures var a, b := c.(tree := Pinned(c.tree, x, v)), c.(tree := Unpinned(c.tree, x, v));
            && Shaped(a) && Shaped(b) && n in c.tree && n in a.tree && n in b.tree
            && InForce(a, others + [PinRef(x, v)], n, u) && Collect(a.tree, n, u) == Collect(c.tree, n, u)
            && (PinRef(x, v) in others ==> InForce(b, Released(others, PinRef(x, v)), n, u))
            && Collect(b.tree, n, u) == Collect(c.tree, n, u)
  {
    hide WF, Guarded, Pinned, Unpinned, Collect, Released;
    GuardHas(c.tree, others, n, u);
    PinShaped(c, x, v);
    PinTwin(c.tree, x, v);
    PinCollects(c.tree, x, v, n, u);
    GuardPin(c.tree, others, x, v, n, u);
    if PinRef(x, v) in others {
      GuardUnpin(c.tree, others, x, v, n, u);
      ReleasedBelow(others, PinRef(x, v), c.next);
    }
  }

  lemma ReleasedBelow(others: seq<PinRef>, pin: PinRef, next: NodeId)
    requires PinsBelow(others, next)
    ensures PinsBelow(Released(others, pin), next)
  {
    var r := Released(others, pin);
    forall i | 0 <= i < |r| ensures r[i].node < next { assert r[i] in others; }
  }

  // ---- one call, and runs ------------------------------------------------------------------------

  lemma HandsTree(cfg: Config, s: Sys, a: Act)
    requires Shaped(s.cache)
    requires !a.Insert? && !a.Match? && !a.Evict? && !a.Start? && !a.Complete? && !a.Pin? && !a.Unpin?
    ensures var r := Step(cfg, s, a);
            r.Some? ==> r.value.cache.tree == s.cache.tree && r.value.cache.next == s.cache.next
  {
    hide Shaped;
  }

  lemma SameUnits(c: Cache, d: Cache, n: NodeId, u: Tier)
    requires Shaped(c) && c.tree == d.tree && c.next == d.next
    ensures Shaped(d) && Units(d, n, u) == Units(c, n, u)
    ensures forall others :: InForce(c, others, n, u) ==> InForce(d, others, n, u)
  {
    hide Guarded;
  }

  /** While a pin is in force, one call changes the units collected for the pinned node if and only if it is one of
      the harmful calls; any other keeps the pin in force. */
  lemma StepHolds(cfg: Config, s: Sys, a: Act, others: seq<PinRef>, n: NodeId, u: Tier)
    requires Shaped(s.cache) && Conserved(cfg, s) && InForce(s.cache, others, n, u)
    requires Disciplined(others, a) && Step(cfg, s, a).Some?
    ensures n in s.cache.tree && Shaped(Step(cfg, s, a).value.cache)
    ensures var r := Step(cfg, s, a).value.cache;
            if Harms(cfg, s, a, n, u) then Units(r, n, u) != Units(s.cache, n, u)
            else Units(r, n, u) == Units(s.cache, n, u) && InForce(r, PinsAfter(others, a), n, u)
  {
    hide Shaped, Guarded, Conserved, Collect, RadixCache.Match, RadixCache.Insert, EvictNode, StartOp, CompleteOp,
      Pinned, Unpinned, CutsPinned, OnChain, Demotes, Takes, PinsBelow, Released;
    var c := s.cache;
    GuardHas(c.tree, others, n, u);
    StepShaped(cfg, s, a);
    match a
    case Match(q) => MatchHolds(c, q, others, n, u);
    case Insert(v, q, i) =>
      if Inserts(cfg, s, v, q, i) { InsertHolds(cfg, c, v, q, s.hands[i].ids, others, n, u); }
    case Evict(m, v, to) => if m in c.tree { EvictHolds(cfg, s, m, v, to, others, n, u); }
    case Start(m, src, dst, p) =>
      if m in c.tree && StartOp(cfg, c, m, src, dst, p).Ok? { StartHolds(cfg, s, m, src, dst, p, others, n, u); }
    case Complete(h, ok) =>
      UnknownRefused(cfg, c, h, ok);
      if CompleteOp(cfg, c, h, ok).Ok? {
        if ok { FinishHolds(cfg, c, h, others, n, u); } else { FailHolds(cfg, c, h, others, n, u); }
      }
    case Pin(x, v) => PinsHold(c, x, v, others, n, u);
    case Unpin(x, v) => PinsHold(c, x, v, others, n, u);
    case _ =>
      HandsTree(cfg, s, a);
      SameUnits(c, Step(cfg, s, a).value.cache, n, u);
  }

  lemma UnknownRefused(cfg: Config, c: Cache, h: Handle, ok: bool)
    requires Shaped(c)
    ensures CompleteOp(cfg, c, h, ok).Ok? ==> h in c.inflight
    ensures CompleteOp(cfg, c, h, ok).Err? && CompleteOp(cfg, c, h, ok).error != DanglingNode ==> h !in c.inflight
  {}

  /** In every state of the run the units collected for `n` are `ids`. */
  ghost predicate Steady(cfg: Config, s: Sys, acts: seq<Act>, n: NodeId, u: Tier, ids: Option<seq<UnitId>>)
    requires Shaped(s.cache)
    decreases |acts|
  {
    && Units(s.cache, n, u) == ids
    && (acts != [] && Step(cfg, s, acts[0]).Some? ==>
          (StepShaped(cfg, s, acts[0]); Steady(cfg, Step(cfg, s, acts[0]).value, acts[1..], n, u, ids)))
  }

  /** Some call of the run is harmful. */
  ghost predicate EverHarmed(cfg: Config, s: Sys, acts: seq<Act>, n: NodeId, u: Tier)
    requires Shaped(s.cache)
    decreases |acts|
  {
    && acts != [] && n in s.cache.tree
    && (|| Harms(cfg, s, acts[0], n, u)
        || (Step(cfg, s, acts[0]).Some? && (StepShaped(cfg, s, acts[0]);
                                            EverHarmed(cfg, Step(cfg, s, acts[0]).value, acts[1..], n, u))))
  }

  /** Over any run of defined calls, with other pins coming and going, the units collected for a pinned node stay
      what they are in every state if and only if no walk cuts the node, nothing is reserved onto its chain and no
      completion takes the tier off it. */
  lemma {:induction false} HoldsIff(cfg: Config, s: Sys, acts: seq<Act>, others: seq<PinRef>, n: NodeId, u: Tier)
    requires Shaped(s.cache) && Conserved(cfg, s) && InForce(s.cache, others, n, u)
    requires AllDisciplined(others, acts) && Run(cfg, s, acts).Some?
    ensures Steady(cfg, s, acts, n, u, Units(s.cache, n, u)) <==> !EverHarmed(cfg, s, acts, n, u)
    decreases |acts|
  {
    hide Step, Shaped, Conserved, Harms, Guarded, Units, PinsBelow, Disciplined, PinsAfter;
    if acts != [] {
      StepHolds(cfg, s, acts[0], others, n, u);
      StepConserves(cfg, s, acts[0]);
      var r := Step(cfg, s, acts[0]).value;
      if Harms(cfg, s, acts[0], n, u) {
        assert !Steady(cfg, r, acts[1..], n, u, Units(s.cache, n, u));
      } else {
        HoldsIff(cfg, r, acts[1..], PinsAfter(others, acts[0]), n, u);
      }
    }
  }
}
