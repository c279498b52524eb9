/** What is let through onto another tier: when an operation starts, when an eviction demotes, and which of the
    nodes an eviction loop takes are demoted rather than dropped. */
module RadixDemote {
  import opened Basics
  import opened RadixTree
  import opened RadixWalk
  import opened RadixUnits
  import opened RadixCache
  import opened RadixConserve
  import opened RadixInflight
  import opened RadixCapacity
  import B = RadixBudget

  // ---- one operation -----------------------------------------------------------------------------

  /** Exactly when an operation starts, which error it ends with otherwise, and what starting it does. */
  lemma StartOkIff(cfg: Config, c: Cache, n: NodeId, src: Tier, dst: Tier, isPromote: bool)
    requires Counted(cfg, c) && n in c.tree
    ensures var r := StartOp(cfg, c, n, src, dst, isPromote);
            if src !in cfg.enabled || dst !in cfg.enabled then r == Err(TierDisabled)
            else if src !in c.tree[n].res then r == Err(NoSource)
            else
              var k := |c.tree[n].res[src].ids|;
              if cfg.cap.At(dst) > 0 && PendingSum(c.inflight, c.inflight.Keys, dst) + k > cfg.cap.At(dst) then r == Err(PendingCap)
              else if k > |c.free.At(dst)| then r == Err(Shortage)
              else r.Ok? && Launched(c, r.value, n, src, dst, isPromote)
  {
    hide Reserve, PendingSum;
    if src in c.tree[n].res && |c.tree[n].res[src].ids| <= |c.free.At(dst)| { ReserveLaunches(cfg, c, n, src, dst, isPromote); }
  }

  /** `d` is `c` with the operation under way: its node holds `dst` pending under the next handle, with as many
      units as its source, and the table lists it. */
  ghost predicate Launched(c: Cache, d: Cache, n: NodeId, src: Tier, dst: Tier, isPromote: bool)
    requires n in c.tree && src in c.tree[n].res
  {
    var k := |c.tree[n].res[src].ids|;
    && n in d.tree && Holds(d.tree[n], dst, c.nextHandle, k)
    && d.tree == c.tree[n := c.tree[n].(res := c.tree[n].res[dst := d.tree[n].res[dst]])]
    && d.inflight == c.inflight[c.nextHandle := PendingOp(n, src, dst, isPromote, k)]
    && d.pending == c.pending.With(dst, c.pending.At(dst) + k)
    && d.nextHandle == c.nextHandle + 1 && d.next == c.next
  }

  predicate Holds(nd: Node, u: Tier, h: Handle, k: nat) {
    u in nd.res && nd.res[u].refs == 0 && nd.res[u].state == Pending && nd.res[u].handle == h && |nd.res[u].ids| == k
  }

  lemma ReserveLaunches(cfg: Config, c: Cache, n: NodeId, src: Tier, dst: Tier, isPromote: bool)
    requires n in c.tree && src in c.tree[n].res && |c.tree[n].res[src].ids| <= |c.free.At(dst)|
    ensures Launched(c, Reserve(cfg, c, n, src, dst, isPromote, |c.tree[n].res[src].ids|), n, src, dst, isPromote)
  {
    hide Accepted;
  }

  /** The check reads the counters as the threads' protocol does. */
  lemma BudgetIsFits(cfg: Config, c: Cache, s: B.State, op: PendingOp)
    requires s.pending == c.pending
    ensures BudgetOk(cfg, c, op.dst, op.count) <==> B.Fits(cfg.cap, s, op)
  {}

  /** Exactly when an eviction demotes, drops, or does nothing, and what it leaves. */
  lemma EvictDemotesIff(cfg: Config, c: Cache, n: NodeId, u: Tier, to: Option<Tier>)
    requires Shaped(c) && Counted(cfg, c) && n in c.tree
    ensures var r := EvictNode(cfg, c, n, u, to);
            if u !in c.tree[n].res || c.tree[n].res[u].refs != 0 || c.tree[n].res[u].state != Ready then r == c
            else
              var k := |c.tree[n].res[u].ids|;
              if to.Some? && to.value in cfg.enabled && k <= |c.free.At(to.value)|
                 && (cfg.cap.At(to.value) <= 0 || PendingSum(c.inflight, c.inflight.Keys, to.value) + k <= cfg.cap.At(to.value))
              then Demoted(c, r, n, u, to.value)
              else Drops(c, r, n, u)
  {
    hide WF, Prune, Accepted, Popped;
    DemotesAt(cfg, c, n, u, to);
  }

  /** `d` is `c` with the node's units of `u` on their way to `dst`. */
  ghost predicate Demoted(c: Cache, d: Cache, n: NodeId, u: Tier, dst: Tier)
    requires n in c.tree && u in c.tree[n].res
  {
    var k := |c.tree[n].res[u].ids|;
    && n in d.tree && Holds(d.tree[n], dst, c.nextHandle, k)
    && d.tree == c.tree[n := c.tree[n].(res := (c.tree[n].res - {u})[dst := d.tree[n].res[dst]])]
    && d.inflight == c.inflight[c.nextHandle := PendingOp(n, u, dst, false, k)]
    && d.pending == c.pending.With(dst, c.pending.At(dst) + k)
    && d.nextHandle == c.nextHandle + 1 && d.next == c.next
  }

  /** `d` is `c` without the node's units of `u`; no operation starts. */
  ghost predicate Drops(c: Cache, d: Cache, n: NodeId, u: Tier)
    requires n in c.tree
  {
    && d.inflight == c.inflight && d.pending == c.pending && d.nextHandle == c.nextHandle && d.next == c.next
    && Without(c.tree, d.tree, n, u)
  }

  /** `r` is `t` without what `n` holds of `u`; a node that goes with it held nothing else. */
  ghost predicate Without(t: Tree, r: Tree, n: NodeId, u: Tier)
    requires n in t
  {
    && r.Keys <= t.Keys
    && (forall m :: m in r ==> r[m].res == if m == n then t[n].res - {u} else t[m].res)
    && (forall m :: m in t && m !in r ==> t[m].res.Keys <= if m == n then {u} else {})
  }

  lemma DropsAt(cfg: Config, c: Cache, n: NodeId, u: Tier, to: Option<Tier>)
    requires Shaped(c) && n in c.tree && u in c.tree[n].res && Evictable(c.tree[n].res[u])
    requires !Admitted(cfg, c, to, |c.tree[n].res[u].ids|)
    ensures Drops(c, EvictNode(cfg, c, n, u, to), n, u)
  {
    hide WF, Prune, Accepted, Reserve, Below, Detach;
    DetachKeeps(c.tree, n, u);
    PrunedDrops(c.tree, n, u);
  }

  lemma PrunedDrops(t: Tree, n: NodeId, u: Tier)
    requires WF(t) && n in t && WF(Detach(t, n, u))
    ensures Without(t, Prune(Detach(t, n, u), n), n, u)
  {
    hide WF, Prune;
    var d := Detach(t, n, u);
    PruneKeys(d, n);
    forall m | m in t && m !in Prune(d, n) ensures t[m].res.Keys <= if m == n then {u} else {} {
      assert d[m].res.Keys == {};
    }
  }

  predicate Admitted(cfg: Config, c: Cache, to: Option<Tier>, k: nat) {
    && to.Some? && to.value in cfg.enabled && k <= |c.free.At(to.value)|
    && (cfg.cap.At(to.value) <= 0 || c.pending.At(to.value) + k <= cfg.cap.At(to.value))
  }

  lemma DemotesAt(cfg: Config, c: Cache, n: NodeId, u: Tier, to: Option<Tier>)
    requires Shaped(c) && n in c.tree
    ensures u in c.tree[n].res && Evictable(c.tree[n].res[u]) ==>
              var r := EvictNode(cfg, c, n, u, to);
              if Admitted(cfg, c, to, |c.tree[n].res[u].ids|) then Demoted(c, r, n, u, to.value) else Drops(c, r, n, u)
  {
    hide WF, Prune, Accepted, Popped;
    if u in c.tree[n].res && Evictable(c.tree[n].res[u]) {
      if !Admitted(cfg, c, to, |c.tree[n].res[u].ids|) { DropsAt(cfg, c, n, u, to); }
    }
  }

  /** A completion is refused exactly for an unknown handle, and undefined exactly where the operation's node is gone.
      Otherwise the operation leaves the table and its units the counter. On success the destination is ready, with its
      ids and pins, and a demotion's source is gone; on failure the destination is gone; nothing else changes. */
  lemma CompleteLaw(cfg: Config, c: Cache, h: Handle, success: bool)
    requires Shaped(c)
    ensures var r := CompleteOp(cfg, c, h, success);
            if h !in c.inflight then r == Err(UnknownHandle)
            else if c.inflight[h].node !in c.tree then r == Err(DanglingNode)
            else
              var p := c.inflight[h];
              && r.Ok? && r.value.inflight == c.inflight - {h} && r.value.nextHandle == c.nextHandle && r.value.next == c.next
              && r.value.pending == c.pending.With(p.dst, c.pending.At(p.dst) - p.count)
              && if p.dst !in c.tree[p.node].res then r.value.tree == c.tree && r.value.free == c.free
                 else if !success then Without(c.tree, r.value.tree, p.node, p.dst)
                 else r.value.tree == c.tree[p.node := Arrived(c.tree[p.node], p)]
  {
    hide WF, Below, Prune, Accepted;
    if h in c.inflight && c.inflight[h].node in c.tree {
      var p := c.inflight[h];
      DetachKeeps(c.tree, p.node, p.dst);
      PrunedDrops(c.tree, p.node, p.dst);
    }
  }

  /** The operation's node after its success. */
  function Arrived(nd: Node, p: PendingOp): Node
    requires p.dst in nd.res
  {
    var res := nd.res[p.dst := Resource(nd.res[p.dst].ids, nd.res[p.dst].refs, Ready, 0)];
    nd.(res := if p.isPromote then res else res - {p.src})
  }

  // ---- failing everything ------------------------------------------------------------------------

  ghost predicate Has(t: Tree, n: NodeId, u: Tier) { n in t && u in t[n].res }

  /** The resources of `r` are those of `t` that are not pending. */
  ghost predicate Settled(t: Tree, r: Tree) {
    && (forall n, u :: Has(r, n, u) <==> Has(t, n, u) && t[n].res[u].state != Pending)
    && (forall n, u :: Has(r, n, u) ==> r[n].res[u] == t[n].res[u])
  }

  lemma FailOne(cfg: Config, c: Cache, h: Handle)
    requires Shaped(c) && InFlightOk(c) && h in c.inflight
    ensures var p, r := c.inflight[h], CompleteOp(cfg, c, h, false);
            && r.Ok? && PendingAt(c.tree, p.node, p.dst)
            && (forall n, u :: Has(r.value.tree, n, u) <==> Has(c.tree, n, u) && !(n == p.node && u == p.dst))
            && (forall n, u :: Has(r.value.tree, n, u) ==> Has(c.tree, n, u) && r.value.tree[n].res[u] == c.tree[n].res[u])
  {
    hide Shaped, CompleteOp;
    CompleteLaw(cfg, c, h, false);
    assert Reserved(c.tree, h, c.inflight[h]);
  }

  lemma SettledStep(t: Tree, d: Tree, r: Tree, m: NodeId, v: Tier)
    requires PendingAt(t, m, v) && Settled(d, r)
    requires forall n, u :: Has(d, n, u) <==> Has(t, n, u) && !(n == m && u == v)
    requires forall n, u :: Has(d, n, u) ==> Has(t, n, u) && d[n].res[u] == t[n].res[u]
    ensures Settled(t, r)
  {}

  lemma SettledNone(c: Cache)
    requires forall n, u :: !PendingAt(c.tree, n, u)
    ensures Settled(c.tree, c.tree)
  {
    forall n, u | Has(c.tree, n, u) ensures c.tree[n].res[u].state != Pending { assert !PendingAt(c.tree, n, u); }
  }

  /** With table and tree in agreement, failing everything, in any order, takes away exactly the pending resources. */
  lemma {:induction false} FailAllDrops(cfg: Config, c: Cache, hs: seq<Handle>)
    requires Shaped(c) && InFlightOk(c) && Lists(hs, c.inflight)
    ensures FailEach(cfg, c, hs).Some? && Settled(c.tree, FailEach(cfg, c, hs).value.0.tree)
    decreases |hs|
  {
    hide Shaped, CompleteOp, Lists, Settled, Has, InFlightOk;
    FailAllDefined(cfg, c, hs);
    if hs == [] {
      SettledNone(c);
    } else {
      var h := hs[0];
      ListRest(hs, c.inflight);
      FailOne(cfg, c, h);
      FailNext(cfg, c, h);
      var d := CompleteOp(cfg, c, h, false).value;
      FailAllDrops(cfg, d, hs[1..]);
      SettledStep(c.tree, d.tree, FailEach(cfg, d, hs[1..]).value.0.tree, c.inflight[h].node, c.inflight[h].dst);
    }
  }

  lemma FailNext(cfg: Config, c: Cache, h: Handle)
    requires Shaped(c) && InFlightOk(c) && h in c.inflight && CompleteOp(cfg, c, h, false).Ok?
    ensures var d := CompleteOp(cfg, c, h, false).value; Shaped(d) && InFlightOk(d) && d.inflight == c.inflight - {h}
  {
    hide Shaped, CompleteOp;
    CompleteShaped(cfg, c, h, false);
    CompleteKeepsIff(cfg, c, h, false);
    FailTable(cfg, c, h);
  }

  // ---- the eviction loop -------------------------------------------------------------------------

  function Names(os: seq<Offer>): (ns: seq<NodeId>) {
    seq(|os|, i requires 0 <= i < |os| => os[i].n)
  }

  ghost predicate Holding(t: Tree, u: Tier, ns: seq<NodeId>) {
    forall n :: n in ns ==> n in t && u in t[n].res
  }

  /** Of the nodes taken, in order, those whose units find room on `p` in their turn: free units, to which what
      the node itself held there comes back, and the budget that is left. */
  function Lasting(t: Tree, u: Tier, p: Tier, cap: int, ns: seq<NodeId>, free: int, pend: int): (ds: seq<NodeId>)
    requires Holding(t, u, ns)
    ensures forall n :: n in ds ==> n in ns
  {
    if ns == [] then [] else
      assert ns[0] in ns;
      var k := |t[ns[0]].res[u].ids|;
      if k <= free && (cap <= 0 || pend + k <= cap)
      then [ns[0]] + Lasting(t, u, p, cap, ns[1..], free - k + |ResourceIds(t, ns[0], p)|, pend + k)
      else Lasting(t, u, p, cap, ns[1..], free, pend)
  }

  /** From `c` to `d` the nodes `ds`, and no others, were demoted from `u` to `p`, in that order. */
  ghost predicate Moved(c: Cache, d: Cache, u: Tier, p: Tier, ds: seq<NodeId>)
    requires Holding(c.tree, u, ds)
  {
    && d.nextHandle == c.nextHandle + |ds|
    && (forall h :: h in d.inflight <==> h in c.inflight || c.nextHandle <= h < c.nextHandle + |ds|)
    && (forall h :: h in c.inflight ==> d.inflight[h] == c.inflight[h])
    && (forall i :: 0 <= i < |ds| ==> MovedOne(c, d, u, p, ds, i))
  }

  ghost predicate MovedOne(c: Cache, d: Cache, u: Tier, p: Tier, ds: seq<NodeId>, i: int)
    requires Holding(c.tree, u, ds) && 0 <= i < |ds|
  {
    var k := |c.tree[ds[i]].res[u].ids|;
    && ds[i] in d.tree && Holds(d.tree[ds[i]], p, c.nextHandle + i, k)
    && d.tree[ds[i]].res == (c.tree[ds[i]].res - {u})[p := d.tree[ds[i]].res[p]]
    && c.nextHandle + i in d.inflight && d.inflight[c.nextHandle + i] == PendingOp(ds[i], u, p, false, k)
  }

  /** A node with a resource that is not in the list stays as it is. */
  lemma {:induction false} LoopSpares(cfg: Config, c: Cache, u: Tier, to: Option<Tier>, ns: seq<NodeId>, deficit: int, m: NodeId)
    requires Shaped(c) && Candidates(c, u, ns) && m !in ns
    ensures var r := EvictLoop(cfg, c, u, to, ns, deficit);
            && (m in r.tree ==> m in c.tree && r.tree[m].res == c.tree[m].res)
            && (m in c.tree && c.tree[m].res != map[] ==> m in r.tree)
    decreases |ns|
  {
    hide Shaped, EvictNode, Evictable;
    if ns != [] && deficit > 0 {
      if CanEvict(c, u, ns[0]) {
        EvictRest(cfg, c, u, to, ns);
        OtherKeeps(cfg, c, ns[0], u, to, m);
        LoopSpares(cfg, EvictNode(cfg, c, ns[0], u, to), u, to, ns[1..], deficit - Size(c, u, ns[0]), m);
      } else {
        LoopSpares(cfg, c, u, to, ns[1..], deficit, m);
      }
    }
  }

  lemma OtherKeeps(cfg: Config, c: Cache, n: NodeId, u: Tier, to: Option<Tier>, m: NodeId)
    requires Shaped(c) && n in c.tree && u in c.tree[n].res && CanEvict(c, u, n) && m != n
    ensures var d := EvictNode(cfg, c, n, u, to);
            && (m in d.tree ==> m in c.tree && d.tree[m].res == c.tree[m].res)
            && (m in c.tree && c.tree[m].res != map[] ==> m in d.tree)
  {
    hide EvictNode, Shaped;
    DemotesAt(cfg, c, n, u, to);
    assert m in c.tree && c.tree[m].res != map[] ==> c.tree[m].res.Keys != {};
  }

  lemma {:induction false} LastingSame(a: Tree, b: Tree, u: Tier, p: Tier, cap: int, ns: seq<NodeId>, free: int, pend: int)
    requires Holding(a, u, ns) && Holding(b, u, ns) && forall n :: n in ns ==> b[n].res == a[n].res
    ensures Lasting(b, u, p, cap, ns, free, pend) == Lasting(a, u, p, cap, ns, free, pend)
  {
    hide Lasting;
    if ns == [] {
      LastingNone(a, u, p, cap, free, pend);
      LastingNone(b, u, p, cap, free, pend);
    } else {
      var n, k := ns[0], |a[ns[0]].res[u].ids|;
      assert ns == [n] + ns[1..];
      LastingFirst(a, u, p, cap, n, ns[1..], free, pend);
      LastingFirst(b, u, p, cap, n, ns[1..], free, pend);
      LastingSame(a, b, u, p, cap, ns[1..], free - k + |ResourceIds(a, n, p)|, pend + k);
      LastingSame(a, b, u, p, cap, ns[1..], free, pend);
    }
  }

  /** A first demotion and then the rest. */
  lemma MovedStep(c: Cache, d: Cache, r: Cache, u: Tier, p: Tier, n: NodeId, ds: seq<NodeId>)
    requires n in c.tree && u in c.tree[n].res && n !in ds && Holding(c.tree, u, ds) && Holding(d.tree, u, ds)
    requires Demoted(c, d, n, u, p) && Moved(d, r, u, p, ds) && n in r.tree && r.tree[n].res == d.tree[n].res
    requires forall h :: h in c.inflight ==> h < c.nextHandle
    ensures Holding(c.tree, u, [n] + ds) && Moved(c, r, u, p, [n] + ds)
  {
    var all := [n] + ds;
    forall m | m in all ensures m in c.tree && u in c.tree[m].res {}
    assert c.nextHandle in d.inflight;
    forall i | 0 <= i < |all| ensures MovedOne(c, r, u, p, all, i) {
      if i > 0 {
        assert all[i] == ds[i - 1];
        assert MovedOne(d, r, u, p, ds, i - 1);
      }
    }
  }

  /** A drop and then the rest. */
  lemma MovedSkip(c: Cache, d: Cache, r: Cache, u: Tier, p: Tier, n: NodeId, ds: seq<NodeId>)
    requires n in c.tree && n !in ds && Holding(c.tree, u, ds) && Holding(d.tree, u, ds)
    requires Drops(c, d, n, u) && Moved(d, r, u, p, ds)
    ensures Moved(c, r, u, p, ds)
  {
    hide Holds;
    forall i | 0 <= i < |ds| ensures MovedOne(c, r, u, p, ds, i) { assert MovedOne(d, r, u, p, ds, i); }
  }

  /** The nodes taken are in the tree and hold the tier. */
  lemma TakenHold(c: Cache, u: Tier, ns: seq<NodeId>, deficit: int)
    requires Candidates(c, u, ns)
    ensures Holding(c.tree, u, Names(Taken(Offers(c, u, ns), deficit)))
    ensures forall n :: n in Names(Taken(Offers(c, u, ns), deficit)) ==> n in ns
  {
    var os := Offers(c, u, ns);
    var names := Names(Taken(os, deficit));
    forall n | n in names ensures n in ns && n in c.tree && u in c.tree[n].res {
      var i :| 0 <= i < |names| && names[i] == n;
      AbleHas(os, Taken(os, deficit)[i]);
      var j :| 0 <= j < |os| && os[j] == Taken(os, deficit)[i];
      assert ns[j] == n;
    }
  }

  /** What the loop with a target does with the nodes it takes, `ds` of them demoted: those are on their way to
      `p`, the others are dropped. */
  ghost predicate Parted(c: Cache, r: Cache, u: Tier, p: Tier, taken: seq<NodeId>, ds: seq<NodeId>)
    requires Holding(c.tree, u, taken)
  {
    && Holding(c.tree, u, ds) && Moved(c, r, u, p, ds)
    && forall n :: n in taken && n !in ds ==>
         if n in r.tree then r.tree[n].res == c.tree[n].res - {u} else c.tree[n].res.Keys == {u}
  }

  ghost predicate HandlesBelow(c: Cache) {
    forall h :: h in c.inflight ==> h < c.nextHandle
  }

  ghost predicate LoopParts(cfg: Config, c: Cache, u: Tier, p: Tier, ns: seq<NodeId>, deficit: int)
    requires Shaped(c) && Candidates(c, u, ns)
  {
    TakenHold(c, u, ns, deficit);
    var taken := Names(Taken(Offers(c, u, ns), deficit));
    Parted(c, EvictLoop(cfg, c, u, Some(p), ns, deficit), u, p, taken,
           Lasting(c.tree, u, p, cfg.cap.At(p), taken, |c.free.At(p)|, c.pending.At(p)))
  }

  lemma {:induction false} LoopDemotes(cfg: Config, c: Cache, u: Tier, p: Tier, ns: seq<NodeId>, deficit: int)
    requires Shaped(c) && Genuine(cfg, c) && Candidates(c, u, ns) && HandlesBelow(c) && p != u && p in cfg.enabled
    ensures LoopParts(cfg, c, u, p, ns, deficit)
    decreases |ns|, 1
  {
    hide Shaped, Genuine, EvictNode, Evictable, Holds, Lasting, Taken, Able, Names;
    TakenHold(c, u, ns, deficit);
    if ns == [] || deficit <= 0 {
      NoneTaken(c, u, ns, deficit);
      LastingNone(c.tree, u, p, cfg.cap.At(p), |c.free.At(p)|, c.pending.At(p));
    } else {
      var os := Offers(c, u, ns);
      TakenStep(os, deficit);
      OffersRest(c, c, u, ns);
      if CanEvict(c, u, ns[0]) {
        LoopDemotesFirst(cfg, c, u, p, ns, deficit);
      } else {
        LoopDemotes(cfg, c, u, p, ns[1..], deficit);
      }
    }
  }

  lemma LastingNone(t: Tree, u: Tier, p: Tier, cap: int, free: int, pend: int)
    ensures Holding(t, u, []) && Lasting(t, u, p, cap, [], free, pend) == []
  {}

  lemma NoneTaken(c: Cache, u: Tier, ns: seq<NodeId>, deficit: int)
    requires Candidates(c, u, ns) && (ns == [] || deficit <= 0)
    ensures Names(Taken(Offers(c, u, ns), deficit)) == []
  {}

  /** What a demotion leaves free on the target, and a drop. */
  lemma FreeAfter(cfg: Config, c: Cache, n: NodeId, u: Tier, p: Tier)
    requires Shaped(c) && Genuine(cfg, c) && n in c.tree && u in c.tree[n].res && CanEvict(c, u, n) && p != u
    ensures var d := EvictNode(cfg, c, n, u, Some(p)); var k := |c.tree[n].res[u].ids|;
            && |d.free.At(p)| == |c.free.At(p)| + (if Admitted(cfg, c, Some(p), k) then |ResourceIds(c.tree, n, p)| - k else 0)
            && d.pending.At(p) == c.pending.At(p) + if Admitted(cfg, c, Some(p), k) then k else 0
  {
    hide WF, Prune, Accepted, Popped, Genuine;
    DetachKeeps(c.tree, n, u);
    NodeGenuine(cfg, c, n, p);
    AcceptedAll(cfg.total.At(p), ResourceIds(c.tree, n, p));
  }

  lemma DemotedHolds(c: Cache, d: Cache, n: NodeId, u: Tier, p: Tier)
    requires n in c.tree && u in c.tree[n].res && Demoted(c, d, n, u, p)
    ensures n in d.tree && p in d.tree[n].res
  {}

  lemma HandlesStay(cfg: Config, c: Cache, n: NodeId, u: Tier, to: Option<Tier>)
    requires Shaped(c) && n in c.tree && u in c.tree[n].res && CanEvict(c, u, n) && HandlesBelow(c)
    ensures HandlesBelow(EvictNode(cfg, c, n, u, to))
  {
    hide Shaped, EvictNode, Evictable;
    DemotesAt(cfg, c, n, u, to);
  }

  lemma LastingFirst(t: Tree, u: Tier, p: Tier, cap: int, n: NodeId, ns: seq<NodeId>, free: int, pend: int)
    requires Holding(t, u, [n] + ns) && Holding(t, u, ns)
    ensures n in t && u in t[n].res
    ensures Lasting(t, u, p, cap, [n] + ns, free, pend)
         == var k := |t[n].res[u].ids|;
            if k <= free && (cap <= 0 || pend + k <= cap)
            then [n] + Lasting(t, u, p, cap, ns, free - k + |ResourceIds(t, n, p)|, pend + k)
            else Lasting(t, u, p, cap, ns, free, pend)
  {
    assert n in [n] + ns;
    assert ([n] + ns)[1..] == ns;
  }

  lemma PartedTake(c: Cache, d: Cache, r: Cache, u: Tier, p: Tier, n: NodeId, taken: seq<NodeId>, ds: seq<NodeId>)
    requires n in c.tree && u in c.tree[n].res && n !in ds && Holding(c.tree, u, [n] + taken) && Holding(d.tree, u, taken)
    requires Demoted(c, d, n, u, p) && Parted(d, r, u, p, taken, ds) && Holding(c.tree, u, ds)
    requires (n in r.tree ==> n in d.tree && r.tree[n].res == d.tree[n].res) && (n in d.tree && d.tree[n].res != map[] ==> n in r.tree)
    requires HandlesBelow(c) && n !in taken
    ensures Parted(c, r, u, p, [n] + taken, [n] + ds)
  {
    hide Holds, Moved;
    DemotedHolds(c, d, n, u, p);
    MovedStep(c, d, r, u, p, n, ds);
  }

  lemma PartedDrop(c: Cache, d: Cache, r: Cache, u: Tier, p: Tier, n: NodeId, taken: seq<NodeId>, ds: seq<NodeId>)
    requires n in c.tree && u in c.tree[n].res && n !in ds && Holding(c.tree, u, [n] + taken) && Holding(d.tree, u, taken)
    requires Drops(c, d, n, u) && Parted(d, r, u, p, taken, ds) && Holding(c.tree, u, ds) && n !in taken
    requires (n in r.tree ==> n in d.tree && r.tree[n].res == d.tree[n].res) && (n in d.tree && d.tree[n].res != map[] ==> n in r.tree)
    ensures Parted(c, r, u, p, [n] + taken, ds)
  {
    hide Holds, Moved;
    MovedSkip(c, d, r, u, p, n, ds);
    if n !in r.tree {
      if n in d.tree { assert d.tree[n].res.Keys == {}; }
      assert c.tree[n].res.Keys == {u};
    }
  }

  lemma LoopDemotesFirst(cfg: Config, c: Cache, u: Tier, p: Tier, ns: seq<NodeId>, deficit: int)
    requires Shaped(c) && Genuine(cfg, c) && Candidates(c, u, ns) && HandlesBelow(c) && p != u && p in cfg.enabled
    requires ns != [] && deficit > 0 && CanEvict(c, u, ns[0])
    ensures LoopParts(cfg, c, u, p, ns, deficit)
    decreases |ns|, 0
  {
    hide Shaped, Genuine, EvictNode, Holds, Evictable, Taken, Offers, Candidates, Demoted, Drops, Parted, Lasting;
    FirstTaken(cfg, c, u, p, ns, deficit);
    var n := ns[0];
    var d := EvictNode(cfg, c, n, u, Some(p));
    var left := deficit - Size(c, u, n);
    HandlesStay(cfg, c, n, u, Some(p));
    EvictGenuine(cfg, c, n, u, Some(p));
    DemotesAt(cfg, c, n, u, Some(p));
    FreeAfter(cfg, c, n, u, p);
    LoopDemotes(cfg, d, u, p, ns[1..], left);
    LoopSpares(cfg, d, u, Some(p), ns[1..], left, n);
    var taken := Names(Taken(Offers(d, u, ns[1..]), left));
    var cap, k := cfg.cap.At(p), |c.tree[n].res[u].ids|;
    var ds := Lasting(d.tree, u, p, cap, taken, |d.free.At(p)|, d.pending.At(p));
    var r := EvictLoop(cfg, c, u, Some(p), ns, deficit);
    LastingSame(c.tree, d.tree, u, p, cap, taken, |d.free.At(p)|, d.pending.At(p));
    assert [n] + taken == Names(Taken(Offers(c, u, ns), deficit));
    LastingFirst(c.tree, u, p, cap, n, taken, |c.free.At(p)|, c.pending.At(p));
    if Admitted(cfg, c, Some(p), k) {
      PartedTake(c, d, r, u, p, n, taken, ds);
    } else {
      PartedDrop(c, d, r, u, p, n, taken, ds);
    }
  }

  /** The first node taken and the rest, before and after its eviction. */
  lemma FirstTaken(cfg: Config, c: Cache, u: Tier, p: Tier, ns: seq<NodeId>, deficit: int)
    requires Shaped(c) && Candidates(c, u, ns) && ns != [] && deficit > 0
    requires CanEvict(c, u, ns[0])
    ensures var d := EvictNode(cfg, c, ns[0], u, Some(p)); var left := deficit - Size(c, u, ns[0]);
            && ns[0] in c.tree && u in c.tree[ns[0]].res
            && Shaped(d) && Candidates(d, u, ns[1..]) && ns[0] !in ns[1..]
            && var taken := Names(Taken(Offers(d, u, ns[1..]), left));
               && Names(Taken(Offers(c, u, ns), deficit)) == [ns[0]] + taken && ns[0] !in taken
               && Holding(c.tree, u, [ns[0]] + taken) && Holding(c.tree, u, taken) && Holding(d.tree, u, taken)
               && forall m :: m in taken ==> d.tree[m].res == c.tree[m].res
  {
    hide Shaped, EvictNode, Evictable, Taken;
    EvictRest(cfg, c, u, Some(p), ns);
    var d := EvictNode(cfg, c, ns[0], u, Some(p));
    var left := deficit - Size(c, u, ns[0]);
    OffersRest(c, d, u, ns);
    TakenStep(Offers(c, u, ns), deficit);
    TakenHold(c, u, ns, deficit);
    TakenHold(d, u, ns[1..], left);
    var taken := Names(Taken(Offers(d, u, ns[1..]), left));
    assert Names(Taken(Offers(c, u, ns), deficit)) == [ns[0]] + taken;
    forall m | m in taken ensures m in c.tree && u in c.tree[m].res && d.tree[m].res == c.tree[m].res {
      assert m in [ns[0]] + taken;
      OtherKeeps(cfg, c, ns[0], u, Some(p), m);
    }
  }

  // ---- the outcome -------------------------------------------------------------------------------

  /** The nodes the loop takes, in order. */
  function TakenNodes(c: Cache, u: Tier, ns: seq<NodeId>, deficit: int): (taken: seq<NodeId>)
    requires Candidates(c, u, ns)
    ensures Holding(c.tree, u, taken)
  {
    TakenHold(c, u, ns, deficit);
    Names(Taken(Offers(c, u, ns), deficit))
  }

  /** Of the nodes taken, those whose units find room and budget on the target in their turn are on their way there,
      each under the next new handle, and the table gains just those operations; the others are dropped. */
  ghost predicate Shifts(cfg: Config, c: Cache, r: Cache, u: Tier, p: Tier, taken: seq<NodeId>)
    requires Holding(c.tree, u, taken)
  {
    Parted(c, r, u, p, taken,
           Lasting(c.tree, u, p, cfg.cap.At(p), taken, |c.free.At(p)|, PendingSum(c.inflight, c.inflight.Keys, p)))
  }

  lemma LoopShifts(cfg: Config, c: Cache, u: Tier, p: Tier, ns: seq<NodeId>, deficit: int)
    requires Shaped(c) && Genuine(cfg, c) && Counted(cfg, c) && Candidates(c, u, ns) && p != u && p in cfg.enabled
    ensures Shifts(cfg, c, EvictLoop(cfg, c, u, Some(p), ns, deficit), u, p, TakenNodes(c, u, ns, deficit))
  {
    hide Shaped, Genuine, EvictLoop, Parted, Lasting;
    LoopDemotes(cfg, c, u, p, ns, deficit);
  }

  function SizeOf(t: Tree, u: Tier, ns: seq<NodeId>): nat
    requires Holding(t, u, ns)
  {
    if ns == [] then 0 else assert ns[0] in ns; |t[ns[0]].res[u].ids| + SizeOf(t, u, ns[1..])
  }

  /** With room and budget for all of them together, none is dropped. */
  lemma {:induction false} AllLast(t: Tree, u: Tier, p: Tier, cap: int, ns: seq<NodeId>, free: int, pend: int)
    requires Holding(t, u, ns) && SizeOf(t, u, ns) <= free && (cap <= 0 || pend + SizeOf(t, u, ns) <= cap)
    ensures Lasting(t, u, p, cap, ns, free, pend) == ns
  {
    hide Lasting;
    if ns == [] {
      LastingNone(t, u, p, cap, free, pend);
    } else {
      assert ns[0] in ns;
      var k := |t[ns[0]].res[u].ids|;
      assert ns == [ns[0]] + ns[1..];
      LastingFirst(t, u, p, cap, ns[0], ns[1..], free, pend);
      AllLast(t, u, p, cap, ns[1..], free - k + |ResourceIds(t, ns[0], p)|, pend + k);
    }
  }

  /** Only tier `u` changes, and no operation starts. */
  ghost predicate OnlyDrops(c: Cache, r: Cache, u: Tier) {
    && r.inflight == c.inflight && r.pending == c.pending && r.nextHandle == c.nextHandle && r.next == c.next
    && (forall v: Tier :: v != u ==> r.free.At(v) == c.free.At(v))
    && (forall m :: m in r.tree ==> m in c.tree && r.tree[m].res - {u} == c.tree[m].res - {u})
    && (forall m :: m in c.tree && m !in r.tree ==> c.tree[m].res.Keys <= {u})
  }

  lemma EvictOnlyDrops(cfg: Config, c: Cache, n: NodeId, u: Tier, to: Option<Tier>)
    requires Shaped(c) && n in c.tree && u in c.tree[n].res && CanEvict(c, u, n) && (to.Some? ==> to.value !in cfg.enabled)
    ensures OnlyDrops(c, EvictNode(cfg, c, n, u, to), u)
  {
    hide Shaped, Prune, Evictable;
    DemotesAt(cfg, c, n, u, to);
  }

  lemma OnlyDropsThen(a: Cache, b: Cache, c: Cache, u: Tier)
    requires OnlyDrops(a, b, u) && OnlyDrops(b, c, u)
    ensures OnlyDrops(a, c, u)
  {
    forall m | m in a.tree && m !in c.tree ensures a.tree[m].res.Keys <= {u} {
      if m in b.tree {
        forall v | v in a.tree[m].res ensures v == u || v in b.tree[m].res {
          assert (v in b.tree[m].res - {u}) == (v in a.tree[m].res - {u});
        }
      }
    }
  }

  /** Without an enabled target the loop drops: it starts no operation and touches no other tier. */
  lemma {:induction false} LoopOnlyDrops(cfg: Config, c: Cache, u: Tier, to: Option<Tier>, ns: seq<NodeId>, deficit: int)
    requires Shaped(c) && Candidates(c, u, ns) && (to.Some? ==> to.value !in cfg.enabled)
    ensures OnlyDrops(c, EvictLoop(cfg, c, u, to, ns, deficit), u)
    decreases |ns|
  {
    hide Shaped, EvictNode, OnlyDrops, Evictable;
    if ns == [] || deficit <= 0 {
      NothingDropped(c, u);
    } else if CanEvict(c, u, ns[0]) {
      EvictRest(cfg, c, u, to, ns);
      var d := EvictNode(cfg, c, ns[0], u, to);
      var left := deficit - Size(c, u, ns[0]);
      EvictOnlyDrops(cfg, c, ns[0], u, to);
      LoopOnlyDrops(cfg, d, u, to, ns[1..], left);
      OnlyDropsThen(c, d, EvictLoop(cfg, d, u, to, ns[1..], left), u);
    } else {
      LoopOnlyDrops(cfg, c, u, to, ns[1..], deficit);
    }
  }

  lemma NothingDropped(c: Cache, u: Tier)
    ensures OnlyDrops(c, c, u)
  {}
}
