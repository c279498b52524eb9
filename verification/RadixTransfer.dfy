/** What starting an operation and completing it amount to together. */
module RadixTransfer {
  import opened Basics
  import opened RadixTree
  import opened RadixUnits
  import opened RadixCache
  import opened RadixConserve

  /** A start that goes through, onto a tier the node does not hold. */
  predicate Starts(cfg: Config, c: Cache, n: NodeId, src: Tier, dst: Tier, isPromote: bool) {
    n in c.tree && dst !in c.tree[n].res && c.nextHandle !in c.inflight && StartOp(cfg, c, n, src, dst, isPromote).Ok?
  }

  function StartAndComplete(cfg: Config, c: Cache, n: NodeId, src: Tier, dst: Tier, isPromote: bool, success: bool): Result<Cache, Error>
    requires Shaped(c) && Starts(cfg, c, n, src, dst, isPromote)
  {
    StartShaped(cfg, c, n, src, dst, isPromote);
    CompleteOp(cfg, StartOp(cfg, c, n, src, dst, isPromote).value, c.nextHandle, success)
  }

  lemma PoppedInRange(cfg: Config, c: Cache, u: Tier, k: nat)
    requires Genuine(cfg, c) && k <= |c.free.At(u)|
    ensures Accepted(cfg.total.At(u), Popped(c.free.At(u), k)) == Popped(c.free.At(u), k)
  {
    PoppedUnits(c.free.At(u), k);
    assert InRange(cfg.total.At(u), Held(c, u));
    forall id | id in multiset(Popped(c.free.At(u), k)) ensures 0 < id < cfg.total.At(u) { assert id in Held(c, u); }
    AcceptedAll(cfg.total.At(u), Popped(c.free.At(u), k));
  }

  lemma ReserveFresh(cfg: Config, c: Cache, n: NodeId, src: Tier, dst: Tier, isPromote: bool, k: nat)
    requires n in c.tree && dst !in c.tree[n].res && k <= |c.free.At(dst)|
    ensures var r := Reserve(cfg, c, n, src, dst, isPromote, k); var f := c.free.At(dst);
            && r.tree == Attach(c.tree, n, dst, Resource(Popped(f, k), 0, Pending, c.nextHandle))
            && r.free == c.free.With(dst, f[..|f| - k])
            && r.inflight == c.inflight[c.nextHandle := PendingOp(n, src, dst, isPromote, k)]
            && r.pending == c.pending.With(dst, c.pending.At(dst) + k) && r.next == c.next
  {
    var f := c.free.At(dst);
    assert f[..|f| - k] + Accepted(cfg.total.At(dst), []) == f[..|f| - k];
    var r := Reserve(cfg, c, n, src, dst, isPromote, k);
    assert r.free.At(dst) == f[..|f| - k];
    match dst case Device => case Host => case Disk => case Remote =>
  }

  lemma SettleFresh(c: Cache, s: Cache, h: Handle, p: PendingOp)
    requires h !in c.inflight && s.inflight == c.inflight[h := p] && s.pending == c.pending.With(p.dst, c.pending.At(p.dst) + p.count)
    ensures Settle(s, h) == s.(inflight := c.inflight, pending := c.pending)
  {
    assert c.inflight[h := p] - {h} == c.inflight;
    SamePending(c, p.dst, p.count);
  }

  lemma SamePending(c: Cache, dst: Tier, k: nat)
    ensures c.pending.With(dst, c.pending.At(dst) + k).With(dst, c.pending.At(dst) + k - k) == c.pending
  {
    match dst case Device => case Host => case Disk => case Remote =>
  }

  /** Starting and then failing undoes the start: the same tree, table and counters, and the same free units. */
  lemma StartThenFail(cfg: Config, c: Cache, n: NodeId, src: Tier, dst: Tier, isPromote: bool)
    requires Shaped(c) && Genuine(cfg, c) && Starts(cfg, c, n, src, dst, isPromote)
    ensures var r := StartAndComplete(cfg, c, n, src, dst, isPromote, false);
            && r.Ok? && r.value.tree == c.tree && r.value.inflight == c.inflight && r.value.pending == c.pending
            && (forall u: Tier :: multiset(r.value.free.At(u)) == multiset(c.free.At(u)))
  {
    hide WF, Reserve, Settle, Popped, Accepted, Genuine;
    var k := |c.tree[n].res[src].ids|;
    var s := Reserve(cfg, c, n, src, dst, isPromote, k);
    ReserveFresh(cfg, c, n, src, dst, isPromote, k);
    PoppedInRange(cfg, c, dst, k);
    PoppedUnits(c.free.At(dst), k);
    SettleFresh(c, s, c.nextHandle, PendingOp(n, src, dst, isPromote, k));
    var d := DetachAt(cfg, Settle(s, c.nextHandle), n, dst);
    assert d.tree[n].res == c.tree[n].res;
    assert d.tree == c.tree;
    assert src in d.tree[n].res;
    assert Prune(d.tree, n) == d.tree;
  }

  /** Starting and then finishing moves the node's data: the destination is ready with the units reserved for
      it; a demotion gives the source's units back, a promotion keeps the source. */
  lemma StartThenFinish(cfg: Config, c: Cache, n: NodeId, src: Tier, dst: Tier, isPromote: bool)
    requires Shaped(c) && Genuine(cfg, c) && Starts(cfg, c, n, src, dst, isPromote)
    ensures var r := StartAndComplete(cfg, c, n, src, dst, isPromote, true);
            var k := |c.tree[n].res[src].ids|; var f := c.free.At(dst);
            && r.Ok? && r.value.inflight == c.inflight && r.value.pending == c.pending
            && r.value.tree == c.tree[n := c.tree[n].(res := (if isPromote then c.tree[n].res else c.tree[n].res - {src})
                                                             + map[dst := Resource(Popped(f, k), 0, Ready, 0)])]
            && r.value.free.At(dst) == f[..|f| - k]
            && (forall u: Tier :: u != dst ==>
                  r.value.free.At(u) == c.free.At(u) + if u == src && !isPromote then c.tree[n].res[src].ids else [])
  {
    hide WF, Reserve, Settle, Popped, Accepted, Genuine;
    var k := |c.tree[n].res[src].ids|;
    var f := c.free.At(dst);
    var s := Reserve(cfg, c, n, src, dst, isPromote, k);
    ReserveFresh(cfg, c, n, src, dst, isPromote, k);
    NodeGenuine(cfg, c, n, src);
    AcceptedAll(cfg.total.At(src), c.tree[n].res[src].ids);
    var ready := Resource(Popped(f, k), 0, Ready, 0);
    var t := Attach(s.tree, n, dst, ready);
    assert t[n].res == c.tree[n].res + map[dst := ready];
    assert t[n].res - {src} == c.tree[n].res - {src} + map[dst := ready];
    SettleFresh(c, s, c.nextHandle, PendingOp(n, src, dst, isPromote, k));
  }
}
