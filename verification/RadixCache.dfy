/** The tiered cache as a value: tree, free lists, and the table of operations in flight. */
module RadixCache {
  import opened Basics
  import opened RadixPages
  import opened RadixTree
  import opened RadixWalk
  import opened RadixStore
  import opened RadixUnits

  /** `tier_config`, per tier. A cap of 0 or less means no bound on pending units. */
  datatype Config = Config(enabled: set<Tier>, total: PerTier<nat>, cap: PerTier<int>)

  datatype PendingOp = PendingOp(node: NodeId, src: Tier, dst: Tier, isPromote: bool, count: nat)

  datatype Cache = Cache(tree: Tree, next: NodeId, free: PerTier<seq<UnitId>>,
                         inflight: map<Handle, PendingOp>, pending: PerTier<int>, nextHandle: Handle)

  datatype Error = TierMismatch | NotAligned | CountMismatch | TierDisabled | NoSource | PendingCap | Shortage
                 | UnknownHandle | DanglingNode

  function NewCache(cfg: Config): Cache {
    Cache(EMPTY, 1, PerTier(Fresh(cfg.total.device), Fresh(cfg.total.host), Fresh(cfg.total.disk), Fresh(cfg.total.remote)),
          map[], PerTier(0, 0, 0, 0), 1)
  }

  ghost predicate Shaped(c: Cache) {
    WF(c.tree) && Below(c.tree, c.next)
  }

  // ---- pieces ------------------------------------------------------------------------------------

  /** A handle is destroyed: its units go back to the free list. */
  function Give(cfg: Config, c: Cache, u: Tier, ids: seq<UnitId>): Cache {
    c.(free := c.free.With(u, c.free.At(u) + Accepted(cfg.total.At(u), ids)))
  }

  /** `unit_allocator::allocate`, once there is room. */
  function Take(c: Cache, u: Tier, n: nat): Cache
    requires n <= |c.free.At(u)|
  {
    c.(free := c.free.With(u, c.free.At(u)[..|c.free.At(u)| - n]))
  }

  /** `check_pending_budget`. */
  predicate BudgetOk(cfg: Config, c: Cache, u: Tier, need: nat) {
    cfg.cap.At(u) <= 0 || c.pending.At(u) + need <= cfg.cap.At(u)
  }

  function ResourceIds(t: Tree, n: NodeId, u: Tier): seq<UnitId>
    requires n in t
  {
    if u in t[n].res then t[n].res[u].ids else []
  }

  /** Attaching destroys the resource it replaces, which returns that one's units. */
  function AttachAt(cfg: Config, c: Cache, n: NodeId, u: Tier, r: Resource): Cache
    requires n in c.tree
  {
    Give(cfg, c, u, ResourceIds(c.tree, n, u)).(tree := Attach(c.tree, n, u, r))
  }

  /** Detaching and dropping the result. */
  function DetachAt(cfg: Config, c: Cache, n: NodeId, u: Tier): Cache
    requires n in c.tree
  {
    Give(cfg, c, u, ResourceIds(c.tree, n, u)).(tree := Detach(c.tree, n, u))
  }

  /** Reserve `k` units on `dst` for node `n`, pending under a new handle. */
  function Reserve(cfg: Config, c: Cache, n: NodeId, src: Tier, dst: Tier, isPromote: bool, k: nat): Cache
    requires n in c.tree && k <= |c.free.At(dst)|
  {
    var h := c.nextHandle;
    var c1 := AttachAt(cfg, Take(c, dst, k), n, dst, Resource(Popped(c.free.At(dst), k), 0, Pending, h));
    c1.(inflight := c1.inflight[h := PendingOp(n, src, dst, isPromote, k)],
        pending := c1.pending.With(dst, c1.pending.At(dst) + k),
        nextHandle := h + 1)
  }

  // ---- operations --------------------------------------------------------------------------------

  function Match(c: Cache, q: seq<Page>): Cache
    requires Shaped(c)
  {
    var w := WalkTree(c.tree, c.next, q);
    c.(tree := w.tree, next := w.next)
  }

  function Insert(cfg: Config, c: Cache, u: Tier, q: seq<Page>, ids: seq<UnitId>): Result<Cache, Error>
    requires Shaped(c)
  {
    if |ids| != |q| then Err(CountMismatch) else
      match InsertPages(c.tree, c.next, u, q, ids)
      case Dangling(_, _) => Err(DanglingNode)
      case Inserted(tree, next, _, _, freed) => Ok(Give(cfg, c.(tree := tree, next := next), u, freed))
  }

  /** `evict_node_resource`: nothing unless evictable; else demote where allowed, otherwise drop. */
  function EvictNode(cfg: Config, c: Cache, n: NodeId, u: Tier, promoteTo: Option<Tier>): (r: Cache)
    requires Shaped(c) && n in c.tree
  {
    if u !in c.tree[n].res || !Evictable(c.tree[n].res[u]) then c else
      var ids := c.tree[n].res[u].ids;
      DetachKeeps(c.tree, n, u);
      var c1 := c.(tree := Detach(c.tree, n, u));
      if promoteTo.Some? && promoteTo.value in cfg.enabled && |ids| <= |c1.free.At(promoteTo.value)|
         && BudgetOk(cfg, c1, promoteTo.value, |ids|)
      then Give(cfg, Reserve(cfg, c1, n, u, promoteTo.value, false, |ids|), u, ids)
      else Give(cfg, c1.(tree := Prune(c1.tree, n)), u, ids)
  }

  /** `start_demote` and `start_promote`. */
  function StartOp(cfg: Config, c: Cache, n: NodeId, src: Tier, dst: Tier, isPromote: bool): Result<Cache, Error>
    requires n in c.tree
  {
    if src !in cfg.enabled || dst !in cfg.enabled then Err(TierDisabled)
    else if src !in c.tree[n].res then Err(NoSource)
    else
      var k := |c.tree[n].res[src].ids|;
      if !BudgetOk(cfg, c, dst, k) then Err(PendingCap)
      else if k > |c.free.At(dst)| then Err(Shortage)
      else Ok(Reserve(cfg, c, n, src, dst, isPromote, k))
  }

  /** The first half of `complete_op`, under the lock. */
  function Settle(c: Cache, h: Handle): Cache
    requires h in c.inflight
  {
    var p := c.inflight[h];
    c.(inflight := c.inflight - {h}, pending := c.pending.With(p.dst, c.pending.At(p.dst) - p.count))
  }

  function CompleteOp(cfg: Config, c: Cache, h: Handle, success: bool): Result<Cache, Error>
    requires Shaped(c)
  {
    if h !in c.inflight then Err(UnknownHandle) else
      var p := c.inflight[h];
      var c1 := Settle(c, h);
      if p.node !in c.tree then Err(DanglingNode)
      else if p.dst !in c.tree[p.node].res then Ok(c1)
      else if !success then
        DetachKeeps(c.tree, p.node, p.dst);
        var c2 := DetachAt(cfg, c1, p.node, p.dst);
        Ok(c2.(tree := Prune(c2.tree, p.node)))
      else
        var c2 := c1.(tree := Attach(c1.tree, p.node, p.dst, c1.tree[p.node].res[p.dst].(state := Ready, handle := 0)));
        if p.isPromote then Ok(c2) else Ok(DetachAt(cfg, c2, p.node, p.src))
  }

  // ---- every operation keeps the shape -----------------------------------------------------------

  lemma RootHasNone(t: Tree, n: NodeId, u: Tier)
    requires WF(t) && n in t && u in t[n].res
    ensures n != ROOT && |t[n].res[u].ids| == |t[n].seg|
  {
    assert ResourcesOk(t[n]);
  }

  lemma ReserveShaped(cfg: Config, c: Cache, n: NodeId, src: Tier, dst: Tier, isPromote: bool, k: nat)
    requires Shaped(c) && n in c.tree && n != ROOT && k <= |c.free.At(dst)| && k == |c.tree[n].seg|
    ensures Shaped(Reserve(cfg, c, n, src, dst, isPromote, k))
  {
    AttachKeeps(c.tree, n, dst, Resource(Popped(c.free.At(dst), k), 0, Pending, c.nextHandle));
  }

  lemma StartShaped(cfg: Config, c: Cache, n: NodeId, src: Tier, dst: Tier, isPromote: bool)
    requires Shaped(c) && n in c.tree && StartOp(cfg, c, n, src, dst, isPromote).Ok?
    ensures Shaped(StartOp(cfg, c, n, src, dst, isPromote).value)
  {
    RootHasNone(c.tree, n, src);
    ReserveShaped(cfg, c, n, src, dst, isPromote, |c.tree[n].res[src].ids|);
  }

  lemma {:induction false} PruneKeys(t: Tree, n: NodeId)
    requires WF(t)
    ensures Prune(t, n).Keys <= t.Keys
    ensures forall m :: m in Prune(t, n) ==> Prune(t, n)[m].res == t[m].res && Prune(t, n)[m].seg == t[m].seg
                                             && Prune(t, n)[m].path == t[m].path
    ensures forall m :: m in t && m !in Prune(t, n) ==> t[m].res == map[]
    decreases |t|
  {
    if n in t && n != ROOT && Orphan(t[n]) {
      UnlinkKeeps(t, n);
      PruneKeys(Unlink(t, n), t[n].parent);
    }
  }

  lemma EvictShaped(cfg: Config, c: Cache, n: NodeId, u: Tier, promoteTo: Option<Tier>)
    requires Shaped(c) && n in c.tree
    ensures Shaped(EvictNode(cfg, c, n, u, promoteTo))
  {
    hide WF, AttachAt, Reserve, Prune;
    if u in c.tree[n].res {
      RootHasNone(c.tree, n, u);
      DetachKeeps(c.tree, n, u);
      var c1 := c.(tree := Detach(c.tree, n, u));
      PruneKeys(c1.tree, n);
      var ids := c.tree[n].res[u].ids;
      if promoteTo.Some? && |ids| <= |c1.free.At(promoteTo.value)| {
        ReserveShaped(cfg, c1, n, u, promoteTo.value, false, |ids|);
      }
    }
  }

  lemma CompleteShaped(cfg: Config, c: Cache, h: Handle, success: bool)
    requires Shaped(c) && CompleteOp(cfg, c, h, success).Ok?
    ensures Shaped(CompleteOp(cfg, c, h, success).value)
  {
    var p := c.inflight[h];
    if p.dst in c.tree[p.node].res {
      RootHasNone(c.tree, p.node, p.dst);
      var r := c.tree[p.node].res[p.dst].(state := Ready, handle := 0);
      AttachKeeps(c.tree, p.node, p.dst, r);
      DetachKeeps(Attach(c.tree, p.node, p.dst, r), p.node, p.src);
      DetachKeeps(c.tree, p.node, p.dst);
      PruneKeys(Detach(c.tree, p.node, p.dst), p.node);
    }
  }

  lemma InsertShaped(cfg: Config, c: Cache, u: Tier, q: seq<Page>, ids: seq<UnitId>)
    requires Shaped(c) && Insert(cfg, c, u, q, ids).Ok?
    ensures Shaped(Insert(cfg, c, u, q, ids).value)
  {
    InsertRefines(c.tree, c.next, u, q, ids, u);
  }
}
