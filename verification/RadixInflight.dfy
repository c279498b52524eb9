/** The table of operations in flight: its counters, and its agreement with the pending resources. */
module RadixInflight {
  import opened Basics
  import opened RadixPages
  import opened RadixTree
  import opened RadixWalk
  import opened RadixStore
  import opened RadixUnits
  import opened RadixCache

  // ---- pending counters --------------------------------------------------------------------------

  function CountFor(p: PendingOp, u: Tier): nat { if p.dst == u then p.count else 0 }

  /** The units of the listed operations that target tier `u`. */
  ghost function PendingSum(table: map<Handle, PendingOp>, s: set<Handle>, u: Tier): nat
    requires s <= table.Keys
  {
    if s == {} then 0 else CountFor(table[Any(s)], u) + PendingSum(table, s - {Any(s)}, u)
  }

  lemma {:induction false} PendingSumAt(table: map<Handle, PendingOp>, s: set<Handle>, u: Tier, h: Handle)
    requires s <= table.Keys && h in s
    ensures PendingSum(table, s, u) == CountFor(table[h], u) + PendingSum(table, s - {h}, u)
    decreases |s|
  {
    var m := Any(s);
    if m != h {
      PendingSumAt(table, s - {m}, u, h);
      PendingSumAt(table, s - {h}, u, m);
      assert s - {m} - {h} == s - {h} - {m};
    }
  }

  lemma {:induction false} PendingSumSame(a: map<Handle, PendingOp>, b: map<Handle, PendingOp>, s: set<Handle>, u: Tier)
    requires s <= a.Keys && s <= b.Keys && forall h :: h in s ==> a[h] == b[h]
    ensures PendingSum(a, s, u) == PendingSum(b, s, u)
    decreases |s|
  {
    if s != {} { PendingSumSame(a, b, s - {Any(s)}, u); }
  }

  /** Each tier's counter is the sum over the table, within a positive cap; handles are below the next one. */
  ghost predicate Counted(cfg: Config, c: Cache) {
    && (forall u: Tier :: c.pending.At(u) == PendingSum(c.inflight, c.inflight.Keys, u))
    && (forall u: Tier :: cfg.cap.At(u) > 0 ==> c.pending.At(u) <= cfg.cap.At(u))
    && 0 < c.nextHandle && (forall h :: h in c.inflight ==> 0 < h < c.nextHandle)
  }

  lemma ReserveCounted(cfg: Config, c: Cache, n: NodeId, src: Tier, dst: Tier, isPromote: bool, k: nat)
    requires Counted(cfg, c) && n in c.tree && k <= |c.free.At(dst)| && BudgetOk(cfg, c, dst, k)
    ensures Counted(cfg, Reserve(cfg, c, n, src, dst, isPromote, k))
  {
    var r := Reserve(cfg, c, n, src, dst, isPromote, k);
    var h := c.nextHandle;
    forall u: Tier ensures r.pending.At(u) == PendingSum(r.inflight, r.inflight.Keys, u) {
      PendingSumAt(r.inflight, r.inflight.Keys, u, h);
      assert r.inflight.Keys - {h} == c.inflight.Keys;
      PendingSumSame(r.inflight, c.inflight, c.inflight.Keys, u);
    }
  }

  lemma SettleCounted(cfg: Config, c: Cache, h: Handle)
    requires Counted(cfg, c) && h in c.inflight
    ensures Counted(cfg, Settle(c, h))
  {
    var r := Settle(c, h);
    forall u: Tier ensures r.pending.At(u) == PendingSum(r.inflight, r.inflight.Keys, u) {
      PendingSumAt(c.inflight, c.inflight.Keys, u, h);
      assert c.inflight.Keys - {h} == r.inflight.Keys;
      PendingSumSame(r.inflight, c.inflight, r.inflight.Keys, u);
    }
  }

  lemma EvictCounted(cfg: Config, c: Cache, n: NodeId, u: Tier, promoteTo: Option<Tier>)
    requires Shaped(c) && Counted(cfg, c) && n in c.tree
    ensures Counted(cfg, EvictNode(cfg, c, n, u, promoteTo))
  {
    hide WF, AttachAt, Reserve, Take, Below, Evictable, BudgetOk, Accepted;
    if u in c.tree[n].res && Evictable(c.tree[n].res[u]) {
      DetachKeeps(c.tree, n, u);
      var c1 := c.(tree := Detach(c.tree, n, u));
      var ids := c.tree[n].res[u].ids;
      if promoteTo.Some? && |ids| <= |c1.free.At(promoteTo.value)| && BudgetOk(cfg, c1, promoteTo.value, |ids|) {
        ReserveCounted(cfg, c1, n, u, promoteTo.value, false, |ids|);
      }
    }
  }

  // ---- table and tree agree ----------------------------------------------------------------------

  predicate PendingAt(t: Tree, n: NodeId, u: Tier) {
    n in t && u in t[n].res && t[n].res[u].state == Pending
  }

  /** Operation `h`'s node is in the tree and holds its destination pending under `h`. */
  ghost predicate Reserved(t: Tree, h: Handle, p: PendingOp) {
    PendingAt(t, p.node, p.dst) && t[p.node].res[p.dst].handle == h && |t[p.node].res[p.dst].ids| == p.count
  }

  /** The pending resource at `n` belongs to an operation in flight on `n`. */
  ghost predicate Claimed(t: Tree, table: map<Handle, PendingOp>, n: NodeId, u: Tier)
    requires n in t && u in t[n].res
  {
    var h := t[n].res[u].handle;
    h in table && table[h].node == n && table[h].dst == u
  }

  /** The table lists exactly the pending resources of the tree. */
  ghost predicate Agree(t: Tree, table: map<Handle, PendingOp>) {
    && (forall h :: h in table ==> Reserved(t, h, table[h]))
    && (forall n, u :: PendingAt(t, n, u) ==> Claimed(t, table, n, u))
  }

  ghost predicate InFlightOk(c: Cache) {
    Agree(c.tree, c.inflight) && forall h :: h in c.inflight ==> 0 < h < c.nextHandle
  }

  // ---- starting an operation ---------------------------------------------------------------------

  /** Reserving keeps the agreement exactly when the destination was not pending already. */
  lemma ReserveKeepsIff(cfg: Config, c: Cache, n: NodeId, src: Tier, dst: Tier, isPromote: bool, k: nat)
    requires InFlightOk(c) && 0 < c.nextHandle && n in c.tree && k <= |c.free.At(dst)|
    ensures InFlightOk(Reserve(cfg, c, n, src, dst, isPromote, k)) <==> !PendingAt(c.tree, n, dst)
  {
    var r := Reserve(cfg, c, n, src, dst, isPromote, k);
    var h := c.nextHandle;
    if PendingAt(c.tree, n, dst) {
      var lost := c.tree[n].res[dst].handle;
      assert Claimed(c.tree, c.inflight, n, dst);
      assert lost in r.inflight && !Reserved(r.tree, lost, r.inflight[lost]);
    } else {
      forall g | g in r.inflight ensures Reserved(r.tree, g, r.inflight[g]) {
        if g != h { assert Reserved(c.tree, g, c.inflight[g]); }
      }
      forall m, u | PendingAt(r.tree, m, u) ensures Claimed(r.tree, r.inflight, m, u) {
        if m != n || u != dst {
          assert PendingAt(c.tree, m, u);
          assert Claimed(c.tree, c.inflight, m, u);
        }
      }
    }
  }

  /** `start_demote` and `start_promote`. */
  lemma StartKeepsIff(cfg: Config, c: Cache, n: NodeId, src: Tier, dst: Tier, isPromote: bool)
    requires InFlightOk(c) && 0 < c.nextHandle && n in c.tree && StartOp(cfg, c, n, src, dst, isPromote).Ok?
    ensures InFlightOk(StartOp(cfg, c, n, src, dst, isPromote).value) <==> !PendingAt(c.tree, n, dst)
  {
    ReserveKeepsIff(cfg, c, n, src, dst, isPromote, |c.tree[n].res[src].ids|);
  }

  // ---- eviction ----------------------------------------------------------------------------------

  lemma DetachReadyAgrees(t: Tree, table: map<Handle, PendingOp>, n: NodeId, u: Tier)
    requires Agree(t, table) && n in t && !PendingAt(t, n, u)
    ensures Agree(Detach(t, n, u), table)
  {
    var r := Detach(t, n, u);
    forall h | h in table ensures Reserved(r, h, table[h]) { assert Reserved(t, h, table[h]); }
    forall m, v | PendingAt(r, m, v) ensures Claimed(r, table, m, v) {
      assert PendingAt(t, m, v);
      assert Claimed(t, table, m, v);
    }
  }

  /** Pruning frees only nodes without resources, so no operation's node. */
  lemma PruneAgrees(t: Tree, table: map<Handle, PendingOp>, n: NodeId)
    requires WF(t) && Agree(t, table)
    ensures Agree(Prune(t, n), table)
  {
    PruneKeys(t, n);
    var r := Prune(t, n);
    forall h | h in table ensures Reserved(r, h, table[h]) { assert Reserved(t, h, table[h]); }
    forall m, v | PendingAt(r, m, v) ensures Claimed(r, table, m, v) {
      assert PendingAt(t, m, v);
      assert Claimed(t, table, m, v);
    }
  }

  /** Whether an eviction of this node turns into a demotion. */
  predicate Demotes(cfg: Config, c: Cache, n: NodeId, u: Tier, promoteTo: Option<Tier>)
    requires n in c.tree
  {
    && u in c.tree[n].res && c.tree[n].res[u].refs == 0 && c.tree[n].res[u].state == Ready
    && promoteTo.Some? && promoteTo.value in cfg.enabled
    && var k, p := |c.tree[n].res[u].ids|, promoteTo.value;
       k <= |c.free.At(p)| && (cfg.cap.At(p) <= 0 || c.pending.At(p) + k <= cfg.cap.At(p))
  }

  /** Eviction keeps the agreement, except exactly when it demotes onto a pending destination. */
  lemma EvictKeepsIff(cfg: Config, c: Cache, n: NodeId, u: Tier, promoteTo: Option<Tier>)
    requires Shaped(c) && InFlightOk(c) && 0 < c.nextHandle && n in c.tree
    ensures InFlightOk(EvictNode(cfg, c, n, u, promoteTo))
       <==> !(Demotes(cfg, c, n, u, promoteTo) && PendingAt(c.tree, n, promoteTo.value))
  {
    hide Agree, Reserved, Claimed, WF, Reserve;
    if u in c.tree[n].res && Evictable(c.tree[n].res[u]) {
      DetachKeeps(c.tree, n, u);
      DetachReadyAgrees(c.tree, c.inflight, n, u);
      var c1 := c.(tree := Detach(c.tree, n, u));
      var ids := c.tree[n].res[u].ids;
      if Demotes(cfg, c, n, u, promoteTo) {
        ReserveKeepsIff(cfg, c1, n, u, promoteTo.value, false, |ids|);
        assert PendingAt(c1.tree, n, promoteTo.value) <==> PendingAt(c.tree, n, promoteTo.value);
      } else {
        PruneAgrees(c1.tree, c.inflight, n);
      }
    }
  }

  // ---- completion --------------------------------------------------------------------------------

  /** A demotion whose source resource is itself pending, under another operation. */
  predicate LosesSource(c: Cache, p: PendingOp) {
    !p.isPromote && p.src != p.dst && PendingAt(c.tree, p.node, p.src)
  }

  /** Completing loses another operation exactly when a finished demotion's source is itself pending. */
  lemma CompleteKeepsIff(cfg: Config, c: Cache, h: Handle, success: bool)
    requires Shaped(c) && InFlightOk(c) && h in c.inflight
    ensures CompleteOp(cfg, c, h, success).Ok?
    ensures InFlightOk(CompleteOp(cfg, c, h, success).value) <==> !(success && LosesSource(c, c.inflight[h]))
  {
    var p := c.inflight[h];
    assert Reserved(c.tree, h, p);
    var rest := c.inflight - {h};
    if success {
      var r := c.tree[p.node].res[p.dst].(state := Ready, handle := 0);
      var t1 := Attach(c.tree, p.node, p.dst, r);
      SettledAgrees(c.tree, c.inflight, h, t1);
      if !p.isPromote {
        if p.src != p.dst && PendingAt(c.tree, p.node, p.src) {
          var g := c.tree[p.node].res[p.src].handle;
          assert Claimed(c.tree, c.inflight, p.node, p.src);
          assert g in rest && !Reserved(Detach(t1, p.node, p.src), g, rest[g]);
        } else {
          DetachReadyAgrees(t1, rest, p.node, p.src);
        }
      }
    } else {
      SettledAgrees(c.tree, c.inflight, h, Detach(c.tree, p.node, p.dst));
      DetachKeeps(c.tree, p.node, p.dst);
      PruneAgrees(Detach(c.tree, p.node, p.dst), rest, p.node);
    }
  }

  /** Taking `h` off the table and its resource out of pending keeps the rest in agreement. */
  lemma SettledAgrees(t: Tree, table: map<Handle, PendingOp>, h: Handle, r: Tree)
    requires Agree(t, table) && h in table && r.Keys == t.Keys
    requires var p := table[h];
             && (forall n :: n in t && n != p.node ==> r[n] == t[n])
             && (forall u :: u != p.dst ==> (u in r[p.node].res <==> u in t[p.node].res))
             && (forall u :: u != p.dst && u in t[p.node].res ==> r[p.node].res[u] == t[p.node].res[u])
             && !PendingAt(r, p.node, p.dst)
    ensures Agree(r, table - {h})
  {
    var p := table[h];
    assert Reserved(t, h, p);
    forall g | g in table - {h} ensures Reserved(r, g, table[g]) {
      assert Reserved(t, g, table[g]);
    }
    forall m, v | PendingAt(r, m, v) ensures Claimed(r, table - {h}, m, v) {
      assert PendingAt(t, m, v);
      assert Claimed(t, table, m, v);
    }
  }

  // ---- splitting ---------------------------------------------------------------------------------

  /** The query leaves `n`'s segment part-way: a walk along it splits `n`. */
  ghost predicate LeavesInside(t: Tree, n: NodeId, q: seq<Page>) {
    && n in t && n != ROOT
    && |t[n].path| - |t[n].seg| < Shared(t[n].path, q) < |t[n].path|
  }

  /** A walk along `q` splits a node some operation is pending on. */
  ghost predicate SplitsPending(t: Tree, q: seq<Page>) {
    exists n, u :: LeavesInside(t, n, q) && PendingAt(t, n, u)
  }

  lemma SharedAtLeast(a: seq<Page>, q: seq<Page>, k: nat)
    requires k <= |a| && k <= |q| && a[..k] == q[..k]
    ensures k <= Shared(a, q)
  {
    var m := Shared(a, q);
    if m < k { AgreeAt(a, q, k, m); }
  }

  lemma AgreeAt(a: seq<Page>, q: seq<Page>, k: nat, m: nat)
    requires m < k <= |a| && k <= |q| && a[..k] == q[..k]
    ensures a[m] == q[m]
  {
    assert a[m] == a[..k][m] && q[m] == q[..k][m];
  }

  lemma SharedExactly(a: seq<Page>, q: seq<Page>, m: nat)
    requires m <= |a| && m <= |q| && a[..m] == q[..m] && (m < |a| && m < |q| ==> a[m] != q[m])
    ensures Shared(a, q) == m
  {
    SharedAtLeast(a, q, m);
    if m < Shared(a, q) { AgreeAt(a, q, Shared(a, q), m); }
  }

  /** How far a node's whole path agrees with the query, from how far its segment does. */
  lemma SharedAfter(base: seq<Page>, seg: seq<Page>, q: seq<Page>)
    requires base <= q
    ensures Shared(base + seg, q) == |base| + Shared(seg, q[|base|..])
  {
    var k := Shared(seg, q[|base|..]);
    assert q == base + q[|base|..];
    assert (base + seg)[..|base| + k] == base + seg[..k];
    assert q[..|base| + k] == base + q[|base|..][..k];
    SharedExactly(base + seg, q, |base| + k);
  }

  lemma SharedWithin(a: seq<Page>, b: seq<Page>, q: seq<Page>)
    requires a <= b && |a| <= Shared(b, q)
    ensures Shared(a, q) == |a|
  {
    assert a[..|a|] == b[..Shared(b, q)][..|a|] == q[..Shared(b, q)][..|a|] == q[..|a|];
    SharedAtLeast(a, q, |a|);
  }

  /** Splitting a node with a pending resource always breaks the agreement; any other split keeps it. */
  lemma SplitAgreesIff(t: Tree, table: map<Handle, PendingOp>, c: NodeId, k: nat, born: NodeId)
    requires WF(t) && Agree(t, table) && c in t && c != ROOT && born !in t && 0 < k < |t[c].seg|
    ensures ResourcesOk(t[c]) && Linked(t, c)
    ensures Agree(SplitNode(t, c, k, born), table) <==> !exists u :: PendingAt(t, c, u)
  {
    assert ResourcesOk(t[c]) && Linked(t, c);
    var r := SplitNode(t, c, k, born);
    if u :| PendingAt(t, c, u) {
      var h := t[c].res[u].handle;
      assert Claimed(t, table, c, u);
      assert Reserved(t, h, table[h]);
      assert !Reserved(r, h, table[h]);
    } else {
      forall h | h in table ensures Reserved(r, h, table[h]) { assert Reserved(t, h, table[h]); }
      forall m, v | PendingAt(r, m, v) ensures Claimed(r, table, m, v) {
        assert m == c || m == born ==> PendingAt(t, c, v);
        assert PendingAt(t, m, v);
        assert Claimed(t, table, m, v);
      }
    }
  }

  /** A node left part-way by the rest of the query is the child the walk steps to, and it stops there. */
  lemma LeftIsNext(w: Walk, q: seq<Page>, n: NodeId)
    requires WalkOk(w, q) && LeavesInside(w.tree, n, q)
    ensures |w.tree[n].path| - |w.tree[n].seg| >= w.consumed
    ensures CanStep(w, q)
  {
    var t := w.tree;
    assert Linked(t, n);
    var b := |t[n].path| - |t[n].seg|;
    var p := q[..b + 1];
    var sh := Shared(t[n].path, q);
    assert t[n].path[..sh] == q[..sh];
    assert p == t[n].path[..sh][..b + 1];
    assert Owns(t, n, p);
    if b < w.consumed {
      assert p <= t[w.cur].path;
      OwnerAbove(t, w.cur, n, p);
    } else if !CanStep(w, q) {
      NoOwnerBeyond(t, w.cur, p, n);
    }
  }

  /** The child stepped to is left part-way exactly when the step splits it, and is then the only one. */
  lemma StepSplits(w: Walk, q: seq<Page>)
    requires WalkOk(w, q) && CanStep(w, q)
    ensures var c := w.tree[w.cur].children[q[w.consumed]];
            && c in w.tree && c != ROOT && Linked(w.tree, c)
            && (LeavesInside(w.tree, c, q) <==> StepPages(w.tree[c], q, w.consumed) < |w.tree[c].seg|)
            && (LeavesInside(w.tree, c, q) ==> forall n :: LeavesInside(w.tree, n, q) ==> n == c)
  {
    StepChild(w, q);
    var c := w.tree[w.cur].children[q[w.consumed]];
    SharedAfter(w.tree[w.cur].path, w.tree[c].seg, q);
    forall n | LeavesInside(w.tree, c, q) && LeavesInside(w.tree, n, q) ensures n == c { LeftUnique(w, q, c, n); }
  }

  lemma LeftUnique(w: Walk, q: seq<Page>, c: NodeId, n: NodeId)
    requires WalkOk(w, q) && LeavesInside(w.tree, c, q) && LeavesInside(w.tree, n, q)
    requires |w.tree[c].path| - |w.tree[c].seg| == w.consumed
    ensures n == c
  {
    var t := w.tree;
    LeftIsNext(w, q, n);
    assert Linked(t, n) && Linked(t, c);
    var sc, sn := Shared(t[c].path, q), Shared(t[n].path, q);
    var p := q[..w.consumed + 1];
    assert t[c].path[..sc] == q[..sc] && t[n].path[..sn] == q[..sn];
    assert p == q[..sc][..w.consumed + 1] && p == q[..sn][..w.consumed + 1];
    assert p <= t[c].path && p <= t[n].path;
    assert Owns(t, c, p);
    OwnerAbove(t, n, c, p);
    if t[c].path == t[n].path {
      SamePath(t, c, n, |t[c].path| + 1);
    } else {
      var b := |t[n].path| - |t[n].seg|;
      if b < |t[c].path| {
        assert Owns(t, n, t[c].path) && Owns(t, c, t[c].path);
        OwnerUnique(t, n, c, t[c].path);
      } else {
        SharedWithin(t[c].path, t[n].path, q);
      }
    }
  }

  /** A walk that splits has arrived. */
  lemma SplitStops(w: Walk, q: seq<Page>)
    requires WalkOk(w, q) && CanStep(w, q)
    requires var c := w.tree[w.cur].children[q[w.consumed]];
             c in w.tree && 0 < StepPages(w.tree[c], q, w.consumed) < |w.tree[c].seg|
    ensures WalkOk(Step(w, q), q) && !CanStep(Step(w, q), q)
  {
    StepMoves(w, q);
    var c := w.tree[w.cur].children[q[w.consumed]];
    var nd, k := w.tree[c], StepPages(w.tree[c], q, w.consumed);
    var s := Step(w, q);
    assert s.tree[c].children.Keys == {nd.seg[k]};
    if s.consumed < |q| {
      assert nd.seg[k] != q[w.consumed..][k];
    }
  }

  /** A walk keeps the table and the tree in agreement exactly when it splits no pending node. */
  lemma {:induction false} RunAgreesIff(w: Walk, q: seq<Page>, table: map<Handle, PendingOp>)
    requires WalkOk(w, q) && Agree(w.tree, table)
    ensures Agree(Run(w, q).tree, table) <==> !SplitsPending(w.tree, q)
    decreases |q| - w.consumed
  {
    if CanStep(w, q) {
      StepMoves(w, q);
      StepSplits(w, q);
      var c := w.tree[w.cur].children[q[w.consumed]];
      var k := StepPages(w.tree[c], q, w.consumed);
      if k < |w.tree[c].seg| {
        SplitStops(w, q);
        SplitAgreesIff(w.tree, table, c, k, w.next);
        assert LeavesInside(w.tree, c, q);
      } else {
        RunAgreesIff(Step(w, q), q, table);
      }
    } else {
      forall n ensures !LeavesInside(w.tree, n, q) {
        if LeavesInside(w.tree, n, q) { LeftIsNext(w, q, n); }
      }
    }
  }

  lemma MatchKeepsIff(c: Cache, q: seq<Page>)
    requires Shaped(c) && InFlightOk(c)
    ensures InFlightOk(RadixCache.Match(c, q)) <==> !SplitsPending(c.tree, q)
  {
    AllTiers();
    RunAgreesIff(Start(c.tree, c.next), q, c.inflight);
  }

  /** A leaf of ready resources changes nothing about the agreement. */
  lemma AddLeafAgrees(t: Tree, base: NodeId, seg: seq<Page>, res: map<Tier, Resource>, born: NodeId, table: map<Handle, PendingOp>)
    requires base in t && born !in t && seg != [] && forall u :: u in res ==> res[u].state == Ready
    ensures Agree(AddLeaf(t, base, seg, res, born), table) ==> Agree(t, table)
    ensures Agree(t, table) ==> Agree(AddLeaf(t, base, seg, res, born), table)
  {
    var r := AddLeaf(t, base, seg, res, born);
    forall n, u ensures PendingAt(r, n, u) <==> PendingAt(t, n, u) {}
    if Agree(t, table) {
      forall h | h in table ensures Reserved(r, h, table[h]) { assert Reserved(t, h, table[h]); }
      forall n, u | PendingAt(r, n, u) ensures Claimed(r, table, n, u) {
        assert PendingAt(t, n, u);
        assert Claimed(t, table, n, u);
      }
    }
    if Agree(r, table) {
      forall h | h in table ensures Reserved(t, h, table[h]) { assert Reserved(r, h, table[h]); }
      forall n, u | PendingAt(t, n, u) ensures Claimed(t, table, n, u) {
        assert PendingAt(r, n, u);
        assert Claimed(r, table, n, u);
      }
    }
  }

  /** Insert, too, keeps the agreement exactly when its walk splits no pending node. */
  lemma InsertKeepsIff(cfg: Config, c: Cache, u: Tier, q: seq<Page>, ids: seq<UnitId>)
    requires Shaped(c) && InFlightOk(c) && Insert(cfg, c, u, q, ids).Ok?
    ensures InFlightOk(Insert(cfg, c, u, q, ids).value) <==> !SplitsPending(c.tree, q)
  {
    MatchKeepsIff(c, q);
    WalkFindsLongest(c.tree, c.next, q, u);
    var w := WalkTree(c.tree, c.next, q);
    InsertAtAgrees(w, u, q, ids, c.inflight);
  }

  lemma InsertAtAgrees(w: Walk, u: Tier, q: seq<Page>, ids: seq<UnitId>, table: map<Handle, PendingOp>)
    requires WalkOk(w, q) && |ids| == |q| && w.matched[u] <= |q| && w.last[u] in w.tree && InsertAt(w, u, q, ids).Inserted?
    ensures Agree(InsertAt(w, u, q, ids).tree, table) <==> Agree(w.tree, table)
  {
    if w.matched[u] < |q| {
      AddLeafAgrees(w.tree, w.last[u], q[w.matched[u]..], map[u := Resource(ids[w.matched[u]..], 0, Ready, 0)], w.next, table);
    }
  }

  // ---- failing everything ------------------------------------------------------------------------

  /** The loop of `fail_all_inflight` over a snapshot of the handles: the cache, and how many completed. A handle
      that is no longer known is passed over; None where the source would read a freed node. */
  function FailEach(cfg: Config, c: Cache, hs: seq<Handle>): Option<(Cache, nat)>
    requires Shaped(c)
    decreases |hs|
  {
    if hs == [] then Some((c, 0)) else
      match CompleteOp(cfg, c, hs[0], false)
      case Err(e) => if e == DanglingNode then None else FailEach(cfg, c, hs[1..])
      case Ok(c') =>
        CompleteShaped(cfg, c, hs[0], false);
        (match FailEach(cfg, c', hs[1..])
         case None => None
         case Some(r) => Some((r.0, r.1 + 1)))
  }

  /** The handles in flight, each once, in some order. */
  ghost predicate Lists(hs: seq<Handle>, table: map<Handle, PendingOp>) {
    (forall h :: h in hs <==> h in table) && forall i, j :: 0 <= i < j < |hs| ==> hs[i] != hs[j]
  }

  /** Whatever order the snapshot has, no freed node is read. */
  ghost predicate FailsSafely(cfg: Config, c: Cache)
    requires Shaped(c)
  {
    forall hs :: Lists(hs, c.inflight) ==> FailEach(cfg, c, hs).Some?
  }

  lemma FailTable(cfg: Config, c: Cache, h: Handle)
    requires Shaped(c) && CompleteOp(cfg, c, h, false).Ok?
    ensures CompleteOp(cfg, c, h, false).value.inflight == c.inflight - {h}
    ensures CompleteOp(cfg, c, h, false).value.pending == Settle(c, h).pending
    ensures CompleteOp(cfg, c, h, false).value.nextHandle == c.nextHandle
  {}

  lemma NoneInFlight(cfg: Config, c: Cache)
    requires Counted(cfg, c) && c.inflight == map[]
    ensures c.pending == PerTier(0, 0, 0, 0)
    ensures InFlightOk(c) ==> forall n, u :: !PendingAt(c.tree, n, u)
  {
    forall u: Tier ensures c.pending.At(u) == 0 {}
    assert c.pending.At(Device) == c.pending.At(Host) == c.pending.At(Disk) == c.pending.At(Remote) == 0;
    forall n, u | InFlightOk(c) ensures !PendingAt(c.tree, n, u) {}
  }

  lemma ListRest(hs: seq<Handle>, table: map<Handle, PendingOp>)
    requires Lists(hs, table) && hs != []
    ensures hs[0] in table && Lists(hs[1..], table - {hs[0]}) && |table| == 1 + |table - {hs[0]}|
  {
    var rest := table - {hs[0]};
    assert hs[0] in hs;
    assert rest.Keys == table.Keys - {hs[0]};
    forall g ensures g in hs[1..] <==> g in rest {
      if g in hs[1..] { assert g in hs; }
      if g in rest { assert g in hs; }
    }
  }

  lemma ListNone(table: map<Handle, PendingOp>)
    requires Lists([], table)
    ensures table == map[]
  {
    forall h ensures h !in table { assert h in [] <==> h in table; }
  }

  /** Failing every listed operation, in any order and from any state in which that is defined, empties the table,
      counts them all, and zeroes the counters. */
  lemma {:induction false} FailAllEmpties(cfg: Config, c: Cache, hs: seq<Handle>)
    requires Shaped(c) && Counted(cfg, c) && Lists(hs, c.inflight) && FailEach(cfg, c, hs).Some?
    ensures var r := FailEach(cfg, c, hs).value;
            && r.0.inflight == map[] && r.1 == |hs| == |c.inflight|
            && r.0.pending == PerTier(0, 0, 0, 0) && Shaped(r.0)
    decreases |hs|
  {
    hide WF, CompleteOp, PendingSum, Lists;
    if hs == [] {
      ListNone(c.inflight);
      NoneInFlight(cfg, c);
    } else {
      var h := hs[0];
      ListRest(hs, c.inflight);
      KnownCompletes(cfg, c, h);
      CompleteShaped(cfg, c, h, false);
      FailTable(cfg, c, h);
      SettleCounted(cfg, c, h);
      FailAllEmpties(cfg, CompleteOp(cfg, c, h, false).value, hs[1..]);
    }
  }

  lemma KnownCompletes(cfg: Config, c: Cache, h: Handle)
    requires Shaped(c) && h in c.inflight
    ensures CompleteOp(cfg, c, h, false).Ok? || CompleteOp(cfg, c, h, false) == Err(DanglingNode)
  {}

  /** With table and tree in agreement failing everything is defined, and nothing stays pending. */
  lemma {:induction false} FailAllDefined(cfg: Config, c: Cache, hs: seq<Handle>)
    requires Shaped(c) && InFlightOk(c) && Lists(hs, c.inflight)
    ensures var r := FailEach(cfg, c, hs); r.Some? && InFlightOk(r.value.0) && forall n, u :: !PendingAt(r.value.0.tree, n, u)
    decreases |hs|
  {
    hide WF, CompleteOp, Lists;
    if hs == [] {
      ListNone(c.inflight);
      forall n, u ensures !PendingAt(c.tree, n, u) {}
    } else {
      var h := hs[0];
      ListRest(hs, c.inflight);
      CompleteKeepsIff(cfg, c, h, false);
      CompleteShaped(cfg, c, h, false);
      FailTable(cfg, c, h);
      FailAllDefined(cfg, CompleteOp(cfg, c, h, false).value, hs[1..]);
    }
  }

  // ---- handles are used once ---------------------------------------------------------------------

  /** A handle that was issued and is no longer in flight. */
  predicate Retired(c: Cache, h: Handle) { h < c.nextHandle && h !in c.inflight }

  /** Completing retires the handle, and a second completion is refused. */
  lemma CompleteRetires(cfg: Config, c: Cache, h: Handle, success: bool, again: bool)
    requires Shaped(c) && InFlightOk(c) && CompleteOp(cfg, c, h, success).Ok?
    ensures var r := CompleteOp(cfg, c, h, success).value;
            && Shaped(r) && Retired(r, h) && CompleteOp(cfg, r, h, again) == Err(UnknownHandle)
            && (forall g :: Retired(c, g) ==> Retired(r, g))
  {
    CompleteShaped(cfg, c, h, success);
  }

  /** A new operation gets a handle never issued before, and revives none. */
  lemma StartIssues(cfg: Config, c: Cache, n: NodeId, src: Tier, dst: Tier, isPromote: bool)
    requires n in c.tree && StartOp(cfg, c, n, src, dst, isPromote).Ok? && forall h :: h in c.inflight ==> h < c.nextHandle
    ensures var r := StartOp(cfg, c, n, src, dst, isPromote).value;
            && r.inflight.Keys == c.inflight.Keys + {c.nextHandle} && c.nextHandle !in c.inflight
            && (forall g :: Retired(c, g) ==> Retired(r, g))
  {}
}
