/** The units collected along the chain of a node, and the pins that guard them, under each change of the tree. */
module RadixChains {
  import opened RadixPages
  import opened RadixTree
  import opened RadixWalk
  import opened RadixStore
  import opened RadixCache
  import opened RadixInflight
  import opened RadixPins

  // ---- what is collected -------------------------------------------------------------------------

  predicate SamePlace(x: Node, y: Node) {
    x.parent == y.parent && x.path == y.path
  }

  /** Trees that agree along the chain of `n` collect the same there. */
  lemma {:induction false} CollectSame(t: Tree, r: Tree, n: NodeId, u: Tier)
    requires WF(t) && WF(r) && n in t && n in r
    requires forall m :: m in t && m in r && OnChain(t, m, n) ==> SamePlace(t[m], r[m]) && NodeIds(t[m], u) == NodeIds(r[m], u)
    ensures Collect(r, n, u) == Collect(t, n, u)
    decreases |t[n].path|
  {
    hide NodeIds;
    assert OnChain(t, n, n);
    if n != ROOT {
      assert Linked(t, n) && Linked(r, n);
      var p := t[n].parent;
      assert t[p].path <= t[n].path;
      forall m | m in t && m in r && OnChain(t, m, p) ensures OnChain(t, m, n) { PrefixTrans(t[m].path, t[p].path, t[n].path); }
      CollectSame(t, r, p, u);
    }
  }

  /** A node on the chain of `n` other than `n` is on the chain of its parent. */
  lemma ChainParent(t: Tree, m: NodeId, n: NodeId)
    requires WF(t) && m in t && n in t && m != n && OnChain(t, m, n)
    ensures n != ROOT && Linked(t, n) && OnChain(t, m, t[n].parent)
  {
    if n == ROOT { SamePath(t, m, n, 1); }
    assert Linked(t, n);
    var p := t[n].parent;
    if |t[m].path| > |t[p].path| {
      assert m != ROOT && Linked(t, m);
      assert Owns(t, n, t[m].path) && Owns(t, m, t[m].path);
      OwnerUnique(t, n, m, t[m].path);
    }
    PrefixOf(t[m].path, t[p].path, t[n].path);
  }

  /** Changing the units of one node of the chain changes what is collected. */
  lemma {:induction false} CollectDiffers(t: Tree, r: Tree, n: NodeId, u: Tier, m: NodeId)
    requires WF(t) && WF(r) && r.Keys == t.Keys && m in t && n in t && m != ROOT && OnChain(t, m, n)
    requires forall x :: x in t ==> SamePlace(t[x], r[x]) && (x != m ==> NodeIds(t[x], u) == NodeIds(r[x], u))
    requires NodeIds(r[m], u) != NodeIds(t[m], u)
    ensures Collect(r, n, u) != Collect(t, n, u)
    decreases |t[n].path|
  {
    hide NodeIds;
    if n == m {
      assert Linked(t, n) && Linked(r, n);
      var p := t[n].parent;
      forall x | x in t && OnChain(t, x, p) ensures x != m { assert |t[p].path| < |t[n].path|; }
      CollectSame(t, r, p, u);
      TailsDiffer(Collect(t, p, u), NodeIds(t[m], u), NodeIds(r[m], u));
    } else {
      ChainParent(t, m, n);
      assert Linked(r, n);
      CollectDiffers(t, r, t[n].parent, u, m);
      HeadsDiffer(Collect(t, t[n].parent, u), Collect(r, t[n].parent, u), NodeIds(t[n], u));
    }
  }

  lemma TailsDiffer(a: seq<UnitId>, x: seq<UnitId>, y: seq<UnitId>)
    requires x != y
    ensures a + x != a + y
  {
    assert (a + x)[|a|..] == x && (a + y)[|a|..] == y;
  }

  lemma HeadsDiffer(a: seq<UnitId>, b: seq<UnitId>, x: seq<UnitId>)
    requires a != b
    ensures a + x != b + x
  {
    if |a| == |b| {
      var i :| 0 <= i < |a| && a[i] != b[i];
      assert (a + x)[i] == a[i] && (b + x)[i] == b[i];
    }
  }

  /** A split leaves what is collected at other nodes alone; at the node it cuts, the cut-off units are lost. */
  lemma {:induction false} CollectSplit(t: Tree, c: NodeId, k: nat, born: NodeId, n: NodeId, u: Tier)
    requires WF(t) && c in t && c != ROOT && born !in t && 0 < k < |t[c].seg| && n in t
    ensures ResourcesOk(t[c]) && Linked(t, c) && WF(SplitNode(t, c, k, born))
    ensures var r := SplitNode(t, c, k, born);
            && (n != c ==> Collect(r, n, u) == Collect(t, n, u))
            && (n == c ==> Collect(r, c, u) + (if u in t[c].res then t[c].res[u].ids[k..] else []) == Collect(t, c, u))
    decreases |t[n].path|
  {
    hide Collect;
    SplitKeeps(t, c, k, born);
    var r := SplitNode(t, c, k, born);
    CollectAtRoot(t, u);
    CollectAtRoot(r, u);
    if n != ROOT {
      assert Linked(t, n) && Linked(r, n);
      var p := t[n].parent;
      CollectStep(t, n, u);
      CollectStep(r, n, u);
      CollectSplit(t, c, k, born, p, u);
      if n == c {
        HalvesJoin(t, c, k, born, u, Collect(t, p, u));
      } else if p == c {
        CollectStep(r, born, u);
        SuffixIds(t, c, k, born, u);
      }
    }
  }

  lemma CollectAtRoot(t: Tree, u: Tier)
    requires WF(t)
    ensures Collect(t, ROOT, u) == []
  {}

  lemma CollectStep(t: Tree, n: NodeId, u: Tier)
    requires WF(t) && n in t && n != ROOT
    ensures Linked(t, n) && Collect(t, n, u) == Collect(t, t[n].parent, u) + NodeIds(t[n], u)
  {
    assert Linked(t, n);
  }

  lemma SuffixIds(t: Tree, c: NodeId, k: nat, born: NodeId, u: Tier)
    requires c in t && born !in t && 0 < k < |t[c].seg| <= |t[c].path| && ResourcesOk(t[c])
    ensures var r := SplitNode(t, c, k, born);
            && r[born].parent == c
            && NodeIds(r[born], u) == if u in t[c].res then t[c].res[u].ids[k..] else []
  {}

  lemma HalvesJoin(t: Tree, c: NodeId, k: nat, born: NodeId, u: Tier, a: seq<UnitId>)
    requires c in t && born !in t && 0 < k < |t[c].seg| <= |t[c].path| && ResourcesOk(t[c])
    ensures var r := SplitNode(t, c, k, born);
            && r[c].parent == t[c].parent
            && a + NodeIds(r[c], u) + (if u in t[c].res then t[c].res[u].ids[k..] else []) == a + NodeIds(t[c], u)
  {
    if u in t[c].res {
      var ids := t[c].res[u].ids;
      assert ids == ids[0..k] + ids[k..];
      assert a + ids[0..k] + ids[k..] == a + (ids[0..k] + ids[k..]);
    }
  }

  // ---- pins --------------------------------------------------------------------------------------

  /** A live `node_ref`. */
  datatype PinRef = PinRef(node: NodeId, tier: Tier)

  /** The pin raised the count of tier `u` at `m`. */
  predicate Covers(t: Tree, pin: PinRef, m: NodeId, u: Tier) {
    pin.tier == u && pin.node in t && m in t && OnChain(t, m, pin.node)
  }

  function Covering(t: Tree, pins: seq<PinRef>, m: NodeId, u: Tier): nat {
    if pins == [] then 0 else (if Covers(t, pins[0], m, u) then 1 else 0) + Covering(t, pins[1..], m, u)
  }

  /** Counts at `x` in `r` cover no more pins than those at `m` in `t`. */
  lemma {:induction false} CoveringLess(t: Tree, r: Tree, pins: seq<PinRef>, m: NodeId, x: NodeId, u: Tier)
    requires forall i :: 0 <= i < |pins| && Covers(r, pins[i], x, u) ==> Covers(t, pins[i], m, u)
    ensures Covering(r, pins, x, u) <= Covering(t, pins, m, u)
    decreases |pins|
  {
    hide Covers;
    if pins != [] {
      assert Covers(r, pins[0], x, u) ==> Covers(t, pins[0], m, u);
      forall i | 0 <= i < |pins[1..]| && Covers(r, pins[1..][i], x, u) ensures Covers(t, pins[1..][i], m, u) {
        assert pins[1..][i] == pins[i + 1];
      }
      CoveringLess(t, r, pins[1..], m, x, u);
    }
  }

  lemma {:induction false} CoveringAdd(t: Tree, pins: seq<PinRef>, pin: PinRef, m: NodeId, u: Tier)
    ensures Covering(t, pins + [pin], m, u) == Covering(t, pins, m, u) + (if Covers(t, pin, m, u) then 1 else 0)
    decreases |pins|
  {
    hide Covers;
    var more := pins + [pin];
    if pins == [] {
      assert more == [pin] && more[1..] == [];
    } else {
      assert more[0] == pins[0] && more[1..] == pins[1..] + [pin];
      CoveringAdd(t, pins[1..], pin, m, u);
    }
  }

  /** The list without its first `pin`. */
  function Released(pins: seq<PinRef>, pin: PinRef): (r: seq<PinRef>)
    ensures forall p :: p in r ==> p in pins
  {
    if pins == [] then [] else if pins[0] == pin then pins[1..] else [pins[0]] + Released(pins[1..], pin)
  }

  lemma {:induction false} CoveringReleased(t: Tree, pins: seq<PinRef>, pin: PinRef, m: NodeId, u: Tier)
    requires pin in pins
    ensures Covering(t, Released(pins, pin), m, u) + (if Covers(t, pin, m, u) then 1 else 0) == Covering(t, pins, m, u)
    decreases |pins|
  {
    hide Covers;
    if pins[0] != pin {
      CoveringReleased(t, pins[1..], pin, m, u);
      var r := Released(pins, pin);
      assert r[0] == pins[0] && r[1..] == Released(pins[1..], pin);
    }
  }

  /** On the chain of `n`, itself pinned on tier `u`, every resource of the tier counts that pin and every other
      one that covers it. */
  ghost predicate Guarded(t: Tree, others: seq<PinRef>, n: NodeId, u: Tier) {
    && n in t && n != ROOT && u in t[n].res
    && forall m :: m in t && OnChain(t, m, n) && u in t[m].res ==> GuardedAt(t, others, m, u)
  }

  predicate GuardedAt(t: Tree, others: seq<PinRef>, m: NodeId, u: Tier)
    requires m in t && u in t[m].res
  {
    1 + Covering(t, others, m, u) <= t[m].res[u].refs
  }

  ghost predicate PinsBelow(others: seq<PinRef>, next: NodeId) {
    forall i :: 0 <= i < |others| ==> others[i].node < next
  }

  /** Moving no node, and keeping the counts on the chain, keeps the guard. */
  lemma GuardSame(t: Tree, r: Tree, others: seq<PinRef>, n: NodeId, u: Tier)
    requires Guarded(t, others, n, u) && n in r && r.Keys <= t.Keys && forall m :: m in r ==> r[m].path == t[m].path
    requires forall m :: m in r && OnChain(t, m, n) ==>
               ((u in r[m].res <==> u in t[m].res) && (u in r[m].res ==> r[m].res[u].refs == t[m].res[u].refs))
    ensures Guarded(r, others, n, u)
  {
    hide Covering;
    assert OnChain(t, n, n);
    forall m | m in r && OnChain(r, m, n) && u in r[m].res ensures GuardedAt(r, others, m, u) {
      assert GuardedAt(t, others, m, u);
      CoveringLess(t, r, others, m, m, u);
    }
  }

  /** A split of another node keeps it, both halves of a node of the chain having its count. */
  lemma GuardSplit(t: Tree, c: NodeId, k: nat, born: NodeId, others: seq<PinRef>, n: NodeId, u: Tier)
    requires WF(t) && c in t && c != ROOT && born !in t && 0 < k < |t[c].seg| && c != n
    requires Guarded(t, others, n, u) && PinsBelow(others, born)
    ensures ResourcesOk(t[c]) && Linked(t, c) && Guarded(SplitNode(t, c, k, born), others, n, u)
  {
    hide WF, Linked, SplitNode, Covering, OnChain;
    SplitReady(t, c);
    SplitChain(t, c, k, born, n, c);
    var r := SplitNode(t, c, k, born);
    SplitHolds(t, c, k, born, u);
    forall m | m in r && OnChain(r, m, n) && u in r[m].res ensures GuardedAt(r, others, m, u) {
      var x := if m == born then c else m;
      SplitChain(t, c, k, born, n, x);
      assert GuardedAt(t, others, x, u);
      forall i | 0 <= i < |others| && Covers(r, others[i], m, u) ensures Covers(t, others[i], x, u) {
        SplitChain(t, c, k, born, others[i].node, x);
      }
      CoveringLess(t, r, others, x, m, u);
    }
  }

  /** Which nodes hold a tier after a split, and with what count. */
  lemma SplitHolds(t: Tree, c: NodeId, k: nat, born: NodeId, u: Tier)
    requires c in t && born !in t && 0 < k < |t[c].seg| <= |t[c].path| && ResourcesOk(t[c])
    ensures var r := SplitNode(t, c, k, born);
            && r.Keys == t.Keys + {born}
            && forall m :: m in r ==> var x := if m == born then c else m;
                 && (u in r[m].res <==> u in t[x].res)
                 && (u in r[m].res ==> r[m].res[u].refs == t[x].res[u].refs)
  {}

  /** So does a new leaf. */
  lemma GuardLeaf(t: Tree, base: NodeId, seg: seq<Page>, res: map<Tier, Resource>, born: NodeId, others: seq<PinRef>, n: NodeId, u: Tier)
    requires WF(t) && base in t && born !in t && seg != [] && seg[0] !in t[base].children
    requires Guarded(t, others, n, u) && PinsBelow(others, born)
    ensures Guarded(AddLeaf(t, base, seg, res, born), others, n, u)
  {
    hide WF, AddLeaf, Covering, OnChain;
    var r := AddLeaf(t, base, seg, res, born);
    LeafChain(t, base, seg, res, born, n, n);
    forall m | m in r && OnChain(r, m, n) && u in r[m].res ensures GuardedAt(r, others, m, u) {
      LeafChain(t, base, seg, res, born, n, if m == born then n else m);
      assert GuardedAt(t, others, m, u);
      forall i | 0 <= i < |others| && Covers(r, others[i], m, u) ensures Covers(t, others[i], m, u) {
        LeafChain(t, base, seg, res, born, others[i].node, m);
      }
      CoveringLess(t, r, others, m, m, u);
    }
  }

  /** A new leaf adds nothing to what other chains collect. */
  lemma CollectLeaf(t: Tree, base: NodeId, seg: seq<Page>, res: map<Tier, Resource>, born: NodeId, n: NodeId, u: Tier)
    requires WF(t) && base in t && born !in t && seg != [] && seg[0] !in t[base].children && n in t
    requires WF(AddLeaf(t, base, seg, res, born))
    ensures Collect(AddLeaf(t, base, seg, res, born), n, u) == Collect(t, n, u)
  {
    hide WF;
    CollectSame(t, AddLeaf(t, base, seg, res, born), n, u);
  }

  // ---- walks -------------------------------------------------------------------------------------

  /** A walk that does not cut the pinned node keeps the guard and what is collected. */
  lemma {:induction false} RunHolds(w: Walk, q: seq<Page>, others: seq<PinRef>, n: NodeId, u: Tier)
    requires WalkOk(w, q) && Guarded(w.tree, others, n, u) && PinsBelow(others, w.next) && !LeavesInside(w.tree, n, q)
    ensures var r := Run(w, q);
            && Guarded(r.tree, others, n, u) && PinsBelow(others, r.next)
            && Collect(r.tree, n, u) == Collect(w.tree, n, u)
    decreases |q| - w.consumed
  {
    hide WF, Guarded, Collect, LeavesInside;
    assert n in w.tree by { GuardHas(w.tree, others, n, u); }
    if CanStep(w, q) {
      StepMoves(w, q);
      StepSplits(w, q);
      var c := w.tree[w.cur].children[q[w.consumed]];
      var k := StepPages(w.tree[c], q, w.consumed);
      if k < |w.tree[c].seg| {
        SplitStops(w, q);
        GuardSplit(w.tree, c, k, w.next, others, n, u);
        CollectSplit(w.tree, c, k, w.next, n, u);
      } else {
        assert Step(w, q).tree == w.tree;
        RunHolds(Step(w, q), q, others, n, u);
      }
    }
  }

  lemma GuardHas(t: Tree, others: seq<PinRef>, n: NodeId, u: Tier)
    requires Guarded(t, others, n, u)
    ensures n in t && n != ROOT && u in t[n].res
  {}

  /** A walk that cuts it loses the units cut off. */
  lemma {:induction false} RunLoses(w: Walk, q: seq<Page>, n: NodeId, u: Tier)
    requires WalkOk(w, q) && CutsPinned(w.tree, n, u, q)
    ensures n in Run(w, q).tree && Collect(Run(w, q).tree, n, u) != Collect(w.tree, n, u)
    decreases |q| - w.consumed
  {
    hide WF, Collect;
    LeftIsNext(w, q, n);
    StepMoves(w, q);
    StepSplits(w, q);
    var c := w.tree[w.cur].children[q[w.consumed]];
    var k := StepPages(w.tree[c], q, w.consumed);
    if k < |w.tree[c].seg| {
      SplitStops(w, q);
      CollectSplit(w.tree, n, k, w.next, n, u);
      assert |w.tree[n].res[u].ids[k..]| > 0;
    } else {
      assert Step(w, q).tree == w.tree;
      RunLoses(Step(w, q), q, n, u);
    }
  }

  // ---- single resources, pruning, and other pins -------------------------------------------------

  /** Setting or clearing one resource elsewhere, or of another tier, or without touching ids and count. */
  lemma ChangeHolds(t: Tree, r: Tree, others: seq<PinRef>, n: NodeId, u: Tier, m: NodeId)
    requires WF(t) && WF(r) && Guarded(t, others, n, u) && r.Keys == t.Keys && m in t
    requires forall x :: x in t ==> SamePlace(t[x], r[x]) && (x != m ==> r[x].res == t[x].res)
    requires OnChain(t, m, n) ==> (u in r[m].res <==> u in t[m].res)
    requires OnChain(t, m, n) && u in t[m].res ==> r[m].res[u].ids == t[m].res[u].ids && r[m].res[u].refs == t[m].res[u].refs
    ensures Guarded(r, others, n, u) && Collect(r, n, u) == Collect(t, n, u)
  {
    hide WF, OnChain;
    GuardSame(t, r, others, n, u);
    CollectSame(t, r, n, u);
  }

  lemma {:induction false} PruneParents(t: Tree, x: NodeId)
    requires WF(t)
    ensures forall m :: m in Prune(t, x) ==> m in t && Prune(t, x)[m].parent == t[m].parent
    decreases |t|
  {
    if x in t && x != ROOT && Orphan(t[x]) {
      UnlinkKeeps(t, x);
      PruneParents(Unlink(t, x), t[x].parent);
    }
  }

  lemma PruneCollects(t: Tree, x: NodeId, n: NodeId, u: Tier)
    requires WF(t) && n in Prune(t, x)
    ensures n in t && Collect(Prune(t, x), n, u) == Collect(t, n, u)
  {
    hide WF, OnChain;
    PruneKeys(t, x);
    PruneParents(t, x);
    CollectSame(t, Prune(t, x), n, u);
  }

  lemma PruneHolds(t: Tree, x: NodeId, others: seq<PinRef>, n: NodeId, u: Tier)
    requires WF(t) && Guarded(t, others, n, u)
    ensures Guarded(Prune(t, x), others, n, u) && Collect(Prune(t, x), n, u) == Collect(t, n, u)
  {
    hide WF, OnChain;
    var r := Prune(t, x);
    PruneKeys(t, x);
    assert t[n].res != map[];
    GuardSame(t, r, others, n, u);
    PruneCollects(t, x, n, u);
  }

  /** A new pin raises the guard by what it covers. */
  lemma GuardPin(t: Tree, others: seq<PinRef>, x: NodeId, v: Tier, n: NodeId, u: Tier)
    requires Guarded(t, others, n, u) && x in t
    ensures Guarded(Pinned(t, x, v), others + [PinRef(x, v)], n, u)
  {
    hide Covering;
    var r, pin := Pinned(t, x, v), PinRef(x, v);
    forall m | m in r && OnChain(r, m, n) && u in r[m].res ensures GuardedAt(r, others + [pin], m, u) {
      assert GuardedAt(t, others, m, u);
      CoveringLess(t, r, others, m, m, u);
      CoveringAdd(r, others, pin, m, u);
    }
  }

  /** Releasing another pin lowers it by no more. */
  lemma GuardUnpin(t: Tree, others: seq<PinRef>, x: NodeId, v: Tier, n: NodeId, u: Tier)
    requires Guarded(t, others, n, u) && x in t && PinRef(x, v) in others
    ensures Guarded(Unpinned(t, x, v), Released(others, PinRef(x, v)), n, u)
  {
    hide Covering, Released;
    var r, pin := Unpinned(t, x, v), PinRef(x, v);
    forall m | m in r && OnChain(r, m, n) && u in r[m].res ensures GuardedAt(r, Released(others, pin), m, u) {
      assert GuardedAt(t, others, m, u);
      CoveringReleased(t, others, pin, m, u);
      CoveringLess(t, r, Released(others, pin), m, m, u);
    }
  }

  lemma PinCollects(t: Tree, x: NodeId, v: Tier, n: NodeId, u: Tier)
    requires WF(t) && n in t && x in t && WF(Pinned(t, x, v)) && WF(Unpinned(t, x, v))
    ensures Collect(Pinned(t, x, v), n, u) == Collect(t, n, u) == Collect(Unpinned(t, x, v), n, u)
  {
    hide WF, Pinned, Unpinned, OnChain;
    PinTwin(t, x, v);
    forall m | m in t ensures TwinNode(t[m], Pinned(t, x, v)[m]) && TwinNode(t[m], Unpinned(t, x, v)[m]) {}
    CollectSame(t, Pinned(t, x, v), n, u);
    CollectSame(t, Unpinned(t, x, v), n, u);
  }

  /** Pinning a node that holds the tier guards it, if the counts covered the pins there were. */
  lemma PinGuards(t: Tree, others: seq<PinRef>, n: NodeId, u: Tier)
    requires n in t && n != ROOT && u in t[n].res
    requires forall m :: m in t && OnChain(t, m, n) && u in t[m].res ==> Covering(t, others, m, u) <= t[m].res[u].refs
    ensures Guarded(Pinned(t, n, u), others, n, u)
  {
    hide Covering;
    var r := Pinned(t, n, u);
    forall m | m in r && OnChain(r, m, n) && u in r[m].res ensures GuardedAt(r, others, m, u) {
      CoveringLess(t, r, others, m, m, u);
    }
  }
}
