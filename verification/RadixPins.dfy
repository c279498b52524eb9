/** `node_ref`: pins along the parent chain of a node, and what walks and inserts in between do to them. */
module RadixPins {
  import opened RadixPages
  import opened RadixTree
  import opened RadixUnits
  import opened RadixSlots
  import opened RadixWalk
  import opened RadixStore
  import opened RadixCache
  import opened RadixInflight

  // ---- raising and lowering ----------------------------------------------------------------------

  /** One resource on the way: `lock`, or `unlock` where that does not underflow. */
  function Adjust(r: Resource, lock: bool): Resource {
    if lock then r.(refs := r.refs + 1) else if r.refs > 0 then r.(refs := r.refs - 1) else r
  }

  function Touched(nd: Node, u: Tier, lock: bool): Node {
    if u in nd.res then nd.(res := nd.res[u := Adjust(nd.res[u], lock)]) else nd
  }

  /** `m` lies on the chain of parents from `n` to the root: its path is a prefix of `n`'s. */
  predicate OnChain(t: Tree, m: NodeId, n: NodeId)
    requires m in t && n in t
  {
    t[m].path <= t[n].path
  }

  /** Every resource of tier `u` on the chain of `n` is adjusted. */
  function Repinned(t: Tree, n: NodeId, u: Tier, lock: bool): Tree
    requires n in t
  {
    map m | m in t :: if OnChain(t, m, n) then Touched(t[m], u, lock) else t[m]
  }

  function Pinned(t: Tree, n: NodeId, u: Tier): Tree
    requires n in t
  {
    Repinned(t, n, u, true)
  }

  function Unpinned(t: Tree, n: NodeId, u: Tier): Tree
    requires n in t
  {
    Repinned(t, n, u, false)
  }

  /** Releasing a pin at once undoes it. */
  lemma UnpinPin(t: Tree, n: NodeId, u: Tier)
    requires n in t
    ensures Unpinned(Pinned(t, n, u), n, u) == t
  {
    hide OnChain, Touched;
    var p := Pinned(t, n, u);
    var r := Unpinned(p, n, u);
    forall m | m in t ensures r[m] == t[m] {
      PinChain(t, n, u, m);
      TouchedBack(t[m], u);
    }
    assert r.Keys == t.Keys;
  }

  lemma TouchedBack(nd: Node, u: Tier)
    ensures Touched(Touched(nd, u, true), u, false) == nd
  {
    if u in nd.res { assert Touched(Touched(nd, u, true), u, false).res == nd.res; }
  }

  /** Pinning moves no node. */
  lemma PinChain(t: Tree, n: NodeId, u: Tier, m: NodeId)
    requires n in t && m in t
    ensures OnChain(Pinned(t, n, u), m, n) <==> OnChain(t, m, n)
  {}

  // ---- trees that differ in their reference counts alone -----------------------------------------

  ghost predicate TwinNode(x: Node, y: Node) {
    && x.parent == y.parent && x.path == y.path && x.seg == y.seg && x.children == y.children
    && x.res.Keys == y.res.Keys && forall v :: v in x.res ==> y.res[v] == x.res[v].(refs := y.res[v].refs)
  }

  ghost predicate Twin(a: Tree, b: Tree) {
    a.Keys == b.Keys && forall n :: n in a ==> TwinNode(a[n], b[n])
  }

  lemma PinTwin(t: Tree, n: NodeId, u: Tier)
    requires n in t
    ensures Twin(t, Pinned(t, n, u)) && Twin(t, Unpinned(t, n, u))
  {
    hide Repinned, Twin;
    RepinTwin(t, n, u, true);
    RepinTwin(t, n, u, false);
  }

  lemma RepinTwin(t: Tree, n: NodeId, u: Tier, lock: bool)
    requires n in t
    ensures Twin(t, Repinned(t, n, u, lock))
  {
    hide OnChain;
  }

  lemma TwinWF(a: Tree, b: Tree)
    requires WF(a) && Twin(a, b)
    ensures WF(b)
  {
    forall n | n in b ensures ChildrenOk(b, n) && ResourcesOk(b[n]) && (n != ROOT ==> Linked(b, n)) {
      assert ChildrenOk(a, n) && ResourcesOk(a[n]) && (n != ROOT ==> Linked(a, n));
      assert TwinNode(a[n], b[n]);
    }
    assert TwinNode(a[ROOT], b[ROOT]);
  }

  lemma TwinSplit(a: Tree, b: Tree, c: NodeId, k: nat, born: NodeId)
    requires WF(a) && Twin(a, b) && c in a && c != ROOT && born !in a && 0 < k < |a[c].seg|
    ensures ResourcesOk(a[c]) && Linked(a, c) && WF(b) && c in b && ResourcesOk(b[c]) && Linked(b, c)
    ensures born !in b && |b[c].seg| == |a[c].seg| <= |a[c].path| && |b[c].seg| <= |b[c].path|
    ensures Twin(SplitNode(a, c, k, born), SplitNode(b, c, k, born))
  {
    TwinWF(a, b);
    assert ResourcesOk(a[c]) && Linked(a, c) && ResourcesOk(b[c]) && Linked(b, c);
    assert TwinNode(a[c], b[c]);
    var r, s := SplitNode(a, c, k, born), SplitNode(b, c, k, born);
    forall n | n in r ensures TwinNode(r[n], s[n]) {
      if n != born { assert TwinNode(a[n], b[n]); }
    }
  }

  lemma TwinWalk(w: Walk, p: Tree, q: seq<Page>)
    requires WalkOk(w, q) && Twin(w.tree, p)
    ensures WalkOk(w.(tree := p), q)
  {
    hide WF;
    TwinWF(w.tree, p);
    assert TwinNode(w.tree[w.cur], p[w.cur]);
  }

  lemma TwinStepTree(a: Tree, b: Tree, c: NodeId, k: nat, next: NodeId)
    requires WF(a) && WF(b) && Below(a, next) && Twin(a, b) && c in a && c != ROOT && TwinNode(a[c], b[c]) && 0 < k <= |a[c].seg|
    ensures var r, s := StepTree(a, c, k, next), StepTree(b, c, k, next);
            Twin(r, s) && forall v: Tier :: ReadyAt(r, c, v) <==> ReadyAt(s, c, v)
  {
    if k < |a[c].seg| { TwinSplit(a, b, c, k, next); }
    var r, s := StepTree(a, c, k, next), StepTree(b, c, k, next);
    forall v: Tier ensures ReadyAt(r, c, v) <==> ReadyAt(s, c, v) { assert c in r ==> TwinNode(r[c], s[c]); }
  }

  /** A step does not look at the counts. */
  lemma TwinStep(w: Walk, p: Tree, q: seq<Page>)
    requires WalkOk(w, q) && Twin(w.tree, p)
    ensures var v := w.(tree := p);
            && WalkOk(v, q) && (CanStep(v, q) <==> CanStep(w, q))
            && (CanStep(w, q) ==> Step(v, q) == Step(w, q).(tree := Step(v, q).tree) && Twin(Step(w, q).tree, Step(v, q).tree))
  {
    hide WF, StepTree, ReadyAt;
    TwinWF(w.tree, p);
    assert TwinNode(w.tree[w.cur], p[w.cur]);
    if CanStep(w, q) {
      StepChild(w, q);
      var c := w.tree[w.cur].children[q[w.consumed]];
      var k := StepPages(w.tree[c], q, w.consumed);
      assert TwinNode(w.tree[c], p[c]);
      TwinStepTree(w.tree, p, c, k, w.next);
    }
  }

  /** Counts touch neither units nor operations in flight. */
  lemma TwinUnits(a: Tree, b: Tree, v: Tier)
    requires Twin(a, b)
    ensures TreeUnits(a, v) == TreeUnits(b, v)
  {
    forall n | n in a ensures NodeUnits(a[n], v) == NodeUnits(b[n], v) { assert TwinNode(a[n], b[n]); }
    SumSame(a, b, a.Keys, v);
  }

  lemma TwinAgrees(a: Tree, b: Tree, table: map<Handle, PendingOp>)
    requires Twin(a, b) && Agree(a, table)
    ensures Agree(b, table)
  {
    forall h | h in table ensures Reserved(b, h, table[h]) {
      assert Reserved(a, h, table[h]);
      assert TwinNode(a[table[h].node], b[table[h].node]);
    }
    forall m, v | PendingAt(b, m, v) ensures Claimed(b, table, m, v) {
      assert TwinNode(a[m], b[m]);
      assert PendingAt(a, m, v);
      assert Claimed(a, table, m, v);
    }
  }

  // ---- splits and pins ---------------------------------------------------------------------------

  /** A node stays on the chain, or off it, when another node is split: the prefix half and the suffix half of
      a node on the chain are both on it. The pinned node itself keeps only its prefix half. */
  lemma SplitChain(t: Tree, c: NodeId, k: nat, born: NodeId, n: NodeId, m: NodeId)
    requires WF(t) && c in t && c != ROOT && born !in t && 0 < k < |t[c].seg| && n in t && m in t
    ensures ResourcesOk(t[c]) && Linked(t, c)
    ensures var r := SplitNode(t, c, k, born);
            && r.Keys == t.Keys + {born}
            && (OnChain(r, m, n) <==> OnChain(t, m, n))
            && (OnChain(r, born, n) <==> c != n && OnChain(t, c, n))
  {
    assert ResourcesOk(t[c]) && Linked(t, c);
    var r := SplitNode(t, c, k, born);
    var b := |t[c].path| - |t[c].seg|;
    var head := t[c].path[..b + k];
    assert head <= t[c].path && Owns(t, c, head);
    if head <= t[n].path { OwnerAbove(t, n, c, head); }
    if c == n && m != n && t[m].path <= t[n].path {
      if m != ROOT && |t[m].path| > b {
        assert Linked(t, m);
        assert Owns(t, n, t[m].path) && Owns(t, m, t[m].path);
        OwnerUnique(t, n, m, t[m].path);
      }
      PrefixOf(t[m].path, head, t[n].path);
    }
  }

  /** Unless it cuts the pinned node's own resource, a split commutes with pinning. */
  lemma SplitPinned(t: Tree, c: NodeId, k: nat, born: NodeId, n: NodeId, u: Tier)
    requires WF(t) && c in t && c != ROOT && born !in t && 0 < k < |t[c].seg| && n in t && (c == n ==> u !in t[n].res)
    ensures ResourcesOk(t[c]) && Linked(t, c) && WF(Pinned(t, n, u))
    ensures var p := Pinned(t, n, u);
            && ResourcesOk(p[c]) && Linked(p, c)
            && SplitNode(p, c, k, born) == Pinned(SplitNode(t, c, k, born), n, u)
  {
    hide WF, Linked, OnChain, Touched, Twin;
    var p := Pinned(t, n, u);
    PinTwin(t, n, u);
    TwinSplit(t, p, c, k, born);
    var a, b := SplitNode(p, c, k, born), Pinned(SplitNode(t, c, k, born), n, u);
    SplitPinnedHalves(t, c, k, born, n, u);
    forall m | m in a ensures a[m] == b[m] {
      if m != born && m != c { SplitPinnedAt(t, c, k, born, n, u, m); }
    }
  }

  /** A node other than the one split. */
  lemma SplitPinnedAt(t: Tree, c: NodeId, k: nat, born: NodeId, n: NodeId, u: Tier, m: NodeId)
    requires WF(t) && c in t && c != ROOT && born !in t && 0 < k < |t[c].seg| && n in t
    requires ResourcesOk(t[c]) && Linked(t, c) && m in t && m != c
    requires var p := Pinned(t, n, u); ResourcesOk(p[c]) && Linked(p, c)
    ensures SplitNode(Pinned(t, n, u), c, k, born)[m] == Pinned(SplitNode(t, c, k, born), n, u)[m]
  {
    hide WF, ResourcesOk, OnChain;
    SplitChain(t, c, k, born, n, m);
  }

  /** One half of a cut node. */
  function Half(res: map<Tier, Resource>, from: nat, to: nat): map<Tier, Resource>
    requires from <= to && forall v :: v in res ==> to <= |res[v].ids|
  {
    map v | v in res :: Cut(res[v], from, to)
  }

  function Head(nd: Node, k: nat, born: NodeId): Node
    requires 0 < k < |nd.seg| <= |nd.path| && ResourcesOk(nd)
  {
    Node(nd.parent, nd.path[..|nd.path| - |nd.seg| + k], nd.seg[..k], map[nd.seg[k] := born], Half(nd.res, 0, k))
  }

  function Tail(nd: Node, k: nat, c: NodeId): Node
    requires 0 < k < |nd.seg| <= |nd.path| && ResourcesOk(nd)
  {
    Node(c, nd.path, nd.seg[k..], nd.children, Half(nd.res, k, |nd.seg|))
  }

  lemma SplitHalves(t: Tree, c: NodeId, k: nat, born: NodeId)
    requires c in t && born !in t && 0 < k < |t[c].seg| <= |t[c].path| && ResourcesOk(t[c])
    ensures var r := SplitNode(t, c, k, born); r[c] == Head(t[c], k, born) && r[born] == Tail(t[c], k, c)
  {}

  lemma HalvesTouched(nd: Node, u: Tier, k: nat, c: NodeId, born: NodeId)
    requires 0 < k < |nd.seg| <= |nd.path| && ResourcesOk(nd) && ResourcesOk(Touched(nd, u, true))
    ensures Head(Touched(nd, u, true), k, born) == Touched(Head(nd, k, born), u, true)
    ensures Tail(Touched(nd, u, true), k, c) == Touched(Tail(nd, k, c), u, true)
    ensures u !in nd.res ==> u !in Head(nd, k, born).res && u !in Tail(nd, k, c).res
  {
    hide Half;
    if u in nd.res {
      HalfAdjusted(nd.res, u, 0, k);
      HalfAdjusted(nd.res, u, k, |nd.seg|);
    } else {
      assert u !in Half(nd.res, 0, k) && u !in Half(nd.res, k, |nd.seg|) by { HalfKeys(nd.res, 0, k); HalfKeys(nd.res, k, |nd.seg|); }
    }
  }

  lemma HalfKeys(res: map<Tier, Resource>, from: nat, to: nat)
    requires from <= to && forall v :: v in res ==> to <= |res[v].ids|
    ensures Half(res, from, to).Keys == res.Keys
  {}

  lemma HalfAdjusted(res: map<Tier, Resource>, u: Tier, from: nat, to: nat)
    requires from <= to && (forall v :: v in res ==> to <= |res[v].ids|) && u in res
    ensures u in Half(res, from, to)
    ensures Half(res[u := Adjust(res[u], true)], from, to) == Half(res, from, to)[u := Adjust(Half(res, from, to)[u], true)]
  {
    var a, b := Half(res[u := Adjust(res[u], true)], from, to), Half(res, from, to)[u := Adjust(Half(res, from, to)[u], true)];
    assert a.Keys == b.Keys;
    assert forall v :: v in a ==> a[v] == b[v];
  }

  /** The two halves of the node split. */
  lemma SplitPinnedHalves(t: Tree, c: NodeId, k: nat, born: NodeId, n: NodeId, u: Tier)
    requires WF(t) && c in t && c != ROOT && born !in t && 0 < k < |t[c].seg| && n in t && (c == n ==> u !in t[n].res)
    requires ResourcesOk(t[c]) && Linked(t, c)
    requires var p := Pinned(t, n, u); ResourcesOk(p[c]) && Linked(p, c)
    ensures var a, b := SplitNode(Pinned(t, n, u), c, k, born), Pinned(SplitNode(t, c, k, born), n, u);
            a[born] == b[born] && a[c] == b[c]
  {
    hide WF, ResourcesOk, OnChain, SplitNode, Head, Tail;
    var p := Pinned(t, n, u);
    SplitChain(t, c, k, born, n, c);
    SplitHalves(t, c, k, born);
    SplitHalves(p, c, k, born);
    if OnChain(t, c, n) { HalvesTouched(t[c], u, k, c, born); }
  }

  // ---- walks and pins ----------------------------------------------------------------------------

  /** A walk along `q` cuts the pinned resource in two. */
  ghost predicate CutsPinned(t: Tree, n: NodeId, u: Tier, q: seq<Page>) {
    LeavesInside(t, n, q) && u in t[n].res
  }

  /** Somewhere off the chain of `n` the pinned tree `p` counts more than `t`: releasing the pin does not
      reach it. */
  ghost predicate Leaked(t: Tree, p: Tree, n: NodeId, u: Tier) {
    Twin(t, p) && n in t && exists m :: LeakedAt(t, p, n, u, m)
  }

  ghost predicate LeakedAt(t: Tree, p: Tree, n: NodeId, u: Tier, m: NodeId)
    requires n in t
  {
    m in t && m in p && !OnChain(t, m, n) && u in t[m].res && u in p[m].res && t[m].res[u].refs < p[m].res[u].refs
  }

  lemma LeakStays(t: Tree, p: Tree, n: NodeId, u: Tier)
    requires Leaked(t, p, n, u)
    ensures n in p && Unpinned(p, n, u) != t
  {
    var m :| LeakedAt(t, p, n, u, m);
    assert TwinNode(t[m], p[m]) && TwinNode(t[n], p[n]);
    assert Unpinned(p, n, u)[m] == p[m];
  }

  lemma SplitRefs(t: Tree, c: NodeId, k: nat, born: NodeId, m: NodeId, u: Tier)
    requires c in t && born !in t && 0 < k < |t[c].seg| <= |t[c].path| && ResourcesOk(t[c]) && m in t && u in t[m].res
    ensures var r := SplitNode(t, c, k, born); m in r && u in r[m].res && r[m].res[u].refs == t[m].res[u].refs
  {}

  /** Splitting on does not repair a leak. */
  lemma LeakSplit(t: Tree, p: Tree, c: NodeId, k: nat, born: NodeId, n: NodeId, u: Tier)
    requires WF(t) && Leaked(t, p, n, u) && c in t && c != ROOT && born !in t && 0 < k < |t[c].seg|
    ensures ResourcesOk(t[c]) && Linked(t, c) && WF(p) && ResourcesOk(p[c]) && Linked(p, c)
    ensures Leaked(SplitNode(t, c, k, born), SplitNode(p, c, k, born), n, u)
  {
    hide WF, Twin, OnChain, Linked, SplitNode;
    TwinSplit(t, p, c, k, born);
    var m :| LeakedAt(t, p, n, u, m);
    SplitChain(t, c, k, born, n, m);
    SplitRefs(t, c, k, born, m, u);
    SplitRefs(p, c, k, born, m, u);
    assert LeakedAt(SplitNode(t, c, k, born), SplitNode(p, c, k, born), n, u, m);
  }

  /** Cutting the pinned resource itself is a leak: the half that goes to the new node keeps the count. */
  lemma SplitLeaks(t: Tree, k: nat, born: NodeId, n: NodeId, u: Tier)
    requires WF(t) && n in t && n != ROOT && born !in t && 0 < k < |t[n].seg| && u in t[n].res
    ensures ResourcesOk(t[n]) && Linked(t, n) && WF(Pinned(t, n, u))
    ensures var p := Pinned(t, n, u); ResourcesOk(p[n]) && Linked(p, n)
    ensures Leaked(SplitNode(t, n, k, born), SplitNode(Pinned(t, n, u), n, k, born), n, u)
  {
    var p := Pinned(t, n, u);
    PinTwin(t, n, u);
    TwinSplit(t, p, n, k, born);
    SplitChain(t, n, k, born, n, n);
    assert LeakedAt(SplitNode(t, n, k, born), SplitNode(p, n, k, born), n, u, born);
  }

  /** A walk in the pinned tree is the same walk, pinned, unless it cuts the pinned resource. */
  lemma {:induction false} RunPinned(w: Walk, q: seq<Page>, n: NodeId, u: Tier)
    requires WalkOk(w, q) && n in w.tree && !CutsPinned(w.tree, n, u, q)
    ensures var v := w.(tree := Pinned(w.tree, n, u)); var r := Run(w, q);
            WalkOk(v, q) && n in r.tree && Run(v, q) == r.(tree := Pinned(r.tree, n, u))
    decreases |q| - w.consumed
  {
    hide WF, Pinned, Twin;
    var p := Pinned(w.tree, n, u);
    PinTwin(w.tree, n, u);
    TwinStep(w, p, q);
    if CanStep(w, q) {
      StepMoves(w, q);
      StepSplits(w, q);
      var c := w.tree[w.cur].children[q[w.consumed]];
      var k := StepPages(w.tree[c], q, w.consumed);
      if k < |w.tree[c].seg| {
        SplitStops(w, q);
        SplitPinned(w.tree, c, k, w.next, n, u);
        TwinStops(w, p, q);
      } else {
        assert Step(w, q).tree == w.tree;
        RunPinned(Step(w, q), q, n, u);
      }
    }
  }

  /** Where one walk has arrived after a step, so has its twin. */
  lemma TwinStops(w: Walk, p: Tree, q: seq<Page>)
    requires WalkOk(w, q) && Twin(w.tree, p) && CanStep(w, q) && WalkOk(Step(w, q), q) && !CanStep(Step(w, q), q)
    ensures WalkOk(w.(tree := p), q) && CanStep(w.(tree := p), q) && WalkOk(Step(w.(tree := p), q), q)
    ensures Run(w.(tree := p), q) == Step(w.(tree := p), q)
  {
    hide WF, Step, Twin;
    TwinStep(w, p, q);
    TwinStep(Step(w, q), Step(w.(tree := p), q).tree, q);
    StepMoves(w.(tree := p), q);
  }

  lemma {:induction false} RunTwin(w: Walk, p: Tree, q: seq<Page>)
    requires WalkOk(w, q) && Twin(w.tree, p)
    ensures WalkOk(w.(tree := p), q)
    ensures var r, s := Run(w, q), Run(w.(tree := p), q); s == r.(tree := s.tree) && Twin(r.tree, s.tree)
    decreases |q| - w.consumed
  {
    hide WF, Step, Twin;
    TwinStep(w, p, q);
    if CanStep(w, q) {
      StepMoves(w, q);
      RunTwin(Step(w, q), Step(w.(tree := p), q).tree, q);
    }
  }

  lemma StepLeaked(w: Walk, p: Tree, q: seq<Page>, n: NodeId, u: Tier)
    requires WalkOk(w, q) && CanStep(w, q) && Leaked(w.tree, p, n, u)
    ensures WalkOk(w.(tree := p), q) && CanStep(w.(tree := p), q)
    ensures Leaked(Step(w, q).tree, Step(w.(tree := p), q).tree, n, u)
  {
    hide WF, LeakedAt;
    TwinStep(w, p, q);
    StepChild(w, q);
    var c := w.tree[w.cur].children[q[w.consumed]];
    var k := StepPages(w.tree[c], q, w.consumed);
    assert TwinNode(w.tree[w.cur], p[w.cur]) && TwinNode(w.tree[c], p[c]);
    if k < |w.tree[c].seg| { LeakSplit(w.tree, p, c, k, w.next, n, u); }
  }

  /** Walks in a leaking tree go on as in the other, and the leak stays. */
  lemma {:induction false} RunLeaked(w: Walk, p: Tree, q: seq<Page>, n: NodeId, u: Tier)
    requires WalkOk(w, q) && Leaked(w.tree, p, n, u)
    ensures WalkOk(w.(tree := p), q) && Leaked(Run(w, q).tree, Run(w.(tree := p), q).tree, n, u)
    decreases |q| - w.consumed
  {
    hide WF, Step, Twin, LeakedAt;
    TwinStep(w, p, q);
    if CanStep(w, q) {
      StepMoves(w, q);
      StepLeaked(w, p, q, n, u);
      RunLeaked(Step(w, q), Step(w.(tree := p), q).tree, q, n, u);
    }
  }

  /** A walk that cuts the pinned resource leaks. */
  lemma {:induction false} RunCuts(w: Walk, q: seq<Page>, n: NodeId, u: Tier)
    requires WalkOk(w, q) && CutsPinned(w.tree, n, u, q)
    ensures WalkOk(w.(tree := Pinned(w.tree, n, u)), q)
    ensures Leaked(Run(w, q).tree, Run(w.(tree := Pinned(w.tree, n, u)), q).tree, n, u)
    decreases |q| - w.consumed
  {
    hide WF, Pinned, Twin, LeakedAt;
    var p := Pinned(w.tree, n, u);
    PinTwin(w.tree, n, u);
    TwinStep(w, p, q);
    LeftIsNext(w, q, n);
    StepMoves(w, q);
    StepSplits(w, q);
    var c := w.tree[w.cur].children[q[w.consumed]];
    var k := StepPages(w.tree[c], q, w.consumed);
    if k < |w.tree[c].seg| {
      SplitLeaks(w.tree, k, w.next, n, u);
      SplitStops(w, q);
      TwinStops(w, p, q);
    } else {
      assert Step(w, q).tree == w.tree;
      RunCuts(Step(w, q), q, n, u);
    }
  }

  // ---- inserts and pins --------------------------------------------------------------------------

  /** A new leaf is on no chain but its own. */
  lemma LeafChain(t: Tree, base: NodeId, seg: seq<Page>, res: map<Tier, Resource>, born: NodeId, n: NodeId, m: NodeId)
    requires WF(t) && base in t && born !in t && seg != [] && seg[0] !in t[base].children && n in t && m in t
    ensures var r := AddLeaf(t, base, seg, res, born);
            && r.Keys == t.Keys + {born} && !OnChain(r, born, n) && (OnChain(r, m, n) <==> OnChain(t, m, n))
            && r[m].res == t[m].res
  {
    var full := t[base].path + seg;
    if full <= t[n].path {
      assert t[base].path <= full && full[|t[base].path|] == seg[0];
      PrefixTrans(t[base].path, full, t[n].path);
      var c := ChildToward(t, base, n);
    }
  }

  lemma AddLeafPinned(t: Tree, base: NodeId, seg: seq<Page>, res: map<Tier, Resource>, born: NodeId, n: NodeId, u: Tier)
    requires WF(t) && base in t && born !in t && seg != [] && seg[0] !in t[base].children && n in t
    ensures AddLeaf(Pinned(t, n, u), base, seg, res, born) == Pinned(AddLeaf(t, base, seg, res, born), n, u)
  {
    hide WF, OnChain;
    var p := Pinned(t, n, u);
    var a, b := AddLeaf(p, base, seg, res, born), Pinned(AddLeaf(t, base, seg, res, born), n, u);
    LeafChain(t, base, seg, res, born, n, n);
    forall m | m in a ensures a[m] == b[m] {
      if m != born { LeafChain(t, base, seg, res, born, n, m); }
    }
  }

  lemma AddLeafTwin(t: Tree, p: Tree, base: NodeId, seg: seq<Page>, res: map<Tier, Resource>, born: NodeId)
    requires Twin(t, p) && base in t && born !in t && seg != []
    ensures base in p && Twin(AddLeaf(t, base, seg, res, born), AddLeaf(p, base, seg, res, born))
    ensures forall m :: m in p ==> AddLeaf(p, base, seg, res, born)[m].res == p[m].res
  {
    var r, s := AddLeaf(t, base, seg, res, born), AddLeaf(p, base, seg, res, born);
    assert TwinNode(t[base], p[base]);
    forall m | m in r ensures TwinNode(r[m], s[m]) {
      if m != born { assert TwinNode(t[m], p[m]); }
    }
  }

  lemma AddLeafLeaked(t: Tree, p: Tree, base: NodeId, seg: seq<Page>, res: map<Tier, Resource>, born: NodeId, n: NodeId, u: Tier)
    requires WF(t) && Leaked(t, p, n, u) && base in t && born !in t && seg != [] && seg[0] !in t[base].children
    ensures base in p && Leaked(AddLeaf(t, base, seg, res, born), AddLeaf(p, base, seg, res, born), n, u)
  {
    hide WF, OnChain, Twin, AddLeaf;
    AddLeafTwin(t, p, base, seg, res, born);
    var r, s := AddLeaf(t, base, seg, res, born), AddLeaf(p, base, seg, res, born);
    var m :| LeakedAt(t, p, n, u, m);
    LeafChain(t, base, seg, res, born, n, m);
    assert s[m].res == p[m].res;
    assert LeakedAt(r, s, n, u, m);
  }

  lemma SameChildren(t: Tree, p: Tree, n: NodeId)
    requires Twin(t, p) && n in t
    ensures n in p && p[n].children == t[n].children
  {
    assert TwinNode(t[n], p[n]);
  }

  lemma GrownPinned(w: Walk, v: Tier, q: seq<Page>, ids: seq<UnitId>, n: NodeId, u: Tier)
    requires WalkOk(w, q) && |ids| == |q| && w.matched[v] < |q| && w.last[v] in w.tree && n in w.tree
    requires q[w.matched[v]] !in w.tree[w.last[v]].children && WalkOk(w.(tree := Pinned(w.tree, n, u)), q)
    ensures n in Grown(w, v, q, ids) && Grown(w.(tree := Pinned(w.tree, n, u)), v, q, ids) == Pinned(Grown(w, v, q, ids), n, u)
  {
    hide WF, OnChain;
    var m := w.matched[v];
    AddLeafPinned(w.tree, w.last[v], q[m..], map[v := Resource(ids[m..], 0, Ready, 0)], w.next, n, u);
  }

  /** What follows the walk does not look at the counts either. */
  lemma InsertAtPinned(w: Walk, v: Tier, q: seq<Page>, ids: seq<UnitId>, n: NodeId, u: Tier)
    requires WalkOk(w, q) && |ids| == |q| && w.matched[v] <= |q| && w.last[v] in w.tree && n in w.tree
    ensures WalkOk(w.(tree := Pinned(w.tree, n, u)), q)
    ensures var a, b := InsertAt(w, v, q, ids), InsertAt(w.(tree := Pinned(w.tree, n, u)), v, q, ids);
            && n in a.tree && b == a.(tree := Pinned(a.tree, n, u))
  {
    hide WF, Below, Pinned, Grown, Twin, TwinNode;
    var p := Pinned(w.tree, n, u);
    PinTwin(w.tree, n, u);
    TwinWalk(w, p, q);
    var base, m := w.last[v], w.matched[v];
    SameChildren(w.tree, p, base);
    if m < |q| && q[m] !in w.tree[base].children { GrownPinned(w, v, q, ids, n, u); }
  }

  lemma InsertAtLeaked(w: Walk, p: Tree, v: Tier, q: seq<Page>, ids: seq<UnitId>, n: NodeId, u: Tier)
    requires WalkOk(w, q) && |ids| == |q| && w.matched[v] <= |q| && w.last[v] in w.tree && Leaked(w.tree, p, n, u)
    ensures WalkOk(w.(tree := p), q) && w.last[v] in p
    ensures var a, b := InsertAt(w, v, q, ids), InsertAt(w.(tree := p), v, q, ids);
            b == a.(tree := b.tree) && Leaked(a.tree, b.tree, n, u)
  {
    hide WF, LeakedAt, Twin, AddLeaf;
    TwinWalk(w, p, q);
    var base, m := w.last[v], w.matched[v];
    SameChildren(w.tree, p, base);
    if m < |q| && q[m] !in w.tree[base].children {
      AddLeafLeaked(w.tree, p, base, q[m..], map[v := Resource(ids[m..], 0, Ready, 0)], w.next, n, u);
    }
  }

  // ---- whole calls -------------------------------------------------------------------------------

  /** In the pinned tree a walk that does not cut the pinned resource does the same, and the pin carries over. */
  lemma WalkPinned(t: Tree, next: NodeId, q: seq<Page>, n: NodeId, u: Tier)
    requires WF(t) && Below(t, next) && n in t && !CutsPinned(t, n, u, q)
    ensures WF(Pinned(t, n, u)) && Below(Pinned(t, n, u), next)
    ensures var w := WalkTree(t, next, q); n in w.tree && WalkTree(Pinned(t, n, u), next, q) == w.(tree := Pinned(w.tree, n, u))
  {
    hide WF, Pinned;
    StartOk(t, next, q);
    RunPinned(Start(t, next), q, n, u);
  }

  lemma WalkLeaked(t: Tree, p: Tree, next: NodeId, q: seq<Page>, n: NodeId, u: Tier)
    requires WF(t) && Below(t, next) && Leaked(t, p, n, u)
    ensures WF(p) && Below(p, next)
    ensures var w, v := WalkTree(t, next, q), WalkTree(p, next, q); v == w.(tree := v.tree) && Leaked(w.tree, v.tree, n, u)
  {
    hide WF, LeakedAt, Twin;
    StartOk(t, next, q);
    RunTwin(Start(t, next), p, q);
    RunLeaked(Start(t, next), p, q, n, u);
  }

  lemma WalkCuts(t: Tree, next: NodeId, q: seq<Page>, n: NodeId, u: Tier)
    requires WF(t) && Below(t, next) && CutsPinned(t, n, u, q)
    ensures WF(Pinned(t, n, u)) && Below(Pinned(t, n, u), next)
    ensures var w, v := WalkTree(t, next, q), WalkTree(Pinned(t, n, u), next, q);
            v == w.(tree := v.tree) && Leaked(w.tree, v.tree, n, u)
  {
    hide WF, LeakedAt, Twin, Pinned;
    StartOk(t, next, q);
    PinTwin(t, n, u);
    RunTwin(Start(t, next), Pinned(t, n, u), q);
    RunCuts(Start(t, next), q, n, u);
  }

  lemma InsertPinned(t: Tree, next: NodeId, v: Tier, q: seq<Page>, ids: seq<UnitId>, n: NodeId, u: Tier)
    requires WF(t) && Below(t, next) && |ids| == |q| && n in t && !CutsPinned(t, n, u, q)
    ensures WF(Pinned(t, n, u)) && Below(Pinned(t, n, u), next)
    ensures var a := InsertPages(t, next, v, q, ids);
            n in a.tree && InsertPages(Pinned(t, n, u), next, v, q, ids) == a.(tree := Pinned(a.tree, n, u))
  {
    hide WF, Pinned, InsertAt;
    WalkPinned(t, next, q, n, u);
    WalkFindsLongest(t, next, q, v);
    InsertAtPinned(WalkTree(t, next, q), v, q, ids, n, u);
  }

  lemma InsertLeaked(t: Tree, p: Tree, next: NodeId, v: Tier, q: seq<Page>, ids: seq<UnitId>, n: NodeId, u: Tier)
    requires WF(t) && Below(t, next) && |ids| == |q| && Leaked(t, p, n, u)
    ensures WF(p) && Below(p, next)
    ensures var a, b := InsertPages(t, next, v, q, ids), InsertPages(p, next, v, q, ids);
            b == a.(tree := b.tree) && Leaked(a.tree, b.tree, n, u)
  {
    hide WF, InsertAt, Leaked;
    WalkLeaked(t, p, next, q, n, u);
    WalkFindsLongest(t, next, q, v);
    InsertAtLeaked(WalkTree(t, next, q), WalkTree(p, next, q).tree, v, q, ids, n, u);
  }

  lemma InsertCuts(t: Tree, next: NodeId, v: Tier, q: seq<Page>, ids: seq<UnitId>, n: NodeId, u: Tier)
    requires WF(t) && Below(t, next) && |ids| == |q| && CutsPinned(t, n, u, q)
    ensures WF(Pinned(t, n, u)) && Below(Pinned(t, n, u), next)
    ensures var a, b := InsertPages(t, next, v, q, ids), InsertPages(Pinned(t, n, u), next, v, q, ids);
            b == a.(tree := b.tree) && Leaked(a.tree, b.tree, n, u)
  {
    hide WF, InsertAt, Leaked, Pinned;
    WalkCuts(t, next, q, n, u);
    WalkFindsLongest(t, next, q, v);
    InsertAtLeaked(WalkTree(t, next, q), WalkTree(Pinned(t, n, u), next, q).tree, v, q, ids, n, u);
  }
}
