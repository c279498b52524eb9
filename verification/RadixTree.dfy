/** The prefix tree as a table of nodes keyed by node identity.

    A `NodeId` stands for a node pointer: reading a node that was freed is a missing key. `path` is the
    concatenation of the segments from the root; the source keeps its length, `depth_in_atoms_`. */
module RadixTree {
  import opened RadixPages

  type NodeId = nat
  type UnitId = int
  type Handle = nat

  const ROOT: NodeId := 0

  datatype Tier = Device | Host | Disk | Remote

  const TIERS: set<Tier> := {Device, Host, Disk, Remote}

  lemma AllTiers()
    ensures forall u: Tier :: u in TIERS
  {
    forall u: Tier ensures u in TIERS {
      match u case Device => case Host => case Disk => case Remote =>
    }
  }

  /** A value for every tier (`std::array<T, max_tiers>`). */
  datatype PerTier<T> = PerTier(device: T, host: T, disk: T, remote: T) {
    function At(u: Tier): T {
      match u case Device => device case Host => host case Disk => disk case Remote => remote
    }

    function With(u: Tier, x: T): (r: PerTier<T>)
      ensures forall v: Tier :: r.At(v) == if v == u then x else At(v)
    {
      match u
      case Device => this.(device := x)
      case Host => this.(host := x)
      case Disk => this.(disk := x)
      case Remote => this.(remote := x)
    }
  }

  datatype State = Ready | Pending | Failed

  /** One tier's resource on a node: its unit ids, pin count, and state with the pending handle. */
  datatype Resource = Resource(ids: seq<UnitId>, refs: nat, state: State, handle: Handle)

  datatype Node = Node(parent: NodeId, path: seq<Page>, seg: seq<Page>,
                       children: map<Page, NodeId>, res: map<Tier, Resource>)

  type Tree = map<NodeId, Node>

  const EMPTY: Tree := map[ROOT := Node(ROOT, [], [], map[], map[])]

  predicate Evictable(r: Resource) { r.refs == 0 && r.state == Ready }

  predicate Orphan(nd: Node) { nd.children == map[] && nd.res == map[] }

  /** A node is linked with its parent in both directions, and its path extends the parent's. */
  ghost predicate Linked(t: Tree, n: NodeId)
    requires n in t
  {
    var nd := t[n];
    && nd.parent in t && nd.seg != []
    && nd.path == t[nd.parent].path + nd.seg
    && nd.seg[0] in t[nd.parent].children && t[nd.parent].children[nd.seg[0]] == n
  }

  ghost predicate ChildrenOk(t: Tree, n: NodeId)
    requires n in t
  {
    forall k :: k in t[n].children ==>
      var c := t[n].children[k];
      c in t && c != ROOT && t[c].parent == n && t[c].seg != [] && t[c].seg[0] == k
  }

  /** One unit per page of the segment. */
  ghost predicate ResourcesOk(nd: Node) {
    forall u :: u in nd.res ==> |nd.res[u].ids| == |nd.seg|
  }

  ghost predicate WF(t: Tree) {
    && ROOT in t && t[ROOT].path == [] && t[ROOT].seg == [] && t[ROOT].res == map[]
    && (forall n {:trigger Linked(t, n)} :: n in t && n != ROOT ==> Linked(t, n))
    && (forall n {:trigger ChildrenOk(t, n)} :: n in t ==> ChildrenOk(t, n))
    && (forall n {:trigger ResourcesOk(t[n])} :: n in t ==> ResourcesOk(t[n]))
  }

  /** Node `n` stores the page that ends prefix `p`. */
  ghost predicate Owns(t: Tree, n: NodeId, p: seq<Page>) {
    n in t && p <= t[n].path && |t[n].path| - |t[n].seg| < |p|
  }

  lemma PrefixTrans(a: seq<Page>, b: seq<Page>, c: seq<Page>)
    requires a <= b && b <= c
    ensures a <= c
  {}

  lemma PrefixOf(a: seq<Page>, b: seq<Page>, c: seq<Page>)
    requires a <= c && b <= c && |a| <= |b|
    ensures a <= b && (|a| == |b| ==> a == b)
  {
    assert a == c[..|a|] && b == c[..|b|];
  }

  /** No two nodes store the same page of the same path. */
  lemma {:induction false} OwnerUnique(t: Tree, n: NodeId, m: NodeId, p: seq<Page>)
    requires WF(t) && Owns(t, n, p) && Owns(t, m, p) && n != ROOT && m != ROOT
    ensures n == m
    decreases |p|
  {
    assert Linked(t, n) && Linked(t, m);
    var pn, pm := t[n].parent, t[m].parent;
    var bn, bm := t[pn].path, t[pm].path;
    PrefixOf(bn, t[n].path, t[n].path);
    assert bn <= t[n].path && bm <= t[m].path;
    PrefixOf(bn, p, t[n].path);
    PrefixOf(bm, p, t[m].path);
    if |bn| < |bm| {
      ParentOwns(t, m, n, p);
      OwnerUnique(t, n, pm, bm);
    } else if |bm| < |bn| {
      ParentOwns(t, n, m, p);
      OwnerUnique(t, pn, m, bn);
    } else {
      PrefixOf(bn, bm, p);
      SamePath(t, pn, pm, |p|);
      assert t[n].seg[0] == t[n].path[|bn|] == p[|bn|] == t[m].path[|bm|] == t[m].seg[0];
    }
  }

  /** If `m`'s parent path is longer than `n`'s and `n` stores a page beyond it, `n` also stores its last page. */
  lemma ParentOwns(t: Tree, m: NodeId, n: NodeId, p: seq<Page>)
    requires WF(t) && Owns(t, n, p) && Owns(t, m, p) && n != ROOT && m != ROOT
    requires |t[n].path| - |t[n].seg| < |t[m].path| - |t[m].seg|
    ensures var pm := t[m].parent; pm in t && pm != ROOT && Owns(t, pm, t[pm].path) && Owns(t, n, t[pm].path)
                                   && |t[pm].path| < |p| && t[pm].path <= p
  {
    assert Linked(t, m) && Linked(t, n);
    var pm := t[m].parent;
    assert t[pm].path <= t[m].path;
    PrefixOf(t[pm].path, p, t[m].path);
    PrefixTrans(t[pm].path, p, t[n].path);
    assert pm != ROOT;
    assert Linked(t, pm);
  }

  lemma {:induction false} SamePath(t: Tree, n: NodeId, m: NodeId, bound: nat)
    requires WF(t) && n in t && m in t && t[n].path == t[m].path && |t[n].path| < bound
    ensures n == m
    decreases bound, 0
  {
    if n != ROOT { assert Linked(t, n); }
    if m != ROOT { assert Linked(t, m); }
    if n != ROOT && m != ROOT {
      OwnerUnique(t, n, m, t[n].path);
    }
  }

  /** Below a node `n` whose path is a proper prefix of `m`'s, the child on the way to `m`. */
  lemma {:induction false} ChildToward(t: Tree, n: NodeId, m: NodeId) returns (c: NodeId)
    requires WF(t) && n in t && m in t && t[n].path < t[m].path
    ensures c in t && c != ROOT && t[c].parent == n && t[c].path <= t[m].path
    ensures |t[n].path| < |t[c].path| && t[c].seg != [] && t[m].path[|t[n].path|] == t[c].seg[0]
    ensures t[m].path[|t[n].path|] in t[n].children && t[n].children[t[m].path[|t[n].path|]] == c
    decreases |t[m].path|
  {
    assert m != ROOT;
    assert Linked(t, m);
    var pm := t[m].parent;
    assert t[pm].path <= t[m].path;
    if |t[n].path| < |t[pm].path| {
      PrefixOf(t[n].path, t[pm].path, t[m].path);
      c := ChildToward(t, n, pm);
    } else if |t[n].path| == |t[pm].path| {
      PrefixOf(t[n].path, t[pm].path, t[m].path);
      SamePath(t, n, pm, |t[m].path|);
      c := m;
    } else {
      assert n != ROOT && Linked(t, n);
      OwnerUnique(t, n, m, t[n].path);
      c := m;
      assert false;
    }
  }

  /** A non-empty prefix of a node's path is stored by that node or one above it. */
  lemma {:induction false} OwnerOnPath(t: Tree, n: NodeId, p: seq<Page>) returns (a: NodeId)
    requires WF(t) && n in t && p != [] && p <= t[n].path
    ensures a in t && a != ROOT && Owns(t, a, p) && t[a].path <= t[n].path
    decreases |t[n].path|
  {
    assert n != ROOT;
    assert Linked(t, n);
    var pn := t[n].parent;
    if |p| <= |t[pn].path| {
      PrefixOf(p, t[pn].path, t[n].path);
      a := OwnerOnPath(t, pn, p);
      PrefixTrans(t[a].path, t[pn].path, t[n].path);
    } else {
      a := n;
    }
  }

  /** Whoever stores a page of `n`'s path lies on the way to `n`. */
  lemma OwnerAbove(t: Tree, n: NodeId, a: NodeId, p: seq<Page>)
    requires WF(t) && n in t && a != ROOT && p != [] && p <= t[n].path && Owns(t, a, p)
    ensures t[a].path <= t[n].path
  {
    var b := OwnerOnPath(t, n, p);
    OwnerUnique(t, a, b, p);
  }

  /** A path that leaves the tree at `n` is not stored anywhere. */
  lemma NoOwnerBeyond(t: Tree, n: NodeId, p: seq<Page>, m: NodeId)
    requires WF(t) && n in t && t[n].path < p && p[|t[n].path|] !in t[n].children
    ensures !Owns(t, m, p)
  {
    if Owns(t, m, p) {
      PrefixTrans(t[n].path, p, t[m].path);
      var c := ChildToward(t, n, m);
    }
  }

  // ---- operations on the table -------------------------------------------------------------------

  function Cut(r: Resource, from: nat, to: nat): Resource
    requires from <= to <= |r.ids|
  {
    r.(ids := r.ids[from..to])
  }

  /** `split_self`: node `c` keeps the first `k` pages, a new child `born` takes the rest with all the
      children; every resource is cut at the same page, pins, state and handle duplicated. */
  function SplitNode(t: Tree, c: NodeId, k: nat, born: NodeId): (r: Tree)
    requires c in t && 0 < k < |t[c].seg| && |t[c].seg| <= |t[c].path|
    requires forall u :: u in t[c].res ==> |t[c].res[u].ids| == |t[c].seg|
  {
    var nd := t[c];
    var suffix := Node(c, nd.path, nd.seg[k..], nd.children,
                       map u | u in nd.res :: Cut(nd.res[u], k, |nd.seg|));
    var prefix := Node(nd.parent, nd.path[..|nd.path| - |nd.seg| + k], nd.seg[..k],
                       map[nd.seg[k] := born],
                       map u | u in nd.res :: Cut(nd.res[u], 0, k));
    map n | n in t.Keys + {born} ::
      if n == born then suffix
      else if n == c then prefix
      else if t[n].parent == c && n != ROOT then t[n].(parent := born)
      else t[n]
  }

  /** A new childless node under `base`. */
  function AddLeaf(t: Tree, base: NodeId, seg: seq<Page>, res: map<Tier, Resource>, born: NodeId): Tree
    requires base in t && seg != []
  {
    t[base := t[base].(children := t[base].children[seg[0] := born])]
     [born := Node(base, t[base].path + seg, seg, map[], res)]
  }

  function Attach(t: Tree, n: NodeId, u: Tier, r: Resource): Tree
    requires n in t
  {
    t[n := t[n].(res := t[n].res[u := r])]
  }

  function Detach(t: Tree, n: NodeId, u: Tier): Tree
    requires n in t
  {
    t[n := t[n].(res := t[n].res - {u})]
  }

  /** One turn of `prune_empty`: erase an orphan from its parent and free it. */
  function Unlink(t: Tree, n: NodeId): Tree
    requires n in t && t[n].parent in t && t[n].parent != n && t[n].seg != []
  {
    var p := t[n].parent;
    (t - {n})[p := t[p].(children := t[p].children - {t[n].seg[0]})]
  }

  /** `prune_empty`: remove an orphan, then every ancestor that becomes one. */
  function Prune(t: Tree, n: NodeId): (r: Tree)
    requires WF(t)
    ensures WF(r)
    decreases |t|
  {
    if n !in t || n == ROOT || !Orphan(t[n]) then t else
      assert Linked(t, n);
      UnlinkKeeps(t, n);
      Prune(Unlink(t, n), t[n].parent)
  }

  lemma UnlinkLinked(t: Tree, n: NodeId, m: NodeId)
    requires WF(t) && n in t && n != ROOT && Orphan(t[n]) && m in t && m != ROOT && m != n
    requires Linked(t, n) && t[n].parent != n
    ensures Linked(Unlink(t, n), m)
  {
    assert Linked(t, m);
    assert t[m].parent != n;
  }

  lemma UnlinkKeeps(t: Tree, n: NodeId)
    requires WF(t) && n in t && n != ROOT && Orphan(t[n])
    ensures Linked(t, n) && t[n].parent != n
    ensures WF(Unlink(t, n)) && |Unlink(t, n)| < |t|
  {
    assert Linked(t, n);
    assert t[n].parent != n;
    var r := Unlink(t, n);
    assert r.Keys == t.Keys - {n};
    assert |r.Keys| < |t.Keys|;
    forall m | m in r && m != ROOT ensures Linked(r, m) {
      UnlinkLinked(t, n, m);
    }
    forall m | m in r ensures ChildrenOk(r, m) && ResourcesOk(r[m]) {
      assert ChildrenOk(t, m) && ResourcesOk(t[m]);
    }
  }

  lemma AttachKeeps(t: Tree, n: NodeId, u: Tier, r: Resource)
    requires WF(t) && n in t && n != ROOT && |r.ids| == |t[n].seg|
    ensures WF(Attach(t, n, u, r))
  {
    var t' := Attach(t, n, u, r);
    forall m | m in t' && m != ROOT ensures Linked(t', m) { assert Linked(t, m); }
    forall m | m in t' ensures ChildrenOk(t', m) { assert ChildrenOk(t, m); }
    assert forall m :: m in t ==> ResourcesOk(t[m]);
  }

  lemma DetachKeeps(t: Tree, n: NodeId, u: Tier)
    requires WF(t) && n in t
    ensures WF(Detach(t, n, u))
  {
    var t' := Detach(t, n, u);
    forall m | m in t' && m != ROOT ensures Linked(t', m) { assert Linked(t, m); }
    forall m | m in t' ensures ChildrenOk(t', m) { assert ChildrenOk(t, m); }
    assert forall m :: m in t ==> ResourcesOk(t[m]);
  }

  lemma AddLeafKeeps(t: Tree, base: NodeId, seg: seq<Page>, res: map<Tier, Resource>, born: NodeId)
    requires WF(t) && base in t && born !in t && seg != [] && seg[0] !in t[base].children
    requires forall u :: u in res ==> |res[u].ids| == |seg|
    ensures WF(AddLeaf(t, base, seg, res, born))
  {
    hide Linked;
    var t' := AddLeaf(t, base, seg, res, born);
    forall m | m in t' && m != ROOT ensures Linked(t', m) {
      AddLeafLinked(t, base, seg, res, born, m);
    }
    forall m | m in t' ensures ChildrenOk(t', m) && ResourcesOk(t'[m]) {
      if m != born { assert ChildrenOk(t, m) && ResourcesOk(t[m]); }
    }
  }

  lemma AddLeafLinked(t: Tree, base: NodeId, seg: seq<Page>, res: map<Tier, Resource>, born: NodeId, m: NodeId)
    requires WF(t) && base in t && born !in t && seg != [] && seg[0] !in t[base].children
    requires m == born || (m in t && m != ROOT)
    ensures Linked(AddLeaf(t, base, seg, res, born), m)
  {
    if m != born { assert Linked(t, m); }
  }

  lemma SplitReady(t: Tree, c: NodeId)
    requires WF(t) && c in t && c != ROOT
    ensures ResourcesOk(t[c]) && Linked(t, c) && |t[c].seg| <= |t[c].path|
  {
    assert ResourcesOk(t[c]) && Linked(t, c);
  }

  lemma SplitKeeps(t: Tree, c: NodeId, k: nat, born: NodeId)
    requires WF(t) && c in t && c != ROOT && born !in t && 0 < k < |t[c].seg|
    ensures ResourcesOk(t[c]) && Linked(t, c) && |t[c].seg| <= |t[c].path|
    ensures WF(SplitNode(t, c, k, born))
  {
    hide ChildrenOk, Linked;
    SplitReady(t, c);
    var t' := SplitNode(t, c, k, born);
    forall m | m in t' && m != ROOT ensures Linked(t', m) { SplitLinked(t, c, k, born, m); }
    forall m | m in t' ensures ChildrenOk(t', m) { SplitChildren(t, c, k, born, m); }
    forall m | m in t' ensures ResourcesOk(t'[m]) {
      if m != born { assert ResourcesOk(t[m]); }
    }
  }

  /** A node and its child as one node again. */
  ghost function Joined(t: Tree, c: NodeId, child: NodeId): Tree
    requires c in t && child in t
  {
    map n | n in t.Keys - {child} ::
      if n == c then Node(t[c].parent, t[child].path, t[c].seg + t[child].seg, t[child].children,
                          map u | u in t[c].res && u in t[child].res :: t[c].res[u].(ids := t[c].res[u].ids + t[child].res[u].ids))
      else if t[n].parent == child && n != ROOT then t[n].(parent := c)
      else t[n]
  }

  lemma Halves(t: Tree, c: NodeId, k: nat, born: NodeId)
    requires c in t && born !in t && 0 < k < |t[c].seg| && |t[c].seg| <= |t[c].path| && ResourcesOk(t[c])
    ensures var r := SplitNode(t, c, k, born);
            && r.Keys == t.Keys + {born} && r[born].parent == c && r[c].children == map[t[c].seg[k] := born]
            && |r[c].seg| == k && |r[c].path| + |t[c].seg| - k == |t[c].path| && r[c].path <= t[c].path
            && r[c].res.Keys == r[born].res.Keys == t[c].res.Keys
            && (forall u :: u in t[c].res ==> |r[c].res[u].ids| == k && r[born].res[u] == r[c].res[u].(ids := r[born].res[u].ids))
  {}

  lemma JoinedSelf(t: Tree, c: NodeId, k: nat, born: NodeId)
    requires c in t && born !in t && 0 < k < |t[c].seg| && |t[c].seg| <= |t[c].path| && ResourcesOk(t[c])
    ensures var r := SplitNode(t, c, k, born); c in r && born in r && Joined(r, c, born)[c] == t[c]
  {
    var nd, r := t[c], SplitNode(t, c, k, born);
    assert nd.seg == nd.seg[..k] + nd.seg[k..];
    forall u | u in nd.res ensures nd.res[u].ids[0..k] + nd.res[u].ids[k..|nd.seg|] == nd.res[u].ids {}
    assert Joined(r, c, born)[c].res == nd.res;
  }

  /** A split is undone by joining the halves: the upper one has the first `k` pages and units and the lower one as its
      only child, and both have the pins, state and handle of the whole. */
  lemma JoinSplit(t: Tree, c: NodeId, k: nat, born: NodeId)
    requires WF(t) && c in t && c != ROOT && born !in t && 0 < k < |t[c].seg|
    ensures ResourcesOk(t[c]) && Linked(t, c) && |t[c].seg| <= |t[c].path|
    ensures var r := SplitNode(t, c, k, born);
            && r.Keys == t.Keys + {born} && r[born].parent == c && r[c].children == map[t[c].seg[k] := born]
            && |r[c].seg| == k && |r[c].path| + |t[c].seg| - k == |t[c].path| && r[c].path <= t[c].path
            && r[c].res.Keys == r[born].res.Keys == t[c].res.Keys
            && (forall u :: u in t[c].res ==> |r[c].res[u].ids| == k && r[born].res[u] == r[c].res[u].(ids := r[born].res[u].ids))
            && Joined(r, c, born) == t
  {
    SplitReady(t, c);
    Halves(t, c, k, born);
    JoinedSelf(t, c, k, born);
    JoinedOthers(t, c, k, born);
    hide SplitNode, WF;
    var j := Joined(SplitNode(t, c, k, born), c, born);
    forall n | n in t ensures j[n] == t[n] {}
    assert j.Keys == t.Keys;
  }

  lemma JoinedOthers(t: Tree, c: NodeId, k: nat, born: NodeId)
    requires WF(t) && c in t && c != ROOT && born !in t && 0 < k < |t[c].seg| && |t[c].seg| <= |t[c].path| && ResourcesOk(t[c])
    ensures var r := SplitNode(t, c, k, born);
            c in r && born in r && forall n :: n in t && n != c ==> Joined(r, c, born)[n] == t[n]
  {
    var j := Joined(SplitNode(t, c, k, born), c, born);
    forall n | n in t && n != c ensures j[n] == t[n] {
      if n != ROOT { assert Linked(t, n); }
    }
  }

  lemma SplitLinked(t: Tree, c: NodeId, k: nat, born: NodeId, m: NodeId)
    requires WF(t) && c in t && c != ROOT && born !in t && 0 < k < |t[c].seg|
    requires ResourcesOk(t[c]) && Linked(t, c) && |t[c].seg| <= |t[c].path|
    requires m == born || (m in t && m != ROOT)
    ensures Linked(SplitNode(t, c, k, born), m)
  {
    var t' := SplitNode(t, c, k, born);
    var b := t[t[c].parent].path;
    if m == born || m == c {
      assert t'[c].path == b + t'[c].seg;
      assert t'[c].path + t'[born].seg == t[c].path;
      assert t[c].parent != c;
    } else {
      assert Linked(t, m);
      if t[m].parent == c {
      } else {
        assert t'[m] == t[m];
      }
    }
  }

  lemma SplitChildren(t: Tree, c: NodeId, k: nat, born: NodeId, m: NodeId)
    requires WF(t) && c in t && c != ROOT && born !in t && 0 < k < |t[c].seg|
    requires ResourcesOk(t[c]) && Linked(t, c) && |t[c].seg| <= |t[c].path|
    requires m == born || m in t
    ensures ChildrenOk(SplitNode(t, c, k, born), m)
  {
    assert ChildrenOk(t, c);
    if m != born { assert ChildrenOk(t, m); }
  }
}
