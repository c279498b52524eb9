/** Unit ids: the free list of a tier's allocator, and the units a tree holds. */
module RadixUnits {
  import opened RadixPages
  import opened RadixTree

  // ---- the free list (a stack whose top is the end) ----------------------------------------------

  /** A new allocator's list: total-1 down to 1, so that 1 is handed out first. */
  function Fresh(total: nat): (free: seq<UnitId>) {
    seq(if total == 0 then 0 else total - 1, i => total - 1 - i)
  }

  /** `active_units`, from what is available: the reserved id 0 counts for neither. */
  function ActiveCount(total: nat, available: nat): int {
    if total == 0 then 0 else total - 1 - available
  }

  /** The `n` units popped from the top, in the order they leave. */
  function Popped(free: seq<UnitId>, n: nat): (out: seq<UnitId>)
    requires n <= |free|
    ensures |out| == n
  {
    seq(n, i requires 0 <= i < n => free[|free| - 1 - i])
  }

  /** The ids a deallocation accepts; anything else is dropped silently. */
  function Accepted(total: nat, ids: seq<UnitId>): seq<UnitId> {
    if ids == [] then []
    else (if 0 < ids[0] < total then [ids[0]] else []) + Accepted(total, ids[1..])
  }

  ghost predicate InRange(total: nat, m: multiset<UnitId>) {
    forall id :: id in m ==> 0 < id < total
  }

  /** Of the ids given, those from 1 to total - 1 are taken back, each as often as it is given, and no other. */
  lemma {:induction false} AcceptedIff(total: nat, ids: seq<UnitId>, id: UnitId)
    ensures multiset(Accepted(total, ids))[id] == if 0 < id < total then multiset(ids)[id] else 0
  {
    if ids != [] {
      assert ids == [ids[0]] + ids[1..];
      AcceptedIff(total, ids[1..], id);
    }
  }

  /** They keep their order. */
  lemma {:induction false} AcceptedJoin(total: nat, a: seq<UnitId>, b: seq<UnitId>)
    ensures Accepted(total, a + b) == Accepted(total, a) + Accepted(total, b)
  {
    if a == [] {
      assert a + b == b;
    } else {
      assert (a + b)[1..] == a[1..] + b;
      AcceptedJoin(total, a[1..], b);
    }
  }

  lemma {:induction false} AcceptedAll(total: nat, ids: seq<UnitId>)
    requires InRange(total, multiset(ids))
    ensures Accepted(total, ids) == ids
  {
    if ids != [] {
      assert ids == [ids[0]] + ids[1..];
      assert ids[0] in multiset(ids);
      forall id | id in multiset(ids[1..]) ensures 0 < id < total { assert id in multiset(ids); }
      AcceptedAll(total, ids[1..]);
    }
  }

  /** What was given back last is handed out first; a new allocator hands out 1, 2, and so on. */
  lemma LastFirst(free: seq<UnitId>, id: UnitId, n: nat)
    requires n <= |free|
    ensures Popped(free + [id], n + 1) == [id] + Popped(free, n)
  {}

  lemma FirstUnits(total: nat, n: nat)
    requires n < total
    ensures Popped(Fresh(total), n) == seq(n, i => i + 1)
  {}

  lemma {:induction false} PoppedUnits(free: seq<UnitId>, n: nat)
    requires n <= |free|
    ensures multiset(free) == multiset(free[..|free| - n]) + multiset(Popped(free, n))
    decreases n
  {
    if n == 0 {
      assert free[..|free|] == free;
    } else {
      PoppedUnits(free, n - 1);
      var a, b := free[..|free| - n], free[..|free| - n + 1];
      assert b == a + [free[|free| - n]];
      assert Popped(free, n) == Popped(free, n - 1) + [free[|free| - n]];
    }
  }

  /** All units of an allocator of `total`: each of 1..total-1 once, 0 being reserved. */
  ghost function Universe(total: nat): multiset<UnitId> {
    if total <= 1 then multiset{} else Universe(total - 1) + multiset{total - 1}
  }

  lemma {:induction false} UniverseHas(total: nat, id: UnitId)
    ensures Universe(total)[id] == if 0 < id < total then 1 else 0
  {
    if total > 1 { UniverseHas(total - 1, id); }
  }

  lemma {:induction false} FreshIsUniverse(total: nat)
    ensures multiset(Fresh(total)) == Universe(total)
  {
    if total > 1 {
      FreshIsUniverse(total - 1);
      assert Fresh(total) == [total - 1] + Fresh(total - 1);
    }
  }

  // ---- the units a tree holds --------------------------------------------------------------------

  function NodeUnits(nd: Node, u: Tier): multiset<UnitId> {
    if u in nd.res then multiset(nd.res[u].ids) else multiset{}
  }

  ghost function Any(s: set<NodeId>): (n: NodeId)
    requires s != {}
    ensures n in s
  {
    var n :| n in s; n
  }

  /** The units of tier `u` on the nodes `s`. */
  ghost function SumOver(t: Tree, s: set<NodeId>, u: Tier): multiset<UnitId>
    requires s <= t.Keys
  {
    if s == {} then multiset{} else NodeUnits(t[Any(s)], u) + SumOver(t, s - {Any(s)}, u)
  }

  /** The units of tier `u` attached to the nodes of `t`. */
  ghost function TreeUnits(t: Tree, u: Tier): multiset<UnitId> {
    SumOver(t, t.Keys, u)
  }

  lemma {:induction false} SumAt(t: Tree, s: set<NodeId>, u: Tier, n: NodeId)
    requires n in s && s <= t.Keys
    ensures SumOver(t, s, u) == NodeUnits(t[n], u) + SumOver(t, s - {n}, u)
    decreases |s|
  {
    var m := Any(s);
    if m != n {
      SumAt(t, s - {m}, u, n);
      SumAt(t, s - {n}, u, m);
      assert s - {m} - {n} == s - {n} - {m};
    }
  }

  lemma {:induction false} SumSame(t: Tree, r: Tree, s: set<NodeId>, u: Tier)
    requires s <= t.Keys && s <= r.Keys && forall n :: n in s ==> NodeUnits(t[n], u) == NodeUnits(r[n], u)
    ensures SumOver(t, s, u) == SumOver(r, s, u)
    decreases |s|
  {
    if s != {} { SumSame(t, r, s - {Any(s)}, u); }
  }

  lemma Cancel(a: multiset<UnitId>, b: multiset<UnitId>, c: multiset<UnitId>)
    requires a + c == b + c
    ensures a == b
  {
    assert a == (a + c) - c && b == (b + c) - c;
  }

  /** Changing one node changes the sum by that node's difference. */
  lemma TreeUnitsPut(t: Tree, u: Tier, n: NodeId, nd: Node)
    requires n in t
    ensures TreeUnits(t[n := nd], u) == NodeUnits(nd, u) + SumOver(t, t.Keys - {n}, u)
    ensures TreeUnits(t, u) == NodeUnits(t[n], u) + SumOver(t, t.Keys - {n}, u)
  {
    var r := t[n := nd];
    assert r.Keys == t.Keys;
    SumAt(t, t.Keys, u, n);
    SumAt(r, r.Keys, u, n);
    SumSame(t, r, t.Keys - {n}, u);
  }

  lemma TreeUnitsNew(t: Tree, u: Tier, n: NodeId, nd: Node)
    requires n !in t
    ensures TreeUnits(t[n := nd], u) == TreeUnits(t, u) + NodeUnits(nd, u)
  {
    var r := t[n := nd];
    SumAt(r, r.Keys, u, n);
    assert r.Keys - {n} == t.Keys;
    SumSame(t, r, t.Keys, u);
  }

  lemma TreeUnitsWithout(t: Tree, u: Tier, n: NodeId)
    requires n in t
    ensures TreeUnits(t, u) == TreeUnits(t - {n}, u) + NodeUnits(t[n], u)
  {
    var r := t - {n};
    SumAt(t, t.Keys, u, n);
    assert r.Keys == t.Keys - {n};
    SumSame(t, r, r.Keys, u);
  }

  // ---- what each tree operation does to them -----------------------------------------------------

  lemma SplitNodeUnits(t: Tree, c: NodeId, k: nat, born: NodeId, u: Tier)
    requires c in t && born !in t && 0 < k < |t[c].seg| && |t[c].seg| <= |t[c].path|
    requires forall v :: v in t[c].res ==> |t[c].res[v].ids| == |t[c].seg|
    ensures var r := SplitNode(t, c, k, born);
            NodeUnits(t[c], u) == NodeUnits(r[born], u) + NodeUnits(r[c], u)
  {
    if u in t[c].res {
      var ids := t[c].res[u].ids;
      assert ids == ids[0..k] + ids[k..|t[c].seg|];
    }
  }

  lemma SplitUnits(t: Tree, c: NodeId, k: nat, born: NodeId, u: Tier)
    requires c in t && born !in t && 0 < k < |t[c].seg| && |t[c].seg| <= |t[c].path|
    requires forall v :: v in t[c].res ==> |t[c].res[v].ids| == |t[c].seg|
    ensures TreeUnits(SplitNode(t, c, k, born), u) == TreeUnits(t, u)
  {
    SplitNodeUnits(t, c, k, born, u);
    SplitRest(t, SplitNode(t, c, k, born), c, born, u);
  }

  lemma SplitRest(t: Tree, r: Tree, c: NodeId, born: NodeId, u: Tier)
    requires c in t && born !in t && r.Keys == t.Keys + {born}
    requires NodeUnits(t[c], u) == NodeUnits(r[born], u) + NodeUnits(r[c], u)
    requires forall n :: n in t && n != c ==> NodeUnits(t[n], u) == NodeUnits(r[n], u)
    ensures TreeUnits(r, u) == TreeUnits(t, u)
  {
    SumAt(r, r.Keys, u, born);
    assert r.Keys - {born} == t.Keys;
    SumAt(r, t.Keys, u, c);
    SumAt(t, t.Keys, u, c);
    SumSame(t, r, t.Keys - {c}, u);
  }

  lemma AddLeafUnits(t: Tree, base: NodeId, seg: seq<Page>, res: map<Tier, Resource>, born: NodeId, u: Tier)
    requires base in t && seg != [] && born !in t
    ensures TreeUnits(AddLeaf(t, base, seg, res, born), u)
         == TreeUnits(t, u) + (if u in res then multiset(res[u].ids) else multiset{})
  {
    var nd := t[base].(children := t[base].children[seg[0] := born]);
    TreeUnitsPut(t, u, base, nd);
    TreeUnitsNew(t[base := nd], u, born, Node(base, t[base].path + seg, seg, map[], res));
  }

  /** Attaching replaces what the tier held there. */
  lemma AttachUnits(t: Tree, n: NodeId, v: Tier, r: Resource, u: Tier)
    requires n in t
    ensures u != v ==> TreeUnits(Attach(t, n, v, r), u) == TreeUnits(t, u)
    ensures u == v ==> TreeUnits(Attach(t, n, v, r), u) + NodeUnits(t[n], v) == TreeUnits(t, u) + multiset(r.ids)
  {
    TreeUnitsPut(t, u, n, t[n].(res := t[n].res[v := r]));
  }

  lemma DetachUnits(t: Tree, n: NodeId, v: Tier, u: Tier)
    requires n in t
    ensures u != v ==> TreeUnits(Detach(t, n, v), u) == TreeUnits(t, u)
    ensures u == v ==> TreeUnits(Detach(t, n, v), u) + NodeUnits(t[n], v) == TreeUnits(t, u)
  {
    TreeUnitsPut(t, u, n, t[n].(res := t[n].res - {v}));
  }

  lemma UnlinkUnits(t: Tree, n: NodeId, u: Tier)
    requires n in t && t[n].parent in t && t[n].parent != n && t[n].seg != [] && t[n].res == map[]
    ensures TreeUnits(Unlink(t, n), u) == TreeUnits(t, u)
  {
    TreeUnitsWithout(t, u, n);
    var p := t[n].parent;
    TreeUnitsPut(t - {n}, u, p, t[p].(children := t[p].children - {t[n].seg[0]}));
  }

  lemma {:induction false} PruneUnits(t: Tree, n: NodeId, u: Tier)
    requires WF(t)
    ensures TreeUnits(Prune(t, n), u) == TreeUnits(t, u)
    decreases |t|
  {
    if n in t && n != ROOT && Orphan(t[n]) {
      UnlinkKeeps(t, n);
      UnlinkUnits(t, n, u);
      PruneUnits(Unlink(t, n), t[n].parent, u);
    }
  }
}
