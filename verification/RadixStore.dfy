/** Inserting, collecting and dropping, as changes of the per-tier maps. */
module RadixStore {
  import opened RadixPages
  import opened RadixTree
  import opened RadixSlots
  import opened RadixWalk

  // ---- collect_units -----------------------------------------------------------------------------

  function NodeIds(nd: Node, u: Tier): seq<UnitId> {
    if u in nd.res then nd.res[u].ids else []
  }

  /** The unit ids of tier `u` on the chain from the root to `n`, root first. */
  function Collect(t: Tree, n: NodeId, u: Tier): seq<UnitId>
    requires WF(t) && n in t
    decreases |t[n].path|
  {
    if n == ROOT then [] else
      assert Linked(t, n);
      Collect(t, t[n].parent, u) + NodeIds(t[n], u)
  }

  /** `ids` are the ids a map gives to the prefixes of `q`, in page order. */
  ghost predicate Reads(m: Store, q: seq<Page>, ids: seq<UnitId>) {
    |ids| == |q| && forall j :: 0 < j <= |q| ==> q[..j] in m && ids[j - 1] == m[q[..j]]
  }

  lemma ClosedPrefix(s: Store, p: seq<Page>, b: nat)
    requires b <= |p| && Closed(s, p)
    ensures Closed(s, p[..b])
  {
    forall j | 0 < j <= b ensures p[..b][..j] in s { assert p[..b][..j] == p[..j]; }
  }

  lemma SegmentReads(t: Tree, n: NodeId, u: Tier, j: nat)
    requires WF(t) && n in t && n != ROOT && Closed(Slots(t, u), t[n].path)
    requires Linked(t, n) && |t[t[n].parent].path| < j <= |t[n].path|
    ensures u in t[n].res && |t[n].res[u].ids| == |t[n].seg| == |t[n].path| - |t[t[n].parent].path|
    ensures Slots(t, u)[t[n].path[..j]] == t[n].res[u].ids[j - 1 - |t[t[n].parent].path|]
  {
    assert ResourcesOk(t[n]);
    assert Owns(t, n, t[n].path[..j]);
    SlotAt(t, u, n, t[n].path[..j]);
  }

  /** Where every page on the way to `n` is stored, collecting returns the ids in page order. */
  lemma {:induction false} CollectReads(t: Tree, n: NodeId, u: Tier)
    requires WF(t) && n in t && Closed(Slots(t, u), t[n].path)
    ensures Reads(Slots(t, u), t[n].path, Collect(t, n, u))
    decreases |t[n].path|
  {
    if n != ROOT {
      assert Linked(t, n);
      var pn := t[n].parent;
      var full, b := t[n].path, |t[pn].path|;
      assert t[pn].path == full[..b];
      ClosedPrefix(Slots(t, u), full, b);
      CollectReads(t, pn, u);
      SegmentReads(t, n, u, |full|);
      forall j | 0 < j <= |full| ensures full[..j] in Slots(t, u) && Collect(t, n, u)[j - 1] == Slots(t, u)[full[..j]] {
        CollectAt(t, n, u, j - 1);
      }
    }
  }

  lemma CollectAt(t: Tree, n: NodeId, u: Tier, i: nat)
    requires WF(t) && n in t && n != ROOT && Linked(t, n) && Closed(Slots(t, u), t[n].path) && i < |t[n].path|
    requires Reads(Slots(t, u), t[t[n].parent].path, Collect(t, t[n].parent, u))
    ensures t[n].path[..i + 1] in Slots(t, u)
    ensures i < |Collect(t, n, u)| && Collect(t, n, u)[i] == Slots(t, u)[t[n].path[..i + 1]]
  {
    hide Slots;
    var pn := t[n].parent;
    var full, b := t[n].path, |t[pn].path|;
    SegmentReads(t, n, u, |full|);
    if i < b {
      assert t[pn].path[..i + 1] == full[..i + 1];
    } else {
      SegmentReads(t, n, u, i + 1);
    }
  }

  // ---- insert ------------------------------------------------------------------------------------

  /** `Dangling`: the new child could not be stored because its parent already has a child on the same
      page; the source goes on with a pointer to the node it just destroyed. */
  datatype InsertOutcome =
    | Inserted(tree: Tree, next: NodeId, tail: NodeId, pages: nat, freed: seq<UnitId>)
    | Dangling(tree: Tree, next: NodeId)

  /** What follows the walk: attach the unmatched pages as one new leaf under the tier's last node. */
  function InsertAt(w: Walk, u: Tier, q: seq<Page>, ids: seq<UnitId>): InsertOutcome
    requires WalkOk(w, q) && |ids| == |q| && w.matched[u] <= |q| && w.last[u] in w.tree
  {
    var base, m := w.last[u], w.matched[u];
    if m == |q| then Inserted(w.tree, w.next, base, 0, ids)
    else if q[m] in w.tree[base].children then Dangling(w.tree, w.next)
    else Inserted(Grown(w, u, q, ids), w.next + 1, w.next, |q| - m, ids[..m])
  }

  /** The new leaf of an insert. */
  function Grown(w: Walk, u: Tier, q: seq<Page>, ids: seq<UnitId>): Tree
    requires WalkOk(w, q) && |ids| == |q| && w.matched[u] < |q| && w.last[u] in w.tree
  {
    AddLeaf(w.tree, w.last[u], q[w.matched[u]..], map[u := Resource(ids[w.matched[u]..], 0, Ready, 0)], w.next)
  }

  function InsertPages(t: Tree, next: NodeId, u: Tier, q: seq<Page>, ids: seq<UnitId>): InsertOutcome
    requires WF(t) && Below(t, next) && |ids| == |q|
  {
    WalkFindsLongest(t, next, q, u);
    InsertAt(WalkTree(t, next, q), u, q, ids)
  }

  /** Insertion into a map: prefixes already mapped keep their id, the others get the id at their page. */
  ghost function Extended(m: Store, q: seq<Page>, ids: seq<UnitId>): Store
    requires |ids| == |q|
  {
    imap p | p in m || (p != [] && p <= q) :: if p in m then m[p] else ids[|p| - 1]
  }

  /** Mapped prefixes, from stored ones, after a leaf is added where nothing was stored. */
  lemma MapExtends(s: Store, s': Store, q: seq<Page>, ids: seq<UnitId>, k: nat)
    requires |ids| == |q| && k < |q| && Closed(s, q[..k])
    requires s' == s + Chain(k, q, ids[k..])
    requires NoneBelow(s, q[..k + 1])
    ensures (imap p | p in s' && Closed(s', p) :: s'[p]) == Extended(imap p | p in s && Closed(s, p) :: s[p], q, ids)
  {
    hide Chain, Closed, NoneBelow;
    forall p
      ensures (p in s' && Closed(s', p)) <==> ((p in s && Closed(s, p)) || (p != [] && p <= q))
      ensures p in s' && Closed(s', p) ==> s'[p] == if p in s && Closed(s, p) then s[p] else ids[|p| - 1]
    {
      MapExtendsAt(s, q, ids, k, p);
    }
  }

  ghost predicate NoneBelow(s: Store, prefix: seq<Page>) {
    forall p :: prefix <= p ==> p !in s
  }

  lemma MapExtendsAt(s: Store, q: seq<Page>, ids: seq<UnitId>, k: nat, p: seq<Page>)
    requires |ids| == |q| && k < |q| && Closed(s, q[..k]) && NoneBelow(s, q[..k + 1])
    ensures var r := s + Chain(k, q, ids[k..]);
            && ((p in r && Closed(r, p)) <==> ((p in s && Closed(s, p)) || (p != [] && p <= q)))
            && (p in r && Closed(r, p) ==>
                  (p !in s || !Closed(s, p) ==> 0 < |p| <= |q|)
                  && r[p] == if p in s && Closed(s, p) then s[p] else ids[|p| - 1])
  {
    hide Chain, Closed, NoneBelow;
    if p != [] && p <= q {
      MapExtendsOn(s, q, ids, k, p);
      MapExtendsIds(s, q, ids, k, p);
    } else if p in s + Chain(k, q, ids[k..]) {
      MapExtendsOff(s, q, ids, k, p);
    }
  }

  /** Up to `k` the query's prefixes were mapped; beyond, they get the ids at their pages. */
  lemma MapExtendsIds(s: Store, q: seq<Page>, ids: seq<UnitId>, k: nat, p: seq<Page>)
    requires |ids| == |q| && k < |q| && Closed(s, q[..k]) && p != [] && p <= q && NoneBelow(s, q[..k + 1])
    ensures var r := s + Chain(k, q, ids[k..]);
            p in r && r[p] == if p in s && Closed(s, p) then s[p] else ids[|p| - 1]
  {
    if |p| <= k {
      assert p == q[..k][..|p|];
      ClosedPrefix(s, q[..k], |p|);
    } else {
      PrefixOf(q[..k + 1], p, q);
      assert Between(k, q, p);
    }
  }

  lemma MapExtendsOn(s: Store, q: seq<Page>, ids: seq<UnitId>, k: nat, p: seq<Page>)
    requires |ids| == |q| && k < |q| && Closed(s, q[..k]) && p != [] && p <= q
    ensures Closed(s + Chain(k, q, ids[k..]), p) && p in s + Chain(k, q, ids[k..])
  {
    ChainClosed(s, q, ids, k);
    assert p == q[..|p|];
    ClosedPrefix(s + Chain(k, q, ids[k..]), q, |p|);
    assert p[..|p|] == p;
  }

  lemma MapExtendsOff(s: Store, q: seq<Page>, ids: seq<UnitId>, k: nat, p: seq<Page>)
    requires |ids| == |q| && k < |q| && p in s + Chain(k, q, ids[k..]) && !(p != [] && p <= q) && NoneBelow(s, q[..k + 1])
    ensures var r := s + Chain(k, q, ids[k..]); p in s && r[p] == s[p] && (Closed(r, p) <==> Closed(s, p))
  {
    if Closed(s + Chain(k, q, ids[k..]), p) {
      forall j | 0 < j <= |p| ensures p[..j] in s {
        if Between(k, q, p[..j]) {
          PrefixOf(q[..k + 1], p[..j], q);
          PrefixTrans(q[..k + 1], p[..j], p);
        }
      }
    }
  }

  lemma AddLeafTail(t: Tree, base: NodeId, q: seq<Page>, k: nat, p: seq<Page>, u: Tier)
    requires WF(t) && base in t && k < |q| && t[base].path == q[..k] && q[k] !in t[base].children
    requires q[..k + 1] <= p
    ensures p !in Slots(t, u)
  {
    forall m | m != ROOT ensures !Owns(t, m, p) {
      if Owns(t, m, p) {
        PrefixTrans(q[..k + 1], p, t[m].path);
        assert t[m].path[k] == q[..k + 1][k];
        var c := ChildToward(t, base, m);
      }
    }
    NoSlot(t, u, p);
  }

  /** Insert, where it is defined: on its tier exactly the unmapped prefixes of the query are added, each
      with the supplied unit at the same page; nothing else changes; the returned node is the query's
      node and the freed ids are those supplied for pages already mapped. */
  lemma InsertRefines(t: Tree, next: NodeId, u: Tier, q: seq<Page>, ids: seq<UnitId>, v: Tier)
    requires WF(t) && Below(t, next) && |ids| == |q|
    requires InsertPages(t, next, u, q, ids).Inserted?
    ensures var r := InsertPages(t, next, u, q, ids);
            && WF(r.tree) && Below(r.tree, r.next) && r.tail in r.tree && r.tree[r.tail].path == q
            && TierMap(r.tree, v) == (if v == u then Extended(TierMap(t, u), q, ids) else TierMap(t, v))
            && r.pages <= |q| && r.freed == ids[..|q| - r.pages] && Longest(TierMap(t, u), q, |q| - r.pages)
            && Reads(TierMap(r.tree, u), q, Collect(r.tree, r.tail, u))
  {
    WalkFindsLongest(t, next, q, u);
    WalkTracks(t, next, q, u);
    WalkTracks(t, next, q, v);
    InsertAtRefines(t, WalkTree(t, next, q), u, q, ids, v);
    var r := InsertPages(t, next, u, q, ids);
    CollectReads(r.tree, r.tail, u);
    ReadsMapped(r.tree, u, q, Collect(r.tree, r.tail, u));
  }

  lemma InsertAtRefines(t: Tree, w: Walk, u: Tier, q: seq<Page>, ids: seq<UnitId>, v: Tier)
    requires WF(t) && |ids| == |q| && WalkOk(w, q) && Slots(w.tree, u) == Slots(t, u) && Slots(w.tree, v) == Slots(t, v)
    requires Tracks(w, q, u, Slots(t, u)) && Longest(TierMap(t, u), q, w.matched[u])
    requires InsertAt(w, u, q, ids).Inserted?
    ensures var r := InsertAt(w, u, q, ids);
            && WF(r.tree) && Below(r.tree, r.next) && r.tail in r.tree && r.tree[r.tail].path == q
            && TierMap(r.tree, v) == (if v == u then Extended(TierMap(t, u), q, ids) else TierMap(t, v))
            && r.pages == |q| - w.matched[u] && r.freed == ids[..w.matched[u]]
            && Closed(Slots(r.tree, u), q)
  {
    if w.matched[u] == |q| {
      InsertFull(t, w, u, q, ids, v);
    } else {
      InsertLeaf(t, w, u, q, ids, v);
    }
  }

  lemma InsertFull(t: Tree, w: Walk, u: Tier, q: seq<Page>, ids: seq<UnitId>, v: Tier)
    requires WF(t) && |ids| == |q| && WF(w.tree) && Slots(w.tree, u) == Slots(t, u) && Slots(w.tree, v) == Slots(t, v)
    requires Closed(Slots(t, u), q[..|q|]) && Longest(TierMap(t, u), q, |q|)
    ensures TierMap(w.tree, v) == (if v == u then Extended(TierMap(t, u), q, ids) else TierMap(t, v))
    ensures Closed(Slots(w.tree, u), q) && q[..|q|] == q && ids[..|q|] == ids
  {
    hide WF, TierMap, Extended, Longest;
    assert q[..|q|] == q;
    AllMapped(TierMap(t, u), q, ids);
    SameMap(t, w.tree, v);
  }

  lemma AllMapped(m: Store, q: seq<Page>, ids: seq<UnitId>)
    requires |ids| == |q| && Longest(m, q, |q|)
    ensures Extended(m, q, ids) == m
  {
    forall p | p != [] && p <= q ensures p in m { assert p == q[..|p|]; }
  }

  lemma ReadsMapped(t: Tree, u: Tier, q: seq<Page>, ids: seq<UnitId>)
    requires WF(t) && Closed(Slots(t, u), q) && Reads(Slots(t, u), q, ids)
    ensures Reads(TierMap(t, u), q, ids)
  {
    forall j | 0 < j <= |q| ensures q[..j] in TierMap(t, u) { ClosedPrefix(Slots(t, u), q, j); }
  }

  lemma GrownSlots(w: Walk, u: Tier, q: seq<Page>, ids: seq<UnitId>, v: Tier)
    requires |ids| == |q| && WalkOk(w, q) && Tracks(w, q, u, Slots(w.tree, u))
    requires w.matched[u] < |q| && q[w.matched[u]] !in w.tree[w.last[u]].children
    ensures var m := w.matched[u]; var r := Grown(w, u, q, ids);
            && WF(r) && Below(r, w.next + 1) && r[w.next].path == q
            && Slots(r, v) == (if v == u then Slots(w.tree, u) + Chain(m, q, ids[m..]) else Slots(w.tree, v))
  {
    var base, m := w.last[u], w.matched[u];
    var res := map[u := Resource(ids[m..], 0, Ready, 0)];
    assert q[..m] + q[m..] == q;
    LeafSlots(w.tree, base, q, m, res, w.next, v);
    LeafStoreOf(m, q, ids[m..], u, v, Slots(w.tree, v));
  }

  lemma LeafStoreOf(m: nat, q: seq<Page>, ids: seq<UnitId>, u: Tier, v: Tier, s: Store)
    requires m <= |q| && |ids| == |q| - m
    ensures s + LeafStore(m, q, map[u := Resource(ids, 0, Ready, 0)], v) == if v == u then s + Chain(m, q, ids) else s
  {}

  lemma LeafSlots(t: Tree, base: NodeId, q: seq<Page>, m: nat, res: map<Tier, Resource>, born: NodeId, v: Tier)
    requires WF(t) && base in t && Below(t, born) && m < |q| && t[base].path + q[m..] == q && |t[base].path| == m
    requires q[m] !in t[base].children && forall u :: u in res ==> |res[u].ids| == |q| - m
    ensures var r := AddLeaf(t, base, q[m..], res, born);
            && WF(r) && Below(r, born + 1) && r[born].path == q
            && Slots(r, v) == Slots(t, v) + LeafStore(m, q, res, v)
  {
    hide WF, Slots, LeafStore;
    AddLeafSlots(t, base, q[m..], res, born, v);
  }

  lemma InsertLeaf(t: Tree, w: Walk, u: Tier, q: seq<Page>, ids: seq<UnitId>, v: Tier)
    requires WF(t) && |ids| == |q| && WalkOk(w, q) && Slots(w.tree, u) == Slots(t, u) && Slots(w.tree, v) == Slots(t, v)
    requires Tracks(w, q, u, Slots(t, u)) && w.matched[u] < |q| && q[w.matched[u]] !in w.tree[w.last[u]].children
    ensures var r := Grown(w, u, q, ids);
            && WF(r) && Below(r, w.next + 1) && r[w.next].path == q
            && TierMap(r, v) == (if v == u then Extended(TierMap(t, u), q, ids) else TierMap(t, v))
            && Closed(Slots(r, u), q)
  {
    var base, m := w.last[u], w.matched[u];
    var r := Grown(w, u, q, ids);
    GrownSlots(w, u, q, ids, v);
    GrownSlots(w, u, q, ids, u);
    ChainClosed(Slots(t, u), q, ids, m);
    if v == u {
      var s := Slots(t, u);
      forall p | q[..m + 1] <= p ensures p !in s { AddLeafTail(w.tree, base, q, m, p, u); }
      MapExtends(s, Slots(r, u), q, ids, m);
    } else {
      SameMap(t, r, v);
    }
  }

  lemma ChainClosed(s: Store, q: seq<Page>, ids: seq<UnitId>, k: nat)
    requires |ids| == |q| && k <= |q| && Closed(s, q[..k])
    ensures Closed(s + Chain(k, q, ids[k..]), q)
  {
    forall j | 0 < j <= |q| ensures q[..j] in s + Chain(k, q, ids[k..]) {
      if j <= k { assert q[..k][..j] == q[..j]; } else { assert Between(k, q, q[..j]); }
    }
  }

  // ---- when insert is defined --------------------------------------------------------------------

  /** Some node stores the page that ends `p`, on whatever tier and in whatever state. */
  ghost predicate Occupied(t: Tree, p: seq<Page>) {
    exists n :: n != ROOT && Owns(t, n, p)
  }

  lemma SplitOccupied(t: Tree, c: NodeId, k: nat, born: NodeId, p: seq<Page>)
    requires WF(t) && c in t && c != ROOT && born !in t && 0 < k < |t[c].seg|
    ensures ResourcesOk(t[c]) && Linked(t, c)
    ensures Occupied(SplitNode(t, c, k, born), p) <==> Occupied(t, p)
  {
    SplitKeeps(t, c, k, born);
    if n :| n != ROOT && Owns(t, n, p) {
      SplitOwns(t, c, k, born, n, p, Device);
    }
    if m :| m != ROOT && Owns(SplitNode(t, c, k, born), m, p) {
      SplitOwnsBack(t, c, k, born, m, p);
    }
  }

  lemma {:induction false} RunOccupied(w: Walk, q: seq<Page>, p: seq<Page>)
    requires WalkOk(w, q)
    ensures Occupied(Run(w, q).tree, p) <==> Occupied(w.tree, p)
    decreases |q| - w.consumed
  {
    if CanStep(w, q) {
      StepMoves(w, q);
      var c := w.tree[w.cur].children[q[w.consumed]];
      var k := StepPages(w.tree[c], q, w.consumed);
      if k < |w.tree[c].seg| { SplitOccupied(w.tree, c, k, w.next, p); }
      RunOccupied(Step(w, q), q, p);
    }
  }

  lemma ChildOccupies(t: Tree, base: NodeId, q: seq<Page>)
    requires WF(t) && base in t && t[base].path < q
    ensures q[|t[base].path|] in t[base].children <==> Occupied(t, q[..|t[base].path| + 1])
  {
    var m := |t[base].path|;
    var p := q[..m + 1];
    assert t[base].path == q[..m] && t[base].path < p && p[m] == q[m];
    if q[m] in t[base].children {
      assert ChildrenOk(t, base);
      var c := t[base].children[q[m]];
      assert Linked(t, c);
      assert p <= t[c].path;
      assert Owns(t, c, p);
    } else {
      forall n ensures !Owns(t, n, p) { NoOwnerBeyond(t, base, p, n); }
    }
  }

  lemma WalkOccupied(t: Tree, next: NodeId, q: seq<Page>, p: seq<Page>)
    requires WF(t) && Below(t, next)
    ensures Occupied(WalkTree(t, next, q).tree, p) <==> Occupied(t, p)
  {
    AllTiers();
    RunOccupied(Start(t, next), q, p);
  }

  /** Insert is defined exactly when the page after the matched prefix is not in the tree yet: not held
      by a node that lacks the tier, or has it pending. */
  lemma DanglingIff(t: Tree, next: NodeId, u: Tier, q: seq<Page>, ids: seq<UnitId>)
    requires WF(t) && Below(t, next) && |ids| == |q|
    ensures var m := WalkTree(t, next, q).matched[u];
            && Longest(TierMap(t, u), q, m)
            && (InsertPages(t, next, u, q, ids).Dangling? <==> m < |q| && Occupied(t, q[..m + 1]))
  {
    WalkFindsLongest(t, next, q, u);
    InsertAtDangling(t, WalkTree(t, next, q), next, u, q, ids);
  }

  lemma InsertAtDangling(t: Tree, w: Walk, next: NodeId, u: Tier, q: seq<Page>, ids: seq<UnitId>)
    requires WF(t) && Below(t, next) && |ids| == |q| && w == WalkTree(t, next, q) && w.matched[u] <= |q|
    requires w.last[u] in w.tree && w.tree[w.last[u]].path == q[..w.matched[u]]
    ensures InsertAt(w, u, q, ids).Dangling? <==> w.matched[u] < |q| && Occupied(t, q[..w.matched[u] + 1])
  {
    if w.matched[u] < |q| {
      WalkOccupied(t, next, q, q[..w.matched[u] + 1]);
      ChildOccupies(w.tree, w.last[u], q);
    }
  }

  // ---- dropping eviction -------------------------------------------------------------------------

  /** `n` holds tier `u` and nothing below it does. */
  ghost predicate Leafmost(t: Tree, u: Tier, n: NodeId) {
    && n in t && n != ROOT && u in t[n].res
    && forall m :: m in t && t[n].path < t[m].path ==> u !in t[m].res
  }

  /** Drop the resource, then prune. */
  function DropNode(t: Tree, n: NodeId, u: Tier): (r: Tree)
    requires WF(t) && n in t
    ensures WF(r)
  {
    DetachKeeps(t, n, u);
    Prune(Detach(t, n, u), n)
  }

  lemma MapWithout(s: Store, s': Store, b: nat, full: seq<Page>)
    requires s' == Without(s, b, full)
    requires forall p, j :: p in s && !Between(b, full, p) && 0 < j <= |p| ==> !Between(b, full, p[..j])
    ensures (imap p | p in s' && Closed(s', p) :: s'[p]) == Without(imap p | p in s && Closed(s, p) :: s[p], b, full)
  {
    forall p | p in s' ensures Closed(s', p) <==> Closed(s, p) {
      forall j | 0 < j <= |p| ensures p[..j] in s' <==> p[..j] in s {
        assert !Between(b, full, p[..j]);
      }
    }
  }

  /** Dropping a leafmost node removes exactly its own prefixes, on that tier alone. */
  lemma DropRefines(t: Tree, n: NodeId, u: Tier, v: Tier)
    requires WF(t) && Leafmost(t, u, n)
    ensures WF(DropNode(t, n, u)) && |t[n].seg| <= |t[n].path|
    ensures TierMap(DropNode(t, n, u), v)
         == if v == u then Without(TierMap(t, u), |t[n].path| - |t[n].seg|, t[n].path) else TierMap(t, v)
  {
    DetachSlots(t, n, u, v);
    PruneSlots(Detach(t, n, u), n, v);
    if v != u {
      SameMap(t, DropNode(t, n, u), v);
    } else {
      var full, b := t[n].path, |t[n].path| - |t[n].seg|;
      assert Linked(t, n);
      forall p, j | p in Slots(t, u) && !Between(b, full, p) && 0 < j <= |p| ensures !Between(b, full, p[..j]) {
        DropUnextended(t, n, u, p, j);
      }
      MapWithout(Slots(t, u), Slots(DropNode(t, n, u), u), b, full);
    }
  }

  lemma DropUnextended(t: Tree, n: NodeId, u: Tier, p: seq<Page>, j: nat)
    requires WF(t) && Leafmost(t, u, n) && Linked(t, n) && 0 < j <= |p|
    requires p in Slots(t, u) && !Between(|t[n].path| - |t[n].seg|, t[n].path, p)
    ensures !Between(|t[n].path| - |t[n].seg|, t[n].path, p[..j])
  {
    if Owns(t, n, p[..j]) { LeafOwner(t, n, u, p, j); }
  }

  /** What is stored beyond a prefix that a leafmost node stores, it stores itself. */
  lemma LeafOwner(t: Tree, n: NodeId, u: Tier, p: seq<Page>, j: nat)
    requires WF(t) && Leafmost(t, u, n) && 0 < j <= |p| && p in Slots(t, u) && Owns(t, n, p[..j])
    ensures Owns(t, n, p)
  {
    var m :| m != ROOT && Owns(t, m, p) && ReadyAt(t, m, u);
    PrefixTrans(p[..j], p, t[m].path);
    OwnerAbove(t, m, n, p[..j]);
    assert t[n].path == t[m].path;
    SamePath(t, n, m, |t[n].path| + 1);
  }
}
