/** Runs of match, insert and dropping eviction: each tier behaves as a finite map. */
module RadixRuns {
  import opened RadixPages
  import opened RadixTree
  import opened RadixSlots
  import opened RadixWalk
  import opened RadixStore

  // ---- upward closure ----------------------------------------------------------------------------

  ghost predicate UpAt(t: Tree, n: NodeId)
    requires n in t
  {
    t[n].parent in t && (t[n].parent == ROOT || t[n].res.Keys <= t[t[n].parent].res.Keys)
  }

  /** A node that holds a tier has every ancestor, root aside, hold it. */
  ghost predicate UpClosed(t: Tree) {
    forall n {:trigger UpAt(t, n)} :: n in t && n != ROOT ==> UpAt(t, n)
  }

  /** The closure, along the whole way up rather than one step. */
  lemma {:induction false} UpClosedAncestors(t: Tree, a: NodeId, n: NodeId, u: Tier)
    requires WF(t) && UpClosed(t) && a in t && a != ROOT && n in t && t[a].path <= t[n].path && u in t[n].res
    ensures u in t[a].res
    decreases |t[n].path|
  {
    assert n != ROOT && Linked(t, n) && UpAt(t, n) && Linked(t, a);
    var pn := t[n].parent;
    if t[a].path == t[n].path {
      SamePath(t, a, n, |t[n].path| + 1);
    } else if |t[a].path| <= |t[pn].path| {
      PrefixOf(t[a].path, t[pn].path, t[n].path);
      UpClosedAncestors(t, a, pn, u);
    } else {
      assert Owns(t, n, t[a].path) && Owns(t, a, t[a].path);
      OwnerUnique(t, a, n, t[a].path);
      assert false;
    }
  }

  lemma SplitUp(t: Tree, c: NodeId, k: nat, born: NodeId)
    requires WF(t) && UpClosed(t) && c in t && c != ROOT && born !in t && 0 < k < |t[c].seg|
    ensures ResourcesOk(t[c]) && Linked(t, c)
    ensures UpClosed(SplitNode(t, c, k, born))
  {
    SplitKeeps(t, c, k, born);
    var r := SplitNode(t, c, k, born);
    forall n | n in r && n != ROOT ensures UpAt(r, n) {
      assert UpAt(t, c);
      assert t[c].parent != c;
      if n != born { assert UpAt(t, n); }
    }
  }

  lemma {:induction false} RunUp(w: Walk, q: seq<Page>)
    requires WalkOk(w, q) && UpClosed(w.tree)
    ensures UpClosed(Run(w, q).tree)
    decreases |q| - w.consumed
  {
    if CanStep(w, q) {
      StepMoves(w, q);
      var c := w.tree[w.cur].children[q[w.consumed]];
      var k := StepPages(w.tree[c], q, w.consumed);
      if k < |w.tree[c].seg| { SplitUp(w.tree, c, k, w.next); }
      RunUp(Step(w, q), q);
    }
  }

  lemma WalkUp(t: Tree, next: NodeId, q: seq<Page>)
    requires WF(t) && UpClosed(t) && Below(t, next)
    ensures UpClosed(WalkTree(t, next, q).tree)
  {
    AllTiers();
    RunUp(Start(t, next), q);
  }

  /** A node on whose way every page of tier `u` is stored holds `u`. */
  lemma CoveredHolds(t: Tree, n: NodeId, u: Tier)
    requires WF(t) && n in t && n != ROOT && Closed(Slots(t, u), t[n].path)
    ensures ReadyAt(t, n, u)
  {
    assert Linked(t, n);
    var p := t[n].path;
    assert p[..|p|] == p && Owns(t, n, p);
    SlotAt(t, u, n, p);
  }

  lemma InsertUp(t: Tree, next: NodeId, u: Tier, q: seq<Page>, ids: seq<UnitId>)
    requires WF(t) && UpClosed(t) && Below(t, next) && |ids| == |q|
    ensures UpClosed(InsertPages(t, next, u, q, ids).tree)
  {
    WalkUp(t, next, q);
    WalkFindsLongest(t, next, q, u);
    WalkTracks(t, next, q, u);
    GrownUp(WalkTree(t, next, q), u, q, ids);
  }

  lemma GrownUp(w: Walk, u: Tier, q: seq<Page>, ids: seq<UnitId>)
    requires WalkOk(w, q) && |ids| == |q| && UpClosed(w.tree) && Tracks(w, q, u, Slots(w.tree, u))
    ensures UpClosed(InsertAt(w, u, q, ids).tree)
  {
    hide Slots, ReadyAt, StoredId, WF;
    var base, m := w.last[u], w.matched[u];
    if base != ROOT { CoveredHolds(w.tree, base, u); }
    if m < |q| {
      var r := Grown(w, u, q, ids);
      forall n | n in r && n != ROOT ensures UpAt(r, n) {
        if n != w.next { assert UpAt(w.tree, n); }
      }
    }
  }

  lemma DropUp(t: Tree, n: NodeId, u: Tier)
    requires WF(t) && UpClosed(t) && Leafmost(t, u, n)
    ensures UpClosed(DropNode(t, n, u))
  {
    DetachKeeps(t, n, u);
    var r := Detach(t, n, u);
    forall m | m in r && m != ROOT ensures UpAt(r, m) {
      assert UpAt(t, m) && Linked(t, m);
      if t[m].parent == n { assert t[n].path < t[m].path; }
    }
    PruneUp(r, n);
  }

  lemma {:induction false} PruneUp(t: Tree, n: NodeId)
    requires WF(t) && UpClosed(t)
    ensures UpClosed(Prune(t, n))
    decreases |t|
  {
    if n in t && n != ROOT && Orphan(t[n]) {
      UnlinkKeeps(t, n);
      var r := Unlink(t, n);
      forall m | m in r && m != ROOT ensures UpAt(r, m) {
        assert UpAt(t, m) && Linked(t, m);
      }
      PruneUp(r, t[n].parent);
    }
  }

  // ---- one tier per node -------------------------------------------------------------------------

  ghost predicate One(nd: Node) {
    exists u :: nd.res.Keys == {u} && nd.res[u].state == Ready
  }

  /** Without demotion or promotion every node holds one ready resource, of its parent's tier. */
  ghost predicate SoleTiers(t: Tree) {
    UpClosed(t) && forall n {:trigger One(t[n])} :: n in t && n != ROOT ==> One(t[n])
  }

  lemma SplitSole(t: Tree, c: NodeId, k: nat, born: NodeId)
    requires WF(t) && SoleTiers(t) && c in t && c != ROOT && born !in t && 0 < k < |t[c].seg|
    ensures ResourcesOk(t[c]) && Linked(t, c)
    ensures SoleTiers(SplitNode(t, c, k, born))
  {
    hide WF, ResourcesOk, Linked;
    SplitUp(t, c, k, born);
    var r := SplitNode(t, c, k, born);
    assert One(t[c]);
    var u :| t[c].res.Keys == {u} && t[c].res[u].state == Ready;
    assert r[c].res.Keys == {u} && r[born].res.Keys == {u};
    forall n | n in r && n != ROOT ensures One(r[n]) {
      if n != born && n != c {
        assert One(t[n]) && r[n].res == t[n].res;
      }
    }
  }

  lemma {:induction false} RunSole(w: Walk, q: seq<Page>)
    requires WalkOk(w, q) && SoleTiers(w.tree)
    ensures SoleTiers(Run(w, q).tree)
    decreases |q| - w.consumed
  {
    if CanStep(w, q) {
      StepMoves(w, q);
      var c := w.tree[w.cur].children[q[w.consumed]];
      var k := StepPages(w.tree[c], q, w.consumed);
      if k < |w.tree[c].seg| { SplitSole(w.tree, c, k, w.next); }
      RunSole(Step(w, q), q);
    }
  }

  lemma WalkSole(t: Tree, next: NodeId, q: seq<Page>)
    requires WF(t) && SoleTiers(t) && Below(t, next)
    ensures SoleTiers(WalkTree(t, next, q).tree)
  {
    AllTiers();
    RunSole(Start(t, next), q);
  }

  lemma InsertSole(t: Tree, next: NodeId, u: Tier, q: seq<Page>, ids: seq<UnitId>)
    requires WF(t) && SoleTiers(t) && Below(t, next) && |ids| == |q|
    ensures SoleTiers(InsertPages(t, next, u, q, ids).tree)
  {
    WalkSole(t, next, q);
    InsertUp(t, next, u, q, ids);
    WalkFindsLongest(t, next, q, u);
    GrownOne(WalkTree(t, next, q), u, q, ids);
  }

  lemma GrownOne(w: Walk, u: Tier, q: seq<Page>, ids: seq<UnitId>)
    requires WalkOk(w, q) && |ids| == |q| && SoleTiers(w.tree) && w.matched[u] <= |q| && w.last[u] in w.tree
    ensures var r := InsertAt(w, u, q, ids).tree; forall n :: n in r && n != ROOT ==> One(r[n])
  {
    if w.matched[u] < |q| {
      var r := Grown(w, u, q, ids);
      assert r[w.next].res.Keys == {u} && r[w.next].res[u].state == Ready;
      forall n | n in r && n != ROOT ensures One(r[n]) {
        if n != w.next { assert One(w.tree[n]) && r[n].res == w.tree[n].res; }
      }
    }
  }

  lemma ChildHolds(t: Tree, n: NodeId, u: Tier, k: Page)
    requires WF(t) && SoleTiers(t) && n in t && n != ROOT && u in t[n].res && k in t[n].children
    ensures var c := t[n].children[k]; c in t && t[n].path < t[c].path && u in t[c].res
  {
    assert ChildrenOk(t, n);
    var c := t[n].children[k];
    assert Linked(t, c) && UpAt(t, c) && One(t[c]) && One(t[n]);
    var v :| t[c].res.Keys == {v};
    assert v in t[n].res;
  }

  /** With one tier per node, dropping a leafmost node removes the node and stops there. */
  lemma DropSole(t: Tree, n: NodeId, u: Tier)
    requires WF(t) && SoleTiers(t) && Leafmost(t, u, n)
    ensures SoleTiers(DropNode(t, n, u))
    ensures n !in DropNode(t, n, u) && DropNode(t, n, u).Keys == t.Keys - {n}
  {
    DropUp(t, n, u);
    DetachKeeps(t, n, u);
    var d := Detach(t, n, u);
    assert One(t[n]) && Linked(t, n);
    assert d[n].res == map[];
    if k :| k in t[n].children {
      ChildHolds(t, n, u, k);
    }
    assert Orphan(d[n]);
    UnlinkKeeps(d, n);
    var r, p := Unlink(d, n), t[n].parent;
    if p != ROOT {
      assert One(t[p]);
      assert r[p].res == t[p].res && t[p].res != map[];
    }
    assert Prune(r, p) == r;
    forall m | m in r && m != ROOT ensures One(r[m]) { assert One(t[m]) && r[m].res == t[m].res; }
  }

  // ---- when insert is defined, in terms of the maps ----------------------------------------------

  lemma TierOf(t: Tree, n: NodeId) returns (u: Tier)
    requires WF(t) && SoleTiers(t) && n in t && n != ROOT
    ensures t[n].res.Keys == {u} && ReadyAt(t, n, u)
    ensures t[n].parent in t && (t[n].parent == ROOT || t[t[n].parent].res.Keys == {u})
  {
    assert One(t[n]) && UpAt(t, n);
    u :| t[n].res.Keys == {u} && t[n].res[u].state == Ready;
    var p := t[n].parent;
    if p != ROOT {
      assert One(t[p]);
      var v :| t[p].res.Keys == {v};
      assert u in t[p].res;
    }
  }

  /** Some other tier already maps the query's first page. */
  ghost predicate MappedElsewhere(t: Tree, u: Tier, q: seq<Page>)
    requires WF(t)
  {
    q != [] && exists v: Tier :: v != u && q[..1] in TierMap(t, v)
  }

  lemma FirstPage(t: Tree, u: Tier, q: seq<Page>)
    requires WF(t) && q != []
    ensures q[..1] in TierMap(t, u) <==> q[..1] in Slots(t, u)
  {
    if q[..1] in Slots(t, u) {
      forall j | 0 < j <= 1 ensures q[..1][..j] in Slots(t, u) { assert q[..1][..j] == q[..1]; }
    }
  }

  /** In runs that never demote, insert is defined exactly when no other tier maps the first page. */
  lemma DanglingIffElsewhere(t: Tree, next: NodeId, u: Tier, q: seq<Page>, ids: seq<UnitId>)
    requires WF(t) && SoleTiers(t) && Below(t, next) && |ids| == |q|
    ensures InsertPages(t, next, u, q, ids).Dangling? <==> MappedElsewhere(t, u, q)
  {
    DanglingIff(t, next, u, q, ids);
    BlockedIffElsewhere(t, u, q, WalkTree(t, next, q).matched[u]);
  }

  lemma BlockedIffElsewhere(t: Tree, u: Tier, q: seq<Page>, m: nat)
    requires WF(t) && SoleTiers(t) && Longest(TierMap(t, u), q, m)
    ensures m < |q| && Occupied(t, q[..m + 1]) <==> MappedElsewhere(t, u, q)
  {
    hide SoleTiers, WF, Longest, TierMap, Owns;
    if MappedElsewhere(t, u, q) {
      var v :| v != u && q[..1] in TierMap(t, v);
      ElsewhereBlocks(t, u, v, q, m);
    }
    if m < |q| && Occupied(t, q[..m + 1]) {
      var n :| n != ROOT && Owns(t, n, q[..m + 1]);
      BlockedElsewhere(t, u, q, m, n);
    }
  }

  lemma ElsewhereBlocks(t: Tree, u: Tier, v: Tier, q: seq<Page>, m: nat)
    requires WF(t) && SoleTiers(t) && q != [] && v != u && q[..1] in TierMap(t, v) && Longest(TierMap(t, u), q, m)
    ensures m == 0 && Occupied(t, q[..1])
  {
    hide SoleTiers, WF, StoredId, Owns, ChildrenOk, One, UpClosed;
    var n :| n != ROOT && Owns(t, n, q[..1]) && ReadyAt(t, n, v);
    var x := TierOf(t, n);
    SlotAt(t, u, n, q[..1]);
  }

  lemma BlockedElsewhere(t: Tree, u: Tier, q: seq<Page>, m: nat, n: NodeId)
    requires WF(t) && SoleTiers(t) && m < |q| && n != ROOT && Owns(t, n, q[..m + 1]) && Longest(TierMap(t, u), q, m)
    ensures MappedElsewhere(t, u, q)
  {
    var v := TierOf(t, n);
    SlotAt(t, v, n, q[..m + 1]);
    Unmapped(t, u, q, m);
    if m == 0 {
      FirstPage(t, v, q);
    } else {
      assert q[..m] in TierMap(t, u);
      SameTier(t, u, q, m, n, v);
    }
  }

  /** The node storing the next page continues the tier of the page before it. */
  lemma SameTier(t: Tree, u: Tier, q: seq<Page>, m: nat, n: NodeId, v: Tier)
    requires WF(t) && SoleTiers(t) && 0 < m < |q| && n != ROOT && Owns(t, n, q[..m + 1]) && q[..m] in Slots(t, u)
    requires t[n].res.Keys == {v} && t[n].parent in t && (t[n].parent == ROOT || t[t[n].parent].res.Keys == {v})
    ensures v == u
  {
    var a :| a != ROOT && Owns(t, a, q[..m]) && ReadyAt(t, a, u);
    assert Linked(t, n);
    assert q[..m] == q[..m + 1][..m];
    PrefixTrans(q[..m], q[..m + 1], t[n].path);
    var pn := t[n].parent;
    if Owns(t, n, q[..m]) {
      OwnerUnique(t, a, n, q[..m]);
    } else {
      PrefixOf(q[..m], t[pn].path, t[n].path);
      assert pn != ROOT;
      assert Linked(t, pn);
      OwnerUnique(t, a, pn, q[..m]);
    }
  }

  lemma Unmapped(t: Tree, u: Tier, q: seq<Page>, m: nat)
    requires WF(t) && m < |q| && Longest(TierMap(t, u), q, m)
    ensures q[..m + 1] !in Slots(t, u)
  {
    if q[..m + 1] in Slots(t, u) {
      var p := q[..m + 1];
      forall j | 0 < j <= |p| ensures p[..j] in Slots(t, u) {
        assert p[..j] == q[..j];
        if j <= m { assert q[..j] in TierMap(t, u); }
      }
    }
  }

  // ---- runs --------------------------------------------------------------------------------------

  datatype Op =
    | Match(q: seq<Page>)
    | Put(u: Tier, q: seq<Page>, ids: seq<UnitId>)
    | Drop(u: Tier, n: NodeId)

  /** What a caller sees of one operation. */
  datatype Seen =
    | Matched(q: seq<Page>, lens: map<Tier, nat>, chains: map<Tier, seq<UnitId>>)
    | Stored(u: Tier, q: seq<Page>, ids: seq<UnitId>, freed: seq<UnitId>, got: seq<UnitId>)
    | Dropped(u: Tier, base: nat, leaf: seq<Page>, freed: seq<UnitId>)
    | Nothing

  datatype Outcome = Done(tree: Tree, next: NodeId, seen: Seen) | Undefined

  ghost predicate Inv(t: Tree, next: NodeId) {
    WF(t) && Below(t, next) && SoleTiers(t)
  }

  /** One operation. An eviction loop only reaches leafmost nodes, and passes over those not evictable. */
  ghost function Apply(t: Tree, next: NodeId, op: Op): Outcome
    requires WF(t) && Below(t, next)
  {
    match op
    case Match(q) =>
      var w := WalkTree(t, next, q);
      Done(w.tree, w.next, Matched(q, w.matched,
           map u | u in TIERS :: WalkFindsLongest(t, next, q, u); Collect(w.tree, w.last[u], u)))
    case Put(u, q, ids) =>
      if |ids| != |q| then Done(t, next, Nothing) else
        var r := InsertPages(t, next, u, q, ids);
        if r.Dangling? then Undefined else
          InsertRefines(t, next, u, q, ids, u);
          Done(r.tree, r.next, Stored(u, q, ids, r.freed, Collect(r.tree, r.tail, u)))
    case Drop(u, n) =>
      if Leafmost(t, u, n) && Evictable(t[n].res[u]) then Done(DropNode(t, n, u), next, DropSeen(t, u, n))
      else Done(t, next, Nothing)
  }

  ghost function DropSeen(t: Tree, u: Tier, n: NodeId): Seen
    requires WF(t) && n in t && n != ROOT && u in t[n].res
  {
    assert Linked(t, n);
    Dropped(u, |t[n].path| - |t[n].seg|, t[n].path, t[n].res[u].ids)
  }

  type Maps = PerTier<Store>

  ghost function AbsOf(t: Tree): Maps
    requires WF(t)
  {
    PerTier(TierMap(t, Device), TierMap(t, Host), TierMap(t, Disk), TierMap(t, Remote))
  }

  lemma AbsAt(t: Tree, u: Tier)
    requires WF(t)
    ensures AbsOf(t).At(u) == TierMap(t, u)
  {}

  ghost predicate ElsewhereIn(m: Maps, u: Tier, q: seq<Page>) {
    q != [] && exists v: Tier :: v != u && q[..1] in m.At(v)
  }

  /** What a collection of finite maps allows to be seen. */
  ghost predicate Allowed(m: Maps, e: Seen) {
    match e
    case Matched(q, lens, got) =>
      forall u: Tier :: u in lens && u in got && Longest(m.At(u), q, lens[u]) && Reads(m.At(u), q[..lens[u]], got[u])
    case Stored(u, q, ids, freed, got) =>
      && !ElsewhereIn(m, u, q) && |ids| == |q|
      && Reads(Extended(m.At(u), q, ids), q, got)
      && |freed| <= |q| && Longest(m.At(u), q, |freed|) && freed == ids[..|freed|]
    case Dropped(u, base, leaf, freed) =>
      && base < |leaf| && (forall p :: p in m.At(u) && leaf <= p ==> p == leaf)
      && |freed| == |leaf| - base
      && (forall j :: base < j <= |leaf| ==> leaf[..j] in m.At(u) && freed[j - 1 - base] == m.At(u)[leaf[..j]])
    case Nothing => true
  }

  /** What it does to them. */
  ghost function Effect(m: Maps, e: Seen): Maps
    requires Allowed(m, e)
  {
    hide WF, TierMap;
    match e
    case Stored(u, q, ids, freed, got) => m.With(u, Extended(m.At(u), q, ids))
    case Dropped(u, base, leaf, freed) => m.With(u, Without(m.At(u), base, leaf))
    case _ => m
  }

  /** Each operation is one the maps allow, with the same effect; it is undefined exactly when it inserts
      on one tier a query whose first page another tier maps. */
  lemma ApplyRefines(t: Tree, next: NodeId, op: Op)
    requires Inv(t, next)
    ensures Apply(t, next, op).Undefined? <==> op.Put? && |op.ids| == |op.q| && ElsewhereIn(AbsOf(t), op.u, op.q)
    ensures Apply(t, next, op).Done? ==>
              var r := Apply(t, next, op);
              Inv(r.tree, r.next) && Allowed(AbsOf(t), r.seen) && AbsOf(r.tree) == Effect(AbsOf(t), r.seen)
  {
    AllTiers();
    match op
    case Match(q) => MatchRefines(t, next, q);
    case Put(u, q, ids) => if |ids| == |q| { PutRefines(t, next, u, q, ids); }
    case Drop(u, n) => if Leafmost(t, u, n) && Evictable(t[n].res[u]) { EvictRefines(t, u, n, next); }
  }

  lemma MatchTier(t: Tree, next: NodeId, q: seq<Page>, u: Tier)
    requires WF(t) && Below(t, next)
    ensures var w := WalkTree(t, next, q);
            && TierMap(w.tree, u) == TierMap(t, u) && Longest(TierMap(t, u), q, w.matched[u])
            && w.last[u] in w.tree && Reads(TierMap(t, u), q[..w.matched[u]], Collect(w.tree, w.last[u], u))
  {
    WalkFindsLongest(t, next, q, u);
    WalkTracks(t, next, q, u);
    var w := WalkTree(t, next, q);
    CollectReads(w.tree, w.last[u], u);
    ReadsMapped(w.tree, u, q[..w.matched[u]], Collect(w.tree, w.last[u], u));
  }

  lemma UpdatedAbs(t: Tree, r: Tree, u: Tier, m: Store)
    requires WF(t) && WF(r) && forall v: Tier :: TierMap(r, v) == if v == u then m else TierMap(t, v)
    ensures AbsOf(r) == AbsOf(t).With(u, m)
  {
    match u case Device => case Host => case Disk => case Remote =>
  }

  lemma MatchRefines(t: Tree, next: NodeId, q: seq<Page>)
    requires Inv(t, next)
    ensures var r := Apply(t, next, Match(q));
            r.Done? && Inv(r.tree, r.next) && Allowed(AbsOf(t), r.seen) && AbsOf(r.tree) == AbsOf(t)
  {
    hide WF, TierMap, SoleTiers, Reads;
    WalkSole(t, next, q);
    var r := Apply(t, next, Match(q));
    AllTiers();
    forall u: Tier
      ensures TierMap(r.tree, u) == TierMap(t, u) && u in r.seen.lens && u in r.seen.chains
      ensures Longest(AbsOf(t).At(u), q, r.seen.lens[u]) && Reads(AbsOf(t).At(u), q[..r.seen.lens[u]], r.seen.chains[u])
    {
      MatchTier(t, next, q, u);
      AbsAt(t, u);
    }
  }

  lemma PutRefines(t: Tree, next: NodeId, u: Tier, q: seq<Page>, ids: seq<UnitId>)
    requires Inv(t, next) && |ids| == |q|
    ensures Apply(t, next, Put(u, q, ids)).Undefined? <==> ElsewhereIn(AbsOf(t), u, q)
    ensures Apply(t, next, Put(u, q, ids)).Done? ==>
              var r := Apply(t, next, Put(u, q, ids));
              Inv(r.tree, r.next) && Allowed(AbsOf(t), r.seen) && AbsOf(r.tree) == Effect(AbsOf(t), r.seen)
  {
    hide SoleTiers, WF, Below, TierMap, Longest, Reads, Extended, MappedElsewhere, ElsewhereIn, Collect, AbsOf;
    DanglingIffElsewhere(t, next, u, q, ids);
    ElsewhereAgrees(t, u, q);
    if !MappedElsewhere(t, u, q) {
      InsertSole(t, next, u, q, ids);
      InsertRefines(t, next, u, q, ids, u);
      InsertMaps(t, next, u, q, ids);
      AbsAt(t, u);
    }
  }

  lemma ElsewhereAgrees(t: Tree, u: Tier, q: seq<Page>)
    requires WF(t)
    ensures MappedElsewhere(t, u, q) <==> ElsewhereIn(AbsOf(t), u, q)
  {
    forall v: Tier ensures AbsOf(t).At(v) == TierMap(t, v) { AbsAt(t, v); }
  }

  lemma InsertMaps(t: Tree, next: NodeId, u: Tier, q: seq<Page>, ids: seq<UnitId>)
    requires WF(t) && Below(t, next) && |ids| == |q| && InsertPages(t, next, u, q, ids).Inserted?
    ensures WF(InsertPages(t, next, u, q, ids).tree)
    ensures AbsOf(InsertPages(t, next, u, q, ids).tree) == AbsOf(t).With(u, Extended(TierMap(t, u), q, ids))
  {
    InsertRefines(t, next, u, q, ids, u);
    var r := InsertPages(t, next, u, q, ids).tree;
    var m := Extended(TierMap(t, u), q, ids);
    forall v: Tier ensures TierMap(r, v) == if v == u then m else TierMap(t, v) {
      InsertRefines(t, next, u, q, ids, v);
    }
    UpdatedAbs(t, r, u, m);
  }

  lemma EvictMaps(t: Tree, u: Tier, n: NodeId)
    requires WF(t) && Leafmost(t, u, n) && Allowed(AbsOf(t), DropSeen(t, u, n))
    ensures AbsOf(DropNode(t, n, u)) == Effect(AbsOf(t), DropSeen(t, u, n))
  {
    hide TierMap;
    assert Linked(t, n);
    var m := Without(TierMap(t, u), |t[n].path| - |t[n].seg|, t[n].path);
    var r := DropNode(t, n, u);
    forall v: Tier ensures TierMap(r, v) == if v == u then m else TierMap(t, v) {
      DropRefines(t, n, u, v);
    }
    UpdatedAbs(t, r, u, m);
    AbsAt(t, u);
  }

  lemma EvictRefines(t: Tree, u: Tier, n: NodeId, next: NodeId)
    requires Inv(t, next) && Leafmost(t, u, n) && Evictable(t[n].res[u])
    ensures var r := Apply(t, next, Drop(u, n));
            r.Done? && Inv(r.tree, r.next) && Allowed(AbsOf(t), r.seen) && AbsOf(r.tree) == Effect(AbsOf(t), r.seen)
  {
    hide SoleTiers, WF, AbsOf;
    assert Apply(t, next, Drop(u, n)) == Done(DropNode(t, n, u), next, DropSeen(t, u, n));
    DropSole(t, n, u);
    EvictAllowed(t, u, n);
    EvictMaps(t, u, n);
  }

  lemma EvictAllowed(t: Tree, u: Tier, n: NodeId)
    requires WF(t) && SoleTiers(t) && Leafmost(t, u, n)
    ensures Allowed(AbsOf(t), DropSeen(t, u, n))
  {
    hide WF, SoleTiers, AbsOf, TierMap;
    LeafReads(t, u, n);
    LeafIsLast(t, u, n);
    AbsAt(t, u);
  }

  lemma {:induction false} SoleCovered(t: Tree, u: Tier, n: NodeId)
    requires WF(t) && SoleTiers(t) && n in t && n != ROOT && u in t[n].res
    ensures Closed(Slots(t, u), t[n].path)
    decreases |t[n].path|
  {
    var v := TierOf(t, n);
    assert Linked(t, n);
    var pn := t[n].parent;
    var full, b := t[n].path, |t[pn].path|;
    if pn != ROOT { SoleCovered(t, u, pn); }
    assert t[pn].path == full[..b];
    forall j | b < j <= |full| ensures full[..j] in Slots(t, u) {
      assert Owns(t, n, full[..j]);
      SlotAt(t, u, n, full[..j]);
    }
    ClosedExtend(Slots(t, u), full, b, |full|);
    assert full[..|full|] == full;
  }

  lemma LeafReads(t: Tree, u: Tier, n: NodeId)
    requires WF(t) && SoleTiers(t) && n in t && n != ROOT && u in t[n].res
    ensures Linked(t, n) && |t[n].res[u].ids| == |t[n].seg|
    ensures var full, b := t[n].path, |t[n].path| - |t[n].seg|;
            forall j :: b < j <= |full| ==> full[..j] in TierMap(t, u) && t[n].res[u].ids[j - 1 - b] == TierMap(t, u)[full[..j]]
  {
    assert Linked(t, n) && ResourcesOk(t[n]);
    SoleCovered(t, u, n);
    var full, b := t[n].path, |t[n].path| - |t[n].seg|;
    forall j | b < j <= |full|
      ensures full[..j] in TierMap(t, u) && t[n].res[u].ids[j - 1 - b] == TierMap(t, u)[full[..j]]
    {
      ClosedPrefix(Slots(t, u), full, j);
      SegmentReads(t, n, u, j);
    }
  }

  lemma LeafIsLast(t: Tree, u: Tier, n: NodeId)
    requires WF(t) && Leafmost(t, u, n)
    ensures forall p :: p in TierMap(t, u) && t[n].path <= p ==> p == t[n].path
  {
    assert Linked(t, n);
    forall p | p in TierMap(t, u) && t[n].path <= p ensures p == t[n].path {
      var m :| m != ROOT && Owns(t, m, p) && ReadyAt(t, m, u);
      PrefixTrans(t[n].path, p, t[m].path);
      if t[n].path == t[m].path { SamePath(t, n, m, |t[n].path| + 1); }
    }
  }

  /** A run: the operations that took place, and what was seen of each. */
  datatype Trace = Trace(tree: Tree, next: NodeId, seen: seq<Seen>, stuck: bool)

  ghost function Exec(t: Tree, next: NodeId, ops: seq<Op>): Trace
    requires Inv(t, next)
    decreases |ops|
  {
    if ops == [] then Trace(t, next, [], false) else
      ApplyRefines(t, next, ops[0]);
      match Apply(t, next, ops[0])
      case Undefined => Trace(t, next, [], true)
      case Done(t', next', e) =>
        var r := Exec(t', next', ops[1..]);
        r.(seen := [e] + r.seen)
  }

  ghost predicate AllAllowed(m: Maps, es: seq<Seen>)
    decreases |es|
  {
    es == [] || (Allowed(m, es[0]) && AllAllowed(Effect(m, es[0]), es[1..]))
  }

  ghost function Effects(m: Maps, es: seq<Seen>): Maps
    requires AllAllowed(m, es)
    decreases |es|
  {
    if es == [] then m else Effects(Effect(m, es[0]), es[1..])
  }

  /** Over every run from an invariant state the cache is observationally a finite map per tier. It stops
      only in front of an insert whose first page another tier maps. */
  lemma {:induction false} RunRefines(t: Tree, next: NodeId, ops: seq<Op>)
    requires Inv(t, next)
    ensures var r := Exec(t, next, ops);
            && Inv(r.tree, r.next) && AllAllowed(AbsOf(t), r.seen) && AbsOf(r.tree) == Effects(AbsOf(t), r.seen)
            && |r.seen| <= |ops|
            && (r.stuck <==> |r.seen| < |ops|)
            && (r.stuck ==> var op := ops[|r.seen|]; op.Put? && ElsewhereIn(AbsOf(r.tree), op.u, op.q))
    decreases |ops|
  {
    if ops != [] {
      ApplyRefines(t, next, ops[0]);
      var a := Apply(t, next, ops[0]);
      if a.Done? {
        RunRefines(a.tree, a.next, ops[1..]);
        var r := Exec(a.tree, a.next, ops[1..]);
        assert ([a.seen] + r.seen)[1..] == r.seen;
      }
    }
  }

  /** The new cache is empty on every tier. */
  lemma EmptyStart()
    ensures Inv(EMPTY, 1) && AbsOf(EMPTY) == PerTier(imap[], imap[], imap[], imap[])
  {
    assert forall n :: n in EMPTY ==> n == ROOT;
    forall u, p ensures p !in Slots(EMPTY, u) { NoSlot(EMPTY, u, p); }
  }

  /** Caching one page on two tiers is such an undefined insert: the second one stops the run. */
  lemma SecondTierStops(page: Page, id: UnitId)
    ensures Inv(EMPTY, 1)
    ensures Exec(EMPTY, 1, [Put(Device, [page], [id]), Put(Host, [page], [id])]).stuck
  {
    hide WF, Below, SoleTiers;
    EmptyStart();
    var ops := [Put(Device, [page], [id]), Put(Host, [page], [id])];
    ApplyRefines(EMPTY, 1, ops[0]);
    var a := Apply(EMPTY, 1, ops[0]);
    assert [page][..1] == [page] && [page] in AbsOf(a.tree).At(Device);
    ApplyRefines(a.tree, a.next, ops[1]);
    assert ops[1..][0] == ops[1];
  }
}
