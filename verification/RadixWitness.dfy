/** Runs on a new cache in which the code loses track: four that part the table of operations from the pending
    resources, and one in which a released pin leaves a node locked. */
module RadixWitness {
  import opened Basics
  import opened RadixPages
  import opened RadixTree
  import opened RadixSlots
  import opened RadixUnits
  import opened RadixStore
  import opened RadixCache
  import opened RadixCapacity
  import opened RadixInflight
  import opened RadixPins
  import opened RadixSystem
  import opened RadixTidy
  import W = RadixWalk

  /** Three tiers of two units each, without caps. */
  const SMALL := Config({Device, Host, Disk}, PerTier(3, 3, 3, 0), PerTier(0, 0, 0, 0))

  /** Caching the pages of `q` on the device. */
  function Caching(q: seq<Page>): seq<Act> {
    [Allocate(Device, |q|), Insert(Device, q, 0)]
  }

  /** One node below the root, holding `q` on the device. */
  function OneNode(cfg: Config, q: seq<Page>): Cache
    requires 0 < |q| < cfg.total.device
  {
    var f := Fresh(cfg.total.device);
    Cache(map[ROOT := Node(ROOT, [], [], map[q[0] := 1], map[]),
              1 := Node(ROOT, q, q, map[], map[Device := Resource(Popped(f, |q|), 0, Ready, 0)])],
          2, NewCache(cfg).free.(device := f[..|f| - |q|]), map[], PerTier(0, 0, 0, 0), 1)
  }

  /** The first insertion into a new cache is one leaf. */
  lemma FirstInsert(cfg: Config, q: seq<Page>, ids: seq<UnitId>)
    requires |ids| == |q| > 0
    ensures WF(EMPTY) && W.Below(EMPTY, 1)
    ensures InsertPages(EMPTY, 1, Device, q, ids)
         == Inserted(map[ROOT := Node(ROOT, [], [], map[q[0] := 1], map[]),
                         1 := Node(ROOT, q, q, map[], map[Device := Resource(ids, 0, Ready, 0)])], 2, 1, |q|, [])
  {
    W.StartOk(EMPTY, 1, q);
    var w := W.Start(EMPTY, 1);
    assert W.WalkTree(EMPTY, 1, q) == w;
    W.WalkFindsLongest(EMPTY, 1, q, Device);
    AllTiers();
    assert w.last[Device] == ROOT && w.matched[Device] == 0;
    assert q[0..] == q && ids[0..] == ids && ids[..0] == [] && [] + q == q;
  }

  /** Caching `q` first leads to that one node. */
  lemma CachedIs(cfg: Config, q: seq<Page>)
    requires Device in cfg.enabled && 0 < |q| < cfg.total.device
    ensures StateAfter(cfg, Caching(q)) == Some(Sys(OneNode(cfg, q), [Hand(Device, [])], PerTier([], [], [], [])))
  {
    var n := NewSys(cfg);
    var f := Fresh(cfg.total.device);
    var ids := Popped(f, |q|);
    var a := Allocated(n, Device, |q|);
    NewGood(cfg);
    RunOne(cfg, n, Allocate(Device, |q|));
    RunThen(cfg, n, [Allocate(Device, |q|)], Insert(Device, q, 0));
    assert Caching(q) == [Allocate(Device, |q|)] + [Insert(Device, q, 0)];
    FirstInsert(cfg, q, ids);
    assert a.hands == [Hand(Device, ids)];
    assert f[..|f| - |q|] + Accepted(cfg.total.device, []) == f[..|f| - |q|];
    assert [Hand(Device, ids)][0 := Hand(Device, [])] == [Hand(Device, [])];
  }

  // ---- table and tree part -----------------------------------------------------------------------

  /** After `acts` the table and the pending resources agree; one more call, which the source defines, parts them. */
  ghost predicate Parts(cfg: Config, acts: seq<Act>, a: Act) {
    var s, r := StateAfter(cfg, acts), StateAfter(cfg, acts + [a]);
    s.Some? && r.Some? && InFlightOk(s.value.cache) && !InFlightOk(r.value.cache)
  }

  /** One more call, and what it does to the agreement. */
  lemma OneMore(cfg: Config, acts: seq<Act>, a: Act)
    requires StateAfter(cfg, acts).Some? && InFlightOk(StateAfter(cfg, acts).value.cache)
    ensures var s := StateAfter(cfg, acts).value;
            && Shaped(s.cache) && StateAfter(cfg, acts + [a]) == Step(cfg, s, a)
            && (Step(cfg, s, a).Some? ==>
                  if Careful(cfg, s, a) then InFlightOk(Step(cfg, s, a).value.cache) else Parts(cfg, acts, a))
  {
    hide Step, Careful, InFlightOk, Run, Conserved;
    NewGood(cfg);
    RunGood(cfg, NewSys(cfg), acts);
    RunThen(cfg, NewSys(cfg), acts, a);
    CarefulIff(cfg, StateAfter(cfg, acts).value, a);
  }

  function Demoting(q: seq<Page>): seq<Act> {
    Caching(q) + [Start(1, Device, Host, false)]
  }

  /** Node 1 holds `q` ready on the device; a demotion to the host is in flight under handle 1. */
  ghost predicate InTransit(s: Sys, q: seq<Page>) {
    && InFlightOk(s.cache) && 1 in s.cache.tree && s.cache.tree[1].path == s.cache.tree[1].seg == q
    && s.cache.tree[1].res.Keys == {Device, Host} && PendingAt(s.cache.tree, 1, Host)
    && Evictable(s.cache.tree[1].res[Device]) && |s.cache.tree[1].res[Device].ids| == |q|
    && |s.cache.tree[1].res[Host].ids| == |q| && |s.cache.free.host| == 2 - |q| && |s.cache.free.disk| == 2
    && s.cache.inflight == map[1 := PendingOp(1, Device, Host, false, |q|)] && s.cache.nextHandle == 2
  }

  lemma DemotingIs(q: seq<Page>)
    requires 0 < |q| <= 2
    ensures StateAfter(SMALL, Demoting(q)).Some? && InTransit(StateAfter(SMALL, Demoting(q)).value, q)
  {
    CachedIs(SMALL, q);
    var s := StateAfter(SMALL, Caching(q)).value;
    assert InFlightOk(s.cache);
    OneMore(SMALL, Caching(q), Start(1, Device, Host, false));
  }

  /** Starting the same demotion twice goes through. */
  lemma StartedTwice(page: Page)
    ensures Parts(SMALL, Demoting([page]), Start(1, Device, Host, false))
  {
    hide InFlightOk, StateAfter;
    DemotingIs([page]);
    OneMore(SMALL, Demoting([page]), Start(1, Device, Host, false));
  }

  /** Matching the first of two pages whose node is being demoted splits that node. */
  lemma SplitInTransit(p: Page, q: Page)
    ensures Parts(SMALL, Demoting([p, q]), Match([p]))
  {
    hide InFlightOk, StateAfter;
    DemotingIs([p, q]);
    var t := StateAfter(SMALL, Demoting([p, q])).value.cache.tree;
    SharedAtLeast([p, q], [p], 1);
    assert LeavesInside(t, 1, [p]) && PendingAt(t, 1, Host);
    OneMore(SMALL, Demoting([p, q]), Match([p]));
  }

  /** Evicting the device resource, with the host as target, demotes onto the pending host resource. */
  lemma EvictedOnto(page: Page)
    ensures Parts(SMALL, Demoting([page]), Evict(1, Device, Some(Host)))
  {
    hide InFlightOk, StateAfter;
    DemotingIs([page]);
    OneMore(SMALL, Demoting([page]), Evict(1, Device, Some(Host)));
  }

  lemma TwoInTransit(page: Page)
    ensures var s := StateAfter(SMALL, Demoting([page]) + [Start(1, Host, Disk, false)]);
            && s.Some? && InFlightOk(s.value.cache) && 2 in s.value.cache.inflight
            && s.value.cache.inflight[2] == PendingOp(1, Host, Disk, false, 1) && PendingAt(s.value.cache.tree, 1, Host)
  {
    hide InFlightOk, StateAfter;
    DemotingIs([page]);
    OneMore(SMALL, Demoting([page]), Start(1, Host, Disk, false));
  }

  /** While the demotion to the host is pending, a demotion from the host to the disk may start and finish; it
      drops the pending host resource. */
  lemma SourceLost(page: Page)
    ensures Parts(SMALL, Demoting([page]) + [Start(1, Host, Disk, false)], Complete(2, true))
  {
    hide InFlightOk, StateAfter;
    TwoInTransit(page);
    OneMore(SMALL, Demoting([page]) + [Start(1, Host, Disk, false)], Complete(2, true));
  }

  // ---- an empty node ----------------------------------------------------------------------------

  /** Demoting a cached page from the device to the device goes through; finishing it leaves the page's node without
      child or resource, and caching the page again is then undefined. */
  lemma Stranded(page: Page, id: UnitId)
    ensures var r := StateAfter(SMALL, Caching([page]) + [Start(1, Device, Device, false)] + [Complete(1, true)]);
            && r.Some? && Shaped(r.value.cache) && !Tidy(r.value.cache.tree)
            && InsertPages(r.value.cache.tree, r.value.cache.next, Device, [page], [id]).Dangling?
  {
    hide Run, Caching, WF;
    NewGood(SMALL);
    OntoItself(page);
    var acts := Caching([page]) + [Start(1, Device, Device, false)];
    RunThen(SMALL, NewSys(SMALL), acts, Complete(1, true));
    var c := StateAfter(SMALL, acts + [Complete(1, true)]).value.cache;
    StepTidyIff(SMALL, StateAfter(SMALL, acts).value, Complete(1, true));
    StepShaped(SMALL, StateAfter(SMALL, acts).value, Complete(1, true));
    OwnedDangles(c.tree, c.next, 1, page, id);
  }

  /** Where a node has a page and does not hold the device, that page cannot be cached there. */
  lemma OwnedDangles(t: Tree, next: NodeId, n: NodeId, page: Page, id: UnitId)
    requires WF(t) && W.Below(t, next) && n != ROOT && Owns(t, n, [page]) && Device !in t[n].res
    ensures InsertPages(t, next, Device, [page], [id]).Dangling?
  {
    hide WF, W.WalkTree, InsertPages;
    SlotAt(t, Device, n, [page]);
    DanglingIff(t, next, Device, [page], [id]);
    assert [page][..1] == [page] && [page] !in TierMap(t, Device);
  }

  lemma OntoItself(page: Page)
    ensures var s := StateAfter(SMALL, Caching([page]) + [Start(1, Device, Device, false)]);
            && s.Some? && Shaped(s.value.cache) && Tidy(s.value.cache.tree) && s.value.cache.tree.Keys == {ROOT, 1}
            && s.value.cache.tree[1].path == s.value.cache.tree[1].seg == [page] && s.value.cache.tree[1].children == map[]
            && s.value.cache.tree[1].res.Keys == {Device}
            && s.value.cache.inflight == map[1 := PendingOp(1, Device, Device, false, 1)]
  {
    hide Run, Caching, WF;
    NewGood(SMALL);
    CachedIs(SMALL, [page]);
    RunThen(SMALL, NewSys(SMALL), Caching([page]), Start(1, Device, Device, false));
    RunAppend(SMALL, NewSys(SMALL), Caching([page]) + [Start(1, Device, Device, false)], []);
  }

  // ---- a pin that is not undone ------------------------------------------------------------------

  /** A tree of one node with the pages `p` and `q` on the device, its count being `refs`. */
  ghost predicate TwoPages(t: Tree, p: Page, q: Page, refs: nat) {
    && t.Keys == {ROOT, 1} && t[ROOT].path == [] && t[ROOT].children == map[p := 1]
    && t[1].path == t[1].seg == [p, q] && t[1].res.Keys == {Device}
    && t[1].res[Device].refs == refs && t[1].res[Device].state == Ready && |t[1].res[Device].ids| == 2
  }

  /** The tree after the split: the first page on node 1, the second on node 2, with these counts. */
  ghost predicate Halves(t: Tree, p: Page, q: Page, first: nat, second: nat) {
    && t.Keys == {ROOT, 1, 2} && t[ROOT].path == [] && t[1].path == [p] && t[2].path == [p, q]
    && t[1].res.Keys == t[2].res.Keys == {Device}
    && t[1].res[Device].refs == first && t[1].res[Device].state == Ready
    && t[2].res[Device].refs == second && t[2].res[Device].state == Ready
  }

  lemma SplitTwo(t: Tree, p: Page, q: Page, refs: nat)
    requires TwoPages(t, p, q, refs)
    ensures Halves(SplitNode(t, 1, 1, 2), p, q, refs, refs)
  {}

  /** Matching the first page splits the node; both halves keep the count. */
  lemma FirstPageSplits(c: Cache, p: Page, q: Page, refs: nat)
    requires Shaped(c) && c.next == 2 && TwoPages(c.tree, p, q, refs)
    ensures Halves(RadixCache.Match(c, [p]).tree, p, q, refs, refs)
  {
    hide WF, Halves, SplitNode;
    W.StartOk(c.tree, 2, [p]);
    var w := W.Start(c.tree, 2);
    W.StepChild(w, [p]);
    SharedAtLeast([p, q], [p], 1);
    assert [p][0..] == [p];
    assert W.StepPages(c.tree[1], [p], 0) == 1;
    SplitStops(w, [p]);
    assert RadixCache.Match(c, [p]).tree == SplitNode(c.tree, 1, 1, 2);
    SplitTwo(c.tree, p, q, refs);
  }

  lemma PinFirst(t: Tree, p: Page, q: Page)
    requires TwoPages(t, p, q, 0)
    ensures TwoPages(Pinned(t, 1, Device), p, q, 1)
  {}

  /** Releasing reaches the first half and not the second. */
  lemma UnpinFirst(t: Tree, p: Page, q: Page)
    requires Halves(t, p, q, 1, 1)
    ensures Halves(Unpinned(t, 1, Device), p, q, 0, 1)
  {}

  /** Without a pin both halves may be evicted. */
  lemma FirstMatched(p: Page, q: Page)
    ensures var f := StateAfter(SMALL, Caching([p, q]) + [Match([p])]);
            f.Some? && Halves(f.value.cache.tree, p, q, 0, 0)
  {
    hide Run, Halves, Shaped, RadixCache.Match;
    CachedIs(SMALL, [p, q]);
    NewGood(SMALL);
    var s := StateAfter(SMALL, Caching([p, q])).value;
    RunThen(SMALL, NewSys(SMALL), Caching([p, q]), Match([p]));
    FirstPageSplits(s.cache, p, q, 0);
  }

  lemma PinnedFirst(p: Page, q: Page)
    ensures var s := StateAfter(SMALL, Caching([p, q]) + [Pin(1, Device)]);
            s.Some? && s.value.cache.next == 2 && TwoPages(s.value.cache.tree, p, q, 1)
  {
    hide Run, Shaped, Pinned;
    CachedIs(SMALL, [p, q]);
    NewGood(SMALL);
    var s := StateAfter(SMALL, Caching([p, q])).value;
    RunThen(SMALL, NewSys(SMALL), Caching([p, q]), Pin(1, Device));
    PinFirst(s.cache.tree, p, q);
  }

  /** A node of two pages is pinned, its first page is matched, the pin is released: the second page has moved to
      a new node whose count stays 1, so that it is not evictable. */
  lemma PinLeft(p: Page, q: Page)
    ensures var r := StateAfter(SMALL, Caching([p, q]) + [Pin(1, Device)] + [Match([p])] + [Unpin(1, Device)]);
            r.Some? && Halves(r.value.cache.tree, p, q, 0, 1)
  {
    hide Run, Unpinned, Shaped, RadixCache.Match, Caching, TwoPages;
    var acts := Caching([p, q]) + [Pin(1, Device)];
    PinnedFirst(p, q);
    NewGood(SMALL);
    var n, s := NewSys(SMALL), StateAfter(SMALL, acts).value;
    RunThen(SMALL, n, acts, Match([p]));
    FirstPageSplits(s.cache, p, q, 1);
    RunThen(SMALL, n, acts + [Match([p])], Unpin(1, Device));
    UnpinFirst(RadixCache.Match(s.cache, [p]).tree, p, q);
  }

  /** A cached page is pinned and demoted: finishing the demotion takes the pinned device resource off the node,
      count and all, while the pin is still held. */
  lemma PinnedTaken(page: Page)
    ensures var acts := Caching([page]) + [Pin(1, Device)] + [Start(1, Device, Host, false)];
            var s := StateAfter(SMALL, acts); var r := StateAfter(SMALL, acts + [Complete(1, true)]);
            && s.Some? && r.Some? && 1 in s.value.cache.tree && 1 in r.value.cache.tree
            && Device in s.value.cache.tree[1].res && s.value.cache.tree[1].res[Device].refs == 1
            && Device !in r.value.cache.tree[1].res
  {
    hide Run, Caching, WF;
    NewGood(SMALL);
    PinnedDemoting(page);
    var acts := Caching([page]) + [Pin(1, Device)] + [Start(1, Device, Host, false)];
    RunThen(SMALL, NewSys(SMALL), acts, Complete(1, true));
  }

  lemma PinnedDemoting(page: Page)
    ensures var s := StateAfter(SMALL, Caching([page]) + [Pin(1, Device)] + [Start(1, Device, Host, false)]);
            && s.Some? && 1 in s.value.cache.tree && s.value.cache.tree[1].res.Keys == {Device, Host}
            && s.value.cache.tree[1].res[Device].refs == 1
            && s.value.cache.inflight == map[1 := PendingOp(1, Device, Host, false, 1)]
  {
    hide Run, Caching, WF;
    NewGood(SMALL);
    PinnedPage(page);
    RunThen(SMALL, NewSys(SMALL), Caching([page]) + [Pin(1, Device)], Start(1, Device, Host, false));
  }

  lemma PinnedPage(page: Page)
    ensures var s := StateAfter(SMALL, Caching([page]) + [Pin(1, Device)]);
            && s.Some? && Shaped(s.value.cache) && s.value.cache.tree.Keys == {ROOT, 1}
            && s.value.cache.tree[1].res.Keys == {Device} && s.value.cache.tree[1].res[Device].refs == 1
            && |s.value.cache.tree[1].res[Device].ids| == 1 && |s.value.cache.free.host| == 2
            && s.value.cache.nextHandle == 1 && s.value.cache.inflight == map[]
  {
    hide Run, Caching;
    NewGood(SMALL);
    CachedIs(SMALL, [page]);
    var s := StateAfter(SMALL, Caching([page])).value;
    RunThen(SMALL, NewSys(SMALL), Caching([page]), Pin(1, Device));
    RunAppend(SMALL, NewSys(SMALL), Caching([page]) + [Pin(1, Device)], []);
  }

  // ---- room that is not made ---------------------------------------------------------------------

  /** The device with three units. */
  const WIDE := Config({Device}, PerTier(4, 0, 0, 0), PerTier(0, 0, 0, 0))

  /** Caching one page, and then that page and another below it. */
  function Nesting(p: Page, q: Page): seq<Act> {
    Caching([p]) + [Allocate(Device, 2)] + [Insert(Device, [p, q], 1)]
  }

  /** Two nodes of one page each, one below the other, unpinned; one unit is free. */
  ghost predicate Nested(c: Cache, p: Page, q: Page) {
    && c.tree.Keys == {ROOT, 1, 2} && c.free == PerTier([2], [], [], []) && c.next == 3
    && c.tree[ROOT] == Node(ROOT, [], [], map[p := 1], map[])
    && c.tree[1] == Node(ROOT, [p], [p], map[q := 2], map[Device := Resource([1], 0, Ready, 0)])
    && c.tree[2] == Node(1, [p, q], [q], map[], map[Device := Resource([3], 0, Ready, 0)])
  }

  lemma OneNodeShaped(p: Page)
    ensures WF(OneNode(WIDE, [p]).tree) && W.Below(OneNode(WIDE, [p]).tree, 2)
  {
    hide Conserved, Run, Caching;
    CachedIs(WIDE, [p]);
    NewGood(WIDE);
    RunGood(WIDE, NewSys(WIDE), Caching([p]));
  }

  /** Walking to the first page of two takes the one step there is. */
  lemma SecondWalk(t: Tree, p: Page, q: Page)
    requires t == OneNode(WIDE, [p]).tree && WF(t) && W.Below(t, 2)
    ensures var w := W.WalkTree(t, 2, [p, q]);
            w.tree == t && w.next == 2 && w.last[Device] == 1 && w.matched[Device] == 1
  {
    hide WF, W.Below;
    var pq := [p, q];
    W.StartOk(t, 2, pq);
    var w := W.Start(t, 2);
    AllTiers();
    SharedExactly([p], pq, 1);
    assert pq[0..] == pq && W.StepPages(t[1], pq, 0) == 1;
    W.StepMoves(w, pq);
    var s := W.Step(w, pq);
    assert s.tree == t && s.cur == 1 && s.consumed == 1;
    assert W.Run(s, pq) == s;
  }

  /** The second insertion finds the first page and adds a leaf below it. */
  lemma SecondInsert(p: Page, q: Page)
    ensures var t := OneNode(WIDE, [p]).tree;
            && WF(t) && W.Below(t, 2)
            && InsertPages(t, 2, Device, [p, q], [2, 3])
            == Inserted(AddLeaf(t, 1, [q], map[Device := Resource([3], 0, Ready, 0)], 2), 3, 2, 1, [2])
  {
    hide WF, W.Below, W.WalkTree, AddLeaf;
    var t := OneNode(WIDE, [p]).tree;
    var pq := [p, q];
    OneNodeShaped(p);
    SecondWalk(t, p, q);
    W.WalkFindsLongest(t, 2, pq, Device);
    assert pq[1..] == [q] && [2, 3][1..] == [3] && [2, 3][..1] == [2];
  }

  /** Before it: the page is cached, and the two units left are in a handle. */
  lemma BeforeNesting(p: Page)
    ensures var s := StateAfter(WIDE, Caching([p]) + [Allocate(Device, 2)]);
            && s.Some? && s.value.hands == [Hand(Device, []), Hand(Device, [2, 3])]
            && s.value.cache == OneNode(WIDE, [p]).(free := PerTier([], [], [], []))
            && OneNode(WIDE, [p]).tree[1].res[Device].ids == [1]
  {
    hide Run, Caching, WF;
    NewGood(WIDE);
    CachedIs(WIDE, [p]);
    var c := OneNode(WIDE, [p]);
    var f := Fresh(4);
    assert f == [3, 2, 1];
    assert Popped(f, 1) == [1] && f[..2] == [3, 2];
    assert Fresh(0) == [];
    assert c.free == PerTier([3, 2], [], [], []);
    RunThen(WIDE, NewSys(WIDE), Caching([p]), Allocate(Device, 2));
    assert Popped([3, 2], 2) == [2, 3];
    assert [3, 2][..0] == [];
  }

  lemma NestedLeaf(p: Page, q: Page, c: Cache)
    requires c.tree == AddLeaf(OneNode(WIDE, [p]).tree, 1, [q], map[Device := Resource([3], 0, Ready, 0)], 2)
    requires OneNode(WIDE, [p]).tree[1].res[Device].ids == [1] && c.next == 3 && c.free == PerTier([2], [], [], [])
    ensures Nested(c, p, q)
  {
    assert [p] + [q] == [p, q];
  }

  /** The overlap is freed and the rest attached. */
  lemma InsertNests(p: Page, q: Page)
    requires OneNode(WIDE, [p]).tree[1].res[Device].ids == [1]
    ensures var c := OneNode(WIDE, [p]).(free := PerTier([], [], [], []));
            && Shaped(c) && RadixCache.Insert(WIDE, c, Device, [p, q], [2, 3]).Ok?
            && Nested(RadixCache.Insert(WIDE, c, Device, [p, q], [2, 3]).value, p, q)
  {
    hide WF, W.Below, InsertPages, AddLeaf, Nested;
    var c := OneNode(WIDE, [p]).(free := PerTier([], [], [], []));
    SecondInsert(p, q);
    assert Accepted(4, [2]) == [2] && [] + [2] == [2];
    NestedLeaf(p, q, RadixCache.Insert(WIDE, c, Device, [p, q], [2, 3]).value);
  }

  lemma NestingIs(p: Page, q: Page)
    ensures StateAfter(WIDE, Nesting(p, q)).Some? && Nested(StateAfter(WIDE, Nesting(p, q)).value.cache, p, q)
  {
    hide Run, WF, W.Below, Caching, Nested, RadixCache.Insert, OneNode;
    NewGood(WIDE);
    BeforeNesting(p);
    var acts := Caching([p]) + [Allocate(Device, 2)];
    RunThen(WIDE, NewSys(WIDE), acts, Insert(Device, [p, q], 1));
    InsertNests(p, q);
  }

  lemma NestedLeaves(c: Cache, p: Page, q: Page)
    requires Nested(c, p, q)
    ensures forall n :: Leafmost(c.tree, Device, n) <==> n == 2
  {
    assert c.tree[1].path < c.tree[2].path;
  }

  /** Asked for three units, with one free and two unpinned nodes of one unit each, the loop evicts the lower node
      and ends with two: the upper one becomes a candidate too late. */
  lemma StopsShort(p: Page, q: Page)
    ensures StateAfter(WIDE, Nesting(p, q)).Some?
    ensures var c := StateAfter(WIDE, Nesting(p, q)).value.cache;
            && Shaped(c) && |c.free.device| == 1 && (forall n :: Leafmost(c.tree, Device, n) <==> n == 2)
            && Candidates(c, Device, [2])
            && var r := EvictLoop(WIDE, c, Device, None, [2], 3 - 1);
               |r.free.device| == 2 && Leafmost(r.tree, Device, 1) && Evictable(r.tree[1].res[Device])
  {
    hide Run, Nesting, WF, W.Below;
    NewGood(WIDE);
    NestingIs(p, q);
    RunGood(WIDE, NewSys(WIDE), Nesting(p, q));
    var c := StateAfter(WIDE, Nesting(p, q)).value.cache;
    NestedLeaves(c, p, q);
    LowerEvicted(c, p, q);
  }

  lemma LowerEvicted(c: Cache, p: Page, q: Page)
    requires Shaped(c) && Nested(c, p, q)
    ensures Candidates(c, Device, [2])
    ensures var r := EvictLoop(WIDE, c, Device, None, [2], 2);
            |r.free.device| == 2 && Leafmost(r.tree, Device, 1) && Evictable(r.tree[1].res[Device])
  {
    DetachKeeps(c.tree, 2, Device);
    var t := Detach(c.tree, 2, Device);
    assert t[2].res == map[] && Orphan(t[2]);
    assert Linked(t, 2);
    UnlinkKeeps(t, 2);
    var r := Unlink(t, 2);
    assert Prune(t, 2) == Prune(r, 1);
    assert Prune(r, 1) == r;
    assert Accepted(4, [3]) == [3];
    var e := EvictNode(WIDE, c, 2, Device, None);
    assert e.tree == r && e.free.device == [2] + [3];
    EvictRest(WIDE, c, Device, None, [2]);
    assert [2][1..] == [];
    assert EvictLoop(WIDE, c, Device, None, [2], 2) == e;
  }
}
