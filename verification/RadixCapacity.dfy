/** `ensure_capacity`: which nodes an eviction loop over a sorted candidate list takes, and what it frees. */
module RadixCapacity {
  import opened Basics
  import opened RadixTree
  import opened RadixStore
  import opened RadixUnits
  import opened RadixCache
  import opened RadixConserve
  import opened RadixEvict

  // ---- the candidates in order of priority -------------------------------------------------------

  ghost predicate Ordered(ns: seq<NodeId>, rank: NodeId -> int) {
    forall i, j :: 0 <= i < j < |ns| ==> rank(ns[i]) <= rank(ns[j])
  }

  ghost predicate Distinct(ns: seq<NodeId>) {
    forall i, j :: 0 <= i < j < |ns| ==> ns[i] != ns[j]
  }

  /** The tier's candidates, each once, lowest priority key first; ties in any order. */
  ghost predicate Ranked(t: Tree, u: Tier, rank: NodeId -> int, ns: seq<NodeId>) {
    (forall n :: n in ns <==> Leafmost(t, u, n)) && Distinct(ns) && Ordered(ns, rank)
  }

  /** Where `n` belongs in an ordered list. */
  method Place(ns: seq<NodeId>, rank: NodeId -> int, n: NodeId) returns (r: seq<NodeId>)
    requires Ordered(ns, rank)
    ensures Ordered(r, rank) && multiset(r) == multiset(ns) + multiset{n}
  {
    hide Ordered;
    var i := |ns|;
    while i > 0 && rank(ns[i - 1]) > rank(n)
      invariant 0 <= i <= |ns|
      invariant forall j :: i <= j < |ns| ==> rank(n) < rank(ns[j])
    {
      i := i - 1;
    }
    r := ns[..i] + [n] + ns[i..];
    PlacedOrdered(ns, rank, n, i);
    PlacedElements(ns, n, i);
  }

  lemma PlacedElements(ns: seq<NodeId>, n: NodeId, i: nat)
    requires i <= |ns|
    ensures multiset(ns[..i] + [n] + ns[i..]) == multiset(ns) + multiset{n}
  {
    assert ns == ns[..i] + ns[i..];
  }

  lemma PlacedOrdered(ns: seq<NodeId>, rank: NodeId -> int, n: NodeId, i: nat)
    requires i <= |ns| && Ordered(ns, rank) && (i > 0 ==> rank(ns[i - 1]) <= rank(n))
    requires forall j :: i <= j < |ns| ==> rank(n) < rank(ns[j])
    ensures Ordered(ns[..i] + [n] + ns[i..], rank)
  {
    var r := ns[..i] + [n] + ns[i..];
    forall j, k | 0 <= j < k < |r| ensures rank(r[j]) <= rank(r[k]) {
      if k < i {
        assert r[j] == ns[j] && r[k] == ns[k];
      } else if k == i {
        assert r[j] == ns[j] && r[k] == n;
      } else if j == i {
        assert r[k] == ns[k - 1];
      } else {
        assert r[k] == ns[k - 1] && r[j] == if j < i then ns[j] else ns[j - 1];
      }
    }
  }

  /** `std::sort` by priority. */
  method SortByRank(ns: seq<NodeId>, rank: NodeId -> int) returns (r: seq<NodeId>)
    ensures Ordered(r, rank) && multiset(r) == multiset(ns)
  {
    r := [];
    for i := 0 to |ns|
      invariant Ordered(r, rank) && multiset(r) == multiset(ns[..i])
    {
      assert ns[..i + 1] == ns[..i] + [ns[i]];
      r := Place(r, rank, ns[i]);
    }
    assert ns[..|ns|] == ns;
  }

  lemma SameElements(a: seq<NodeId>, b: seq<NodeId>)
    requires multiset(a) == multiset(b) && Distinct(b)
    ensures Distinct(a) && forall n :: n in a <==> n in b
  {
    forall n ensures n in a <==> n in b { assert n in multiset(a) <==> n in multiset(b); }
    forall i, j | 0 <= i < j < |a| ensures a[i] != a[j] {
      if a[i] == a[j] {
        TwiceIn(a, i, j);
        OnceIn(b, a[i]);
      }
    }
  }

  lemma TwiceIn(a: seq<NodeId>, i: nat, j: nat)
    requires i < j < |a| && a[i] == a[j]
    ensures multiset(a)[a[i]] >= 2
  {
    assert a == a[..j] + a[j..];
    assert a[..j][i] == a[i] && a[j..][0] == a[i];
    assert a[i] in multiset(a[..j]) && a[i] in multiset(a[j..]);
  }

  lemma {:induction false} OnceIn(b: seq<NodeId>, n: NodeId)
    requires Distinct(b)
    ensures multiset(b)[n] <= 1
  {
    if b != [] {
      assert b == [b[0]] + b[1..];
      OnceIn(b[1..], n);
      if n == b[0] { assert n !in b[1..]; assert n !in multiset(b[1..]); }
    }
  }

  method RankedCandidates(t: Tree, u: Tier, rank: NodeId -> int) returns (ns: seq<NodeId>)
    requires WF(t)
    ensures Ranked(t, u, rank, ns)
  {
    var found := CollectEvictCandidates(t, u);
    ns := SortByRank(found, rank);
    SameElements(ns, found);
  }

  lemma RankedAreCandidates(c: Cache, u: Tier, rank: NodeId -> int, ns: seq<NodeId>)
    requires Ranked(c.tree, u, rank, ns)
    ensures Candidates(c, u, ns)
  {
    forall i | 0 <= i < |ns| ensures ns[i] in c.tree && u in c.tree[ns[i]].res { assert ns[i] in ns; }
  }

  // ---- one eviction leaves the other candidates alone --------------------------------------------

  /** Distinct nodes of the tree that all hold tier `u`. */
  ghost predicate Candidates(c: Cache, u: Tier, ns: seq<NodeId>) {
    && (forall i :: 0 <= i < |ns| ==> ns[i] in c.tree && u in c.tree[ns[i]].res)
    && (forall i, j :: 0 <= i < j < |ns| ==> ns[i] != ns[j])
  }

  /** Pruning after an eviction never frees a node that holds a resource. */
  lemma EvictOthers(cfg: Config, c: Cache, n: NodeId, u: Tier, promoteTo: Option<Tier>, m: NodeId, v: Tier)
    requires Shaped(c) && n in c.tree && m in c.tree && m != n && v in c.tree[m].res
    ensures var r := EvictNode(cfg, c, n, u, promoteTo);
            m in r.tree && v in r.tree[m].res && r.tree[m].res[v] == c.tree[m].res[v]
  {
    hide WF;
    if u in c.tree[n].res && Evictable(c.tree[n].res[u]) {
      DetachKeeps(c.tree, n, u);
      PruneKeys(Detach(c.tree, n, u), n);
    }
  }

  lemma EvictRest(cfg: Config, c: Cache, u: Tier, promoteTo: Option<Tier>, ns: seq<NodeId>)
    requires Shaped(c) && ns != [] && Candidates(c, u, ns)
    ensures Shaped(EvictNode(cfg, c, ns[0], u, promoteTo)) && Candidates(EvictNode(cfg, c, ns[0], u, promoteTo), u, ns[1..])
    ensures forall i :: 0 < i < |ns| ==>
              ns[i] in EvictNode(cfg, c, ns[0], u, promoteTo).tree
              && u in EvictNode(cfg, c, ns[0], u, promoteTo).tree[ns[i]].res
              && EvictNode(cfg, c, ns[0], u, promoteTo).tree[ns[i]].res[u] == c.tree[ns[i]].res[u]
  {
    EvictShaped(cfg, c, ns[0], u, promoteTo);
    forall i | 0 < i < |ns|
      ensures var r := EvictNode(cfg, c, ns[0], u, promoteTo);
              ns[i] in r.tree && u in r.tree[ns[i]].res && r.tree[ns[i]].res[u] == c.tree[ns[i]].res[u]
    {
      EvictOthers(cfg, c, ns[0], u, promoteTo, ns[i], u);
    }
  }

  // ---- the loop ----------------------------------------------------------------------------------

  predicate CanEvict(c: Cache, u: Tier, n: NodeId)
    requires n in c.tree && u in c.tree[n].res
  {
    Evictable(c.tree[n].res[u])
  }

  function Size(c: Cache, u: Tier, n: NodeId): nat
    requires n in c.tree && u in c.tree[n].res
  {
    |c.tree[n].res[u].ids|
  }

  /** The eviction loop: stop once the deficit is covered, pass over what is pinned or pending. Every
      candidate is still in the tree when its turn comes. */
  function EvictLoop(cfg: Config, c: Cache, u: Tier, promoteTo: Option<Tier>, ns: seq<NodeId>, deficit: int): (r: Cache)
    requires Shaped(c) && Candidates(c, u, ns)
    ensures Shaped(r)
    decreases |ns|
  {
    if ns == [] || deficit <= 0 then c
    else if CanEvict(c, u, ns[0]) then
      EvictRest(cfg, c, u, promoteTo, ns);
      EvictLoop(cfg, EvictNode(cfg, c, ns[0], u, promoteTo), u, promoteTo, ns[1..], deficit - Size(c, u, ns[0]))
    else EvictLoop(cfg, c, u, promoteTo, ns[1..], deficit)
  }

  // ---- what the loop should take, from the state before it ---------------------------------------

  datatype Offer = Offer(n: NodeId, size: nat, able: bool)

  function Offers(c: Cache, u: Tier, ns: seq<NodeId>): (os: seq<Offer>)
    requires Candidates(c, u, ns)
  {
    seq(|ns|, i requires 0 <= i < |ns| => Offer(ns[i], Size(c, u, ns[i]), CanEvict(c, u, ns[i])))
  }

  function Able(os: seq<Offer>): seq<Offer> {
    if os == [] then [] else (if os[0].able then [os[0]] else []) + Able(os[1..])
  }

  lemma {:induction false} AbleHas(os: seq<Offer>, o: Offer)
    ensures o in Able(os) <==> o in os && o.able
  {
    if os != [] {
      assert os == [os[0]] + os[1..];
      AbleHas(os[1..], o);
    }
  }

  function Total(os: seq<Offer>): nat {
    if os == [] then 0 else os[0].size + Total(os[1..])
  }

  /** How many offers, taken in order, it takes to cover the deficit; all of them if they do not. */
  function Needed(os: seq<Offer>, deficit: int): (k: nat)
    ensures k <= |os|
  {
    if os == [] || deficit <= 0 then 0 else 1 + Needed(os[1..], deficit - os[0].size)
  }

  /** What is taken: the shortest prefix of the evictable offers that covers the deficit. */
  function Taken(os: seq<Offer>, deficit: int): seq<Offer> {
    Able(os)[..Needed(Able(os), deficit)]
  }

  /** `Needed` is the least number that covers the deficit, if any does. */
  lemma {:induction false} NeededLeast(os: seq<Offer>, deficit: int)
    ensures var k := Needed(os, deficit);
            && (k < |os| ==> Total(os[..k]) >= deficit)
            && (forall j :: 0 <= j < k ==> Total(os[..j]) < deficit)
  {
    if os != [] && deficit > 0 {
      var rest, d := os[1..], deficit - os[0].size;
      NeededLeast(rest, d);
      var k := Needed(os, deficit);
      assert os[..k] == [os[0]] + rest[..k - 1];
      forall j | 0 <= j < k ensures Total(os[..j]) < deficit {
        if j > 0 { assert os[..j] == [os[0]] + rest[..j - 1]; }
      }
    }
  }

  lemma TakenStep(os: seq<Offer>, deficit: int)
    requires os != [] && deficit > 0
    ensures Taken(os, deficit) == if os[0].able then [os[0]] + Taken(os[1..], deficit - os[0].size) else Taken(os[1..], deficit)
  {
    var a := Able(os);
    if os[0].able {
      assert a[1..] == Able(os[1..]);
      var k := Needed(a, deficit);
      assert a[..k] == [a[0]] + a[1..][..k - 1];
    } else {
      assert a == Able(os[1..]);
    }
  }

  // ---- the loop takes just that ------------------------------------------------------------------

  predicate Gone(c: Cache, u: Tier, n: NodeId) { n in c.tree ==> u !in c.tree[n].res }

  lemma DropFrees(cfg: Config, c: Cache, n: NodeId, u: Tier, v: Tier, ids: seq<UnitId>)
    requires Genuine(cfg, c) && n in c.tree && u in c.tree[n].res && ids == c.tree[n].res[u].ids
    ensures Accepted(cfg.total.At(u), ids) == ids
  {
    NodeGenuine(cfg, c, n, u);
    AcceptedAll(cfg.total.At(u), ids);
  }

  /** Dropping or demoting a node returns its units to its own tier and takes its resource off it. */
  lemma EvictFrees(cfg: Config, c: Cache, n: NodeId, u: Tier, promoteTo: Option<Tier>)
    requires Shaped(c) && Genuine(cfg, c) && n in c.tree && u in c.tree[n].res && CanEvict(c, u, n)
    requires promoteTo != Some(u)
    ensures var r := EvictNode(cfg, c, n, u, promoteTo);
            && |r.free.At(u)| == |c.free.At(u)| + Size(c, u, n)
            && Gone(r, u, n)
  {
    hide Genuine, Reserve, AttachAt, WF, ResourcesOk, Prune, Take, BudgetOk;
    var ids := c.tree[n].res[u].ids;
    DropFrees(cfg, c, n, u, u, ids);
    DetachKeeps(c.tree, n, u);
    var c1 := c.(tree := Detach(c.tree, n, u));
    PruneKeys(c1.tree, n);
    if promoteTo.Some? && |ids| <= |c1.free.At(promoteTo.value)| {
      ReserveOther(cfg, c1, n, u, promoteTo.value, |ids|);
    }
  }

  lemma ReserveOther(cfg: Config, c: Cache, n: NodeId, u: Tier, dst: Tier, k: nat)
    requires n in c.tree && k <= |c.free.At(dst)| && dst != u
    ensures var r := Reserve(cfg, c, n, u, dst, false, k);
            && r.free.At(u) == c.free.At(u) && r.tree.Keys == c.tree.Keys
            && (u in r.tree[n].res <==> u in c.tree[n].res)
  {}

  /** A node that lost tier `u` does not get it back while others are evicted. */
  lemma EvictStaysGone(cfg: Config, c: Cache, n: NodeId, u: Tier, promoteTo: Option<Tier>, m: NodeId)
    requires Shaped(c) && n in c.tree && m != n && Gone(c, u, m)
    ensures Gone(EvictNode(cfg, c, n, u, promoteTo), u, m)
  {
    if u in c.tree[n].res && Evictable(c.tree[n].res[u]) {
      DetachKeeps(c.tree, n, u);
      PruneKeys(Detach(c.tree, n, u), n);
    }
  }

  lemma {:induction false} LoopStaysGone(cfg: Config, c: Cache, u: Tier, promoteTo: Option<Tier>, ns: seq<NodeId>, deficit: int, m: NodeId)
    requires Shaped(c) && Candidates(c, u, ns) && m !in ns && Gone(c, u, m)
    ensures Gone(EvictLoop(cfg, c, u, promoteTo, ns, deficit), u, m)
    decreases |ns|
  {
    if ns != [] && deficit > 0 {
      if CanEvict(c, u, ns[0]) {
        EvictRest(cfg, c, u, promoteTo, ns);
        EvictStaysGone(cfg, c, ns[0], u, promoteTo, m);
        LoopStaysGone(cfg, EvictNode(cfg, c, ns[0], u, promoteTo), u, promoteTo, ns[1..], deficit - Size(c, u, ns[0]), m);
      } else {
        LoopStaysGone(cfg, c, u, promoteTo, ns[1..], deficit, m);
      }
    }
  }

  lemma {:induction false} LoopKeepsOthers(cfg: Config, c: Cache, u: Tier, promoteTo: Option<Tier>, ns: seq<NodeId>, deficit: int, m: NodeId)
    requires Shaped(c) && Candidates(c, u, ns) && m !in ns && m in c.tree && u in c.tree[m].res
    ensures var r := EvictLoop(cfg, c, u, promoteTo, ns, deficit);
            m in r.tree && u in r.tree[m].res && r.tree[m].res[u] == c.tree[m].res[u]
    decreases |ns|
  {
    hide Shaped, EvictNode;
    if ns != [] && deficit > 0 {
      if CanEvict(c, u, ns[0]) {
        EvictRest(cfg, c, u, promoteTo, ns);
        EvictOthers(cfg, c, ns[0], u, promoteTo, m, u);
        LoopKeepsOthers(cfg, EvictNode(cfg, c, ns[0], u, promoteTo), u, promoteTo, ns[1..], deficit - Size(c, u, ns[0]), m);
      } else {
        LoopKeepsOthers(cfg, c, u, promoteTo, ns[1..], deficit, m);
      }
    }
  }

  ghost predicate Picked(os: seq<Offer>, deficit: int, n: NodeId) {
    exists o :: o in Taken(os, deficit) && o.n == n
  }

  lemma EvictGenuine(cfg: Config, c: Cache, n: NodeId, u: Tier, promoteTo: Option<Tier>)
    requires Shaped(c) && n in c.tree && Genuine(cfg, c)
    ensures Genuine(cfg, EvictNode(cfg, c, n, u, promoteTo))
  {
    forall v: Tier ensures Held(EvictNode(cfg, c, n, u, promoteTo), v) <= Held(c, v) { EvictHeld(cfg, c, n, u, promoteTo, v); }
    GenuineFrom(cfg, c, EvictNode(cfg, c, n, u, promoteTo));
  }

  /** From `c` to `r` tier `u` lost exactly the shortest prefix of the evictable nodes of `ns` that covers the deficit. */
  ghost predicate Sheds(c: Cache, r: Cache, u: Tier, ns: seq<NodeId>, deficit: int)
    requires Candidates(c, u, ns)
  {
    var os := Offers(c, u, ns);
    && |r.free.At(u)| == |c.free.At(u)| + Total(Taken(os, deficit))
    && (forall n :: n in ns && Picked(os, deficit, n) ==> Gone(r, u, n))
    && (forall n :: n in ns && !Picked(os, deficit, n) ==> n in r.tree && u in r.tree[n].res && r.tree[n].res[u] == c.tree[n].res[u])
  }

  /** The loop takes exactly the picked candidates off their tier, leaves every other candidate as it
      was, and frees exactly the picked units. */
  lemma {:induction false} LoopTakes(cfg: Config, c: Cache, u: Tier, promoteTo: Option<Tier>, ns: seq<NodeId>, deficit: int)
    requires Shaped(c) && Genuine(cfg, c) && Candidates(c, u, ns) && promoteTo != Some(u)
    ensures Sheds(c, EvictLoop(cfg, c, u, promoteTo, ns, deficit), u, ns, deficit)
    decreases |ns|
  {
    hide Shaped, Genuine, EvictNode;
    if ns != [] && deficit > 0 {
      var os := Offers(c, u, ns);
      TakenStep(os, deficit);
      if CanEvict(c, u, ns[0]) {
        LoopTakesFirst(cfg, c, u, promoteTo, ns, deficit);
      } else {
        LoopPassesFirst(cfg, c, u, promoteTo, ns, deficit);
      }
    }
  }

  lemma OffersRest(c: Cache, d: Cache, u: Tier, ns: seq<NodeId>)
    requires ns != [] && Candidates(c, u, ns) && Candidates(d, u, ns[1..])
    requires forall i :: 0 < i < |ns| ==> d.tree[ns[i]].res[u] == c.tree[ns[i]].res[u]
    ensures |Offers(c, u, ns)| == |ns| && Offers(c, u, ns)[1..] == Offers(d, u, ns[1..])
    ensures Offers(c, u, ns)[0] == Offer(ns[0], Size(c, u, ns[0]), CanEvict(c, u, ns[0]))
    ensures ns[0] !in ns[1..] && forall o :: o in Offers(c, u, ns)[1..] ==> o.n in ns[1..]
  {}

  lemma LoopTakesFirst(cfg: Config, c: Cache, u: Tier, promoteTo: Option<Tier>, ns: seq<NodeId>, deficit: int)
    requires Shaped(c) && Genuine(cfg, c) && Candidates(c, u, ns) && promoteTo != Some(u)
    requires ns != [] && deficit > 0 && CanEvict(c, u, ns[0])
    requires Taken(Offers(c, u, ns), deficit)
          == [Offers(c, u, ns)[0]] + Taken(Offers(c, u, ns)[1..], deficit - Size(c, u, ns[0]))
    ensures Sheds(c, EvictLoop(cfg, c, u, promoteTo, ns, deficit), u, ns, deficit)
    decreases |ns|, 0
  {
    hide Shaped, Genuine, EvictNode, Picked, Taken, Offers;
    EvictRest(cfg, c, u, promoteTo, ns);
    EvictFrees(cfg, c, ns[0], u, promoteTo);
    EvictGenuine(cfg, c, ns[0], u, promoteTo);
    var d := EvictNode(cfg, c, ns[0], u, promoteTo);
    var left := deficit - Size(c, u, ns[0]);
    OffersRest(c, d, u, ns);
    LoopTakes(cfg, d, u, promoteTo, ns[1..], left);
    LoopStaysGone(cfg, d, u, promoteTo, ns[1..], left, ns[0]);
    var os := Offers(c, u, ns);
    forall n ensures Picked(os, deficit, n) <==> n == ns[0] || Picked(os[1..], left, n) { PickedStep(os, deficit, left, n); }
    forall n | n in ns ensures n == ns[0] || n in ns[1..] {}
  }

  lemma PickedStep(os: seq<Offer>, deficit: int, left: int, n: NodeId)
    requires os != [] && Taken(os, deficit) == [os[0]] + Taken(os[1..], left)
    ensures Picked(os, deficit, n) <==> n == os[0].n || Picked(os[1..], left, n)
  {
    if o :| o in Taken(os[1..], left) && o.n == n { assert o in Taken(os, deficit); }
    assert os[0] in Taken(os, deficit);
  }

  lemma PickedOffered(os: seq<Offer>, deficit: int, n: NodeId)
    ensures Picked(os, deficit, n) ==> exists o :: o in os && o.n == n
  {
    if o :| o in Taken(os, deficit) && o.n == n { AbleHas(os, o); }
  }

  lemma LoopPassesFirst(cfg: Config, c: Cache, u: Tier, promoteTo: Option<Tier>, ns: seq<NodeId>, deficit: int)
    requires Shaped(c) && Genuine(cfg, c) && Candidates(c, u, ns) && promoteTo != Some(u)
    requires ns != [] && deficit > 0 && !CanEvict(c, u, ns[0])
    requires Taken(Offers(c, u, ns), deficit) == Taken(Offers(c, u, ns)[1..], deficit)
    ensures Sheds(c, EvictLoop(cfg, c, u, promoteTo, ns, deficit), u, ns, deficit)
    decreases |ns|, 0
  {
    hide Shaped, Genuine, EvictNode, Evictable, Offers, Taken, Gone, Total;
    OffersRest(c, c, u, ns);
    LoopTakes(cfg, c, u, promoteTo, ns[1..], deficit);
    LoopKeepsOthers(cfg, c, u, promoteTo, ns[1..], deficit, ns[0]);
    PickedOffered(Offers(c, u, ns)[1..], deficit, ns[0]);
    forall n ensures Picked(Offers(c, u, ns), deficit, n) <==> Picked(Offers(c, u, ns)[1..], deficit, n) {}
    forall n | n in ns ensures n == ns[0] || n in ns[1..] {}
  }

  // ---- the outcome -------------------------------------------------------------------------------

  lemma {:induction false} TotalAll(os: seq<Offer>, deficit: int)
    ensures Total(os[..Needed(os, deficit)]) >= deficit || Needed(os, deficit) == |os|
  {
    NeededLeast(os, deficit);
  }

  /** The loop ends with room for `need`, or with every evictable candidate gone from the tier. */
  lemma LoopEnough(cfg: Config, c: Cache, u: Tier, promoteTo: Option<Tier>, ns: seq<NodeId>, need: int)
    requires Shaped(c) && Genuine(cfg, c) && Candidates(c, u, ns) && promoteTo != Some(u)
    ensures var r := EvictLoop(cfg, c, u, promoteTo, ns, need - |c.free.At(u)|);
            || |r.free.At(u)| >= need
            || forall n :: n in ns && CanEvict(c, u, n) ==> Gone(r, u, n)
  {
    hide Shaped, Genuine, EvictLoop;
    var deficit := need - |c.free.At(u)|;
    LoopTakes(cfg, c, u, promoteTo, ns, deficit);
    var os := Offers(c, u, ns);
    TotalAll(Able(os), deficit);
    if Needed(Able(os), deficit) == |Able(os)| {
      forall n | n in ns && CanEvict(c, u, n) ensures Gone(EvictLoop(cfg, c, u, promoteTo, ns, deficit), u, n) {
        var i :| 0 <= i < |ns| && ns[i] == n;
        AllPicked(os, deficit, os[i]);
      }
    }
  }

  lemma {:induction false} TotalPrefix(os: seq<Offer>, k: nat)
    requires k <= |os|
    ensures Total(os[..k]) <= Total(os)
  {
    if k > 0 {
      TotalPrefix(os[1..], k - 1);
      assert os[..k][1..] == os[1..][..k - 1];
    }
  }

  /** What is taken covers the deficit exactly when all evictable offers together do. */
  lemma TakenCovers(os: seq<Offer>, deficit: int)
    ensures Total(Taken(os, deficit)) >= deficit <==> Total(Able(os)) >= deficit
  {
    var a := Able(os);
    TotalAll(a, deficit);
    TotalPrefix(a, Needed(a, deficit));
    assert a[..|a|] == a;
  }

  /** The nodes of `ns` that may be evicted. */
  ghost function AbleNodes(c: Cache, u: Tier, ns: seq<NodeId>): set<NodeId>
    requires Candidates(c, u, ns)
  {
    set n | n in ns && CanEvict(c, u, n)
  }

  /** The offers, whatever their order, add up to the units on those nodes. */
  lemma {:induction false} OfferUnits(c: Cache, u: Tier, ns: seq<NodeId>)
    requires Candidates(c, u, ns)
    ensures AbleNodes(c, u, ns) <= c.tree.Keys
    ensures Total(Able(Offers(c, u, ns))) == |SumOver(c.tree, AbleNodes(c, u, ns), u)|
    decreases |ns|
  {
    hide CanEvict, Able, Total;
    var os, s := Offers(c, u, ns), AbleNodes(c, u, ns);
    forall n | n in s ensures n in c.tree.Keys {}
    if ns == [] {
      assert os == [] && s == {};
      NothingAble();
    } else {
      OffersRest(c, c, u, ns);
      AbleTotal(os);
      OfferUnits(c, u, ns[1..]);
      var rest := AbleNodes(c, u, ns[1..]);
      if CanEvict(c, u, ns[0]) {
        assert ns[0] in s && s - {ns[0]} == rest;
        SumAt(c.tree, s, u, ns[0]);
        var own := NodeUnits(c.tree[ns[0]], u);
        assert |own| == os[0].size;
        assert SumOver(c.tree, s, u) == own + SumOver(c.tree, rest, u);
      } else {
        assert s == rest;
      }
    }
  }

  lemma NothingAble()
    ensures Total(Able([])) == 0
  {}

  /** Exactly when the loop makes room for `need`: when what is free and what the evictable candidates hold
      cover it. Nodes that become candidates on the way are not looked at. */
  lemma RoomIff(cfg: Config, c: Cache, u: Tier, promoteTo: Option<Tier>, ns: seq<NodeId>, need: int)
    requires Shaped(c) && Genuine(cfg, c) && Candidates(c, u, ns) && promoteTo != Some(u)
    ensures AbleNodes(c, u, ns) <= c.tree.Keys
    ensures |EvictLoop(cfg, c, u, promoteTo, ns, need - |c.free.At(u)|).free.At(u)| >= need
       <==> |c.free.At(u)| + |SumOver(c.tree, AbleNodes(c, u, ns), u)| >= need
  {
    hide Shaped, Genuine, EvictLoop, Taken, Able, Total, Offers, AbleNodes;
    LoopTakes(cfg, c, u, promoteTo, ns, need - |c.free.At(u)|);
    TakenCovers(Offers(c, u, ns), need - |c.free.At(u)|);
    OfferUnits(c, u, ns);
  }

  /** The candidates of the tree that may be evicted. */
  ghost function EvictableLeaves(t: Tree, u: Tier): (s: set<NodeId>)
    ensures s <= t.Keys
  {
    set n | n in t && Leafmost(t, u, n) && Evictable(t[n].res[u])
  }

  lemma AllPicked(os: seq<Offer>, deficit: int, o: Offer)
    requires Needed(Able(os), deficit) == |Able(os)| && o in os && o.able
    ensures Picked(os, deficit, o.n)
  {
    assert Able(os)[..|Able(os)|] == Able(os);
    AbleHas(os, o);
    assert o in Taken(os, deficit);
  }

  // ---- eviction without a deficit ----------------------------------------------------------------

  /** The loop of `evict_by_predicate`, over the chosen candidates. */
  function EvictEach(cfg: Config, c: Cache, u: Tier, ns: seq<NodeId>): (r: Cache)
    requires Shaped(c) && Candidates(c, u, ns)
    decreases |ns|
  {
    if ns == [] then c
    else if CanEvict(c, u, ns[0]) then
      EvictRest(cfg, c, u, None, ns);
      EvictEach(cfg, EvictNode(cfg, c, ns[0], u, None), u, ns[1..])
    else EvictEach(cfg, c, u, ns[1..])
  }

  lemma AbleTotal(os: seq<Offer>)
    ensures os != [] ==> Total(Able(os)) == (if os[0].able then os[0].size else 0) + Total(Able(os[1..]))
  {
    if os != [] {
      if os[0].able { assert Able(os)[1..] == Able(os[1..]); } else { assert Able(os) == Able(os[1..]); }
    }
  }

  /** It is the other loop with a deficit no amount of units covers. */
  lemma {:induction false} EachIsLoop(cfg: Config, c: Cache, u: Tier, ns: seq<NodeId>, deficit: int)
    requires Shaped(c) && Candidates(c, u, ns) && deficit > Total(Able(Offers(c, u, ns)))
    ensures EvictEach(cfg, c, u, ns) == EvictLoop(cfg, c, u, None, ns, deficit)
    decreases |ns|
  {
    hide Shaped, EvictNode, Able, Total, Offers;
    if ns != [] {
      AbleTotal(Offers(c, u, ns));
      if CanEvict(c, u, ns[0]) {
        EvictRest(cfg, c, u, None, ns);
        var d := EvictNode(cfg, c, ns[0], u, None);
        OffersRest(c, d, u, ns);
        EachIsLoop(cfg, d, u, ns[1..], deficit - Size(c, u, ns[0]));
      } else {
        OffersRest(c, c, u, ns);
        EachIsLoop(cfg, c, u, ns[1..], deficit);
      }
    }
  }

  lemma {:induction false} NeededAll(os: seq<Offer>, deficit: int)
    requires deficit > Total(os)
    ensures Needed(os, deficit) == |os|
  {
    if os != [] { NeededAll(os[1..], deficit - os[0].size); }
  }

  /** Every evictable candidate chosen is dropped, the others stay, and exactly the dropped units come free. */
  lemma EachDrops(cfg: Config, c: Cache, u: Tier, ns: seq<NodeId>)
    requires Shaped(c) && Genuine(cfg, c) && Candidates(c, u, ns)
    ensures var r := EvictEach(cfg, c, u, ns);
            && |r.free.At(u)| == |c.free.At(u)| + Total(Able(Offers(c, u, ns)))
            && (forall n :: n in ns && CanEvict(c, u, n) ==> Gone(r, u, n))
            && (forall n :: n in ns && !CanEvict(c, u, n) ==> n in r.tree && u in r.tree[n].res && r.tree[n].res[u] == c.tree[n].res[u])
  {
    hide Shaped, Genuine, EvictLoop, EvictEach;
    var os := Offers(c, u, ns);
    var deficit := Total(Able(os)) + 1;
    EachIsLoop(cfg, c, u, ns, deficit);
    LoopTakes(cfg, c, u, None, ns, deficit);
    NeededAll(Able(os), deficit);
    assert Able(os)[..|Able(os)|] == Able(os);
    forall n | n in ns ensures Picked(os, deficit, n) <==> CanEvict(c, u, n) {
      PickedIff(c, u, ns, deficit, n);
    }
  }

  lemma PickedIff(c: Cache, u: Tier, ns: seq<NodeId>, deficit: int, n: NodeId)
    requires Candidates(c, u, ns) && n in ns && Needed(Able(Offers(c, u, ns)), deficit) == |Able(Offers(c, u, ns))|
    ensures Picked(Offers(c, u, ns), deficit, n) <==> CanEvict(c, u, n)
  {
    var os := Offers(c, u, ns);
    assert Able(os)[..|Able(os)|] == Able(os);
    var i :| 0 <= i < |ns| && ns[i] == n;
    if CanEvict(c, u, n) { AllPicked(os, deficit, os[i]); }
    if o :| o in Taken(os, deficit) && o.n == n {
      AbleHas(os, o);
      var j :| 0 <= j < |os| && os[j] == o;
    }
  }
}
