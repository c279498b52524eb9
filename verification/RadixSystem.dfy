/** A cache with the handles its callers hold, as one state machine over arbitrary runs. */
module RadixSystem {
  import opened Basics
  import opened RadixPages
  import opened RadixTree
  import opened RadixUnits
  import opened RadixCache
  import opened RadixConserve
  import opened RadixInflight
  import opened RadixPins

  /** An `owned_units` object; moved-from, freed and released ones have no ids. */
  datatype Hand = Hand(tier: Tier, ids: seq<UnitId>)

  datatype Sys = Sys(cache: Cache, hands: seq<Hand>, released: PerTier<seq<UnitId>>)

  datatype Act =
    | Allocate(u: Tier, want: int)
    | TakeFirst(i: nat, n: nat)
    | TakeLast(i: nat, n: nat)
    | Append(i: nat, j: nat)
    | MoveAssign(i: nat, j: nat)
    | Destroy(i: nat)
    | Release(i: nat)
    | Match(q: seq<Page>)
    | Insert(u: Tier, q: seq<Page>, i: nat)
    | Evict(n: NodeId, u: Tier, promoteTo: Option<Tier>)
    | Start(n: NodeId, src: Tier, dst: Tier, isPromote: bool)
    | Complete(h: Handle, success: bool)
    | Pin(n: NodeId, u: Tier)
    | Unpin(n: NodeId, u: Tier)

  function NewSys(cfg: Config): Sys {
    Sys(NewCache(cfg), [], PerTier([], [], [], []))
  }

  /** Move the ids of handle `i` out, leaving it empty. */
  function Emptied(s: Sys, i: nat): Sys
    requires i < |s.hands|
  {
    s.(hands := s.hands[i := Hand(s.hands[i].tier, [])])
  }

  /** What a call on the cache alone makes of it. */
  function CacheAfter(cfg: Config, c: Cache, a: Act): Option<Cache>
    requires Shaped(c)
  {
    match a
    case Match(q) => Some(RadixCache.Match(c, q))
    case Evict(n, u, promoteTo) => Some(if n in c.tree then EvictNode(cfg, c, n, u, promoteTo) else c)
    case Start(n, src, dst, isPromote) =>
      if n !in c.tree then None else
        (match StartOp(cfg, c, n, src, dst, isPromote)
         case Ok(c') => Some(c')
         case Err(_) => Some(c))
    case Complete(h, success) =>
      (match CompleteOp(cfg, c, h, success)
       case Ok(c') => Some(c')
       case Err(e) => if e == DanglingNode then None else Some(c))
    case Pin(n, u) => if n in c.tree then Some(c.(tree := Pinned(c.tree, n, u))) else None
    case Unpin(n, u) => if n in c.tree then Some(c.(tree := Unpinned(c.tree, n, u))) else None
    case _ => Some(c)
  }

  function Allocated(s: Sys, u: Tier, n: nat): Sys
    requires n <= |s.cache.free.At(u)|
  {
    s.(cache := Take(s.cache, u, n), hands := s.hands + [Hand(u, Popped(s.cache.free.At(u), n))])
  }

  /** The destructor of handle `i`. */
  function Destroyed(cfg: Config, s: Sys, i: nat): Sys
    requires i < |s.hands|
  {
    Emptied(s.(cache := Give(cfg, s.cache, s.hands[i].tier, s.hands[i].ids)), i)
  }

  /** Handle `i` frees what it had and takes over what `j` had. */
  function Assigned(cfg: Config, s: Sys, i: nat, j: nat): Sys
    requires i < |s.hands| && j < |s.hands| && i != j
  {
    Emptied(s.(cache := Give(cfg, s.cache, s.hands[i].tier, s.hands[i].ids), hands := s.hands[i := s.hands[j]]), j)
  }

  /** What `append` leaves of handles `i` and `j`: the ids of `j` behind those of `i`, and `j` cleared, which
      for `i == j` clears the ids just joined. */
  function Appended(s: Sys, i: nat, j: nat): Sys
    requires i < |s.hands| && j < |s.hands|
  {
    Emptied(s.(hands := s.hands[i := Hand(s.hands[j].tier, s.hands[i].ids + s.hands[j].ids)]), j)
  }

  /** A full handle refuses units of another tier. */
  predicate Mismatched(s: Sys, i: nat, j: nat)
    requires i < |s.hands| && j < |s.hands|
  {
    s.hands[i].ids != [] && s.hands[i].tier != s.hands[j].tier
  }

  function Renounced(s: Sys, i: nat): Sys
    requires i < |s.hands|
  {
    var h := s.hands[i];
    Emptied(s.(released := s.released.With(h.tier, s.released.At(h.tier) + h.ids)), i)
  }

  /** One call. A call that throws changes nothing; None is a call the source does not define: it reads a
      freed node, attaches a node the tree refused, or inserts a vector's own range into it. */
  function Step(cfg: Config, s: Sys, a: Act): Option<Sys>
    requires Shaped(s.cache)
  {
    var c := s.cache;
    match a
    case Allocate(u, n) =>
      if u !in cfg.enabled || n < 0 || n > |c.free.At(u)| then Some(s)
      else Some(Allocated(s, u, n))
    case TakeFirst(i, n) =>
      if i >= |s.hands| || n > |s.hands[i].ids| then Some(s)
      else
        var h := s.hands[i];
        Some(s.(hands := s.hands[i := Hand(h.tier, h.ids[n..])] + [Hand(h.tier, h.ids[..n])]))
    case TakeLast(i, n) =>
      if i >= |s.hands| || n > |s.hands[i].ids| then Some(s)
      else
        var h, k := s.hands[i], |s.hands[i].ids| - n;
        Some(s.(hands := s.hands[i := Hand(h.tier, h.ids[..k])] + [Hand(h.tier, h.ids[k..])]))
    case Append(i, j) =>
      if i >= |s.hands| || j >= |s.hands| || s.hands[j].ids == [] || Mismatched(s, i, j) then Some(s)
      else if i == j then None
      else Some(Appended(s, i, j))
    case MoveAssign(i, j) =>
      if i >= |s.hands| || j >= |s.hands| || i == j then Some(s)
      else Some(Assigned(cfg, s, i, j))
    case Destroy(i) =>
      if i >= |s.hands| then Some(s) else Some(Destroyed(cfg, s, i))
    case Release(i) =>
      if i >= |s.hands| then Some(s) else Some(Renounced(s, i))
    case Insert(u, q, i) =>
      if i >= |s.hands| || s.hands[i].tier != u then Some(s)
      else
        (match RadixCache.Insert(cfg, c, u, q, s.hands[i].ids)
         case Ok(c') => Some(Emptied(s.(cache := c'), i))
         case Err(e) => if e == DanglingNode then None else Some(s))
    case _ =>
      (match CacheAfter(cfg, c, a)
       case Some(c') => Some(s.(cache := c'))
       case None => None)
  }

  // ---- every unit is somewhere -------------------------------------------------------------------

  function HandUnits(h: Hand, u: Tier): multiset<UnitId> {
    if h.tier == u then multiset(h.ids) else multiset{}
  }

  /** The units of tier `u` in live handles. */
  function Live(hands: seq<Hand>, u: Tier): multiset<UnitId> {
    if hands == [] then multiset{} else HandUnits(hands[0], u) + Live(hands[1..], u)
  }

  ghost function Whole(s: Sys, u: Tier): multiset<UnitId> {
    Held(s.cache, u) + Live(s.hands, u) + multiset(s.released.At(u))
  }

  ghost predicate Conserved(cfg: Config, s: Sys) {
    forall u: Tier :: Whole(s, u) == Universe(cfg.total.At(u))
  }

  ghost predicate Good(cfg: Config, s: Sys) {
    Shaped(s.cache) && Conserved(cfg, s) && Counted(cfg, s.cache)
  }

  lemma {:induction false} LiveAdd(hands: seq<Hand>, h: Hand, u: Tier)
    ensures Live(hands + [h], u) == Live(hands, u) + HandUnits(h, u)
  {
    if hands != [] {
      assert (hands + [h])[1..] == hands[1..] + [h];
      LiveAdd(hands[1..], h, u);
    }
  }

  lemma {:induction false} LivePut(hands: seq<Hand>, i: nat, h: Hand, u: Tier)
    requires i < |hands|
    ensures Live(hands[i := h], u) + HandUnits(hands[i], u) == Live(hands, u) + HandUnits(h, u)
    ensures HandUnits(hands[i], u) <= Live(hands, u)
  {
    if i > 0 {
      assert hands[i := h][1..] == hands[1..][i - 1 := h];
      LivePut(hands[1..], i - 1, h, u);
      Shuffle(HandUnits(hands[0], u), HandUnits(hands[i], u), Live(hands[i := h][1..], u), Live(hands[1..], u), HandUnits(h, u));
    } else {
      assert hands[0 := h][1..] == hands[1..];
    }
  }

  lemma InRangeOf(cfg: Config, u: Tier, m: multiset<UnitId>)
    requires m <= Universe(cfg.total.At(u))
    ensures InRange(cfg.total.At(u), m)
  {
    forall id | id in m ensures 0 < id < cfg.total.At(u) { UniverseHas(cfg.total.At(u), id); }
  }

  lemma HandInRange(cfg: Config, s: Sys, i: nat)
    requires Conserved(cfg, s) && i < |s.hands|
    ensures InRange(cfg.total.At(s.hands[i].tier), multiset(s.hands[i].ids))
  {
    var u := s.hands[i].tier;
    LivePut(s.hands, i, s.hands[i], u);
    assert Whole(s, u) == Universe(cfg.total.At(u));
    InRangeOf(cfg, u, multiset(s.hands[i].ids));
  }

  lemma SysGenuine(cfg: Config, s: Sys)
    requires Conserved(cfg, s)
    ensures Genuine(cfg, s.cache)
  {
    forall u: Tier ensures InRange(cfg.total.At(u), Held(s.cache, u)) {
      assert Whole(s, u) == Universe(cfg.total.At(u));
      InRangeOf(cfg, u, Held(s.cache, u));
    }
  }

  lemma EmptiedLive(s: Sys, i: nat, u: Tier)
    requires i < |s.hands|
    ensures Live(Emptied(s, i).hands, u) + HandUnits(s.hands[i], u) == Live(s.hands, u)
  {
    LivePut(s.hands, i, Hand(s.hands[i].tier, []), u);
  }

  /** Splitting a handle in two. */
  lemma TakenLive(hands: seq<Hand>, i: nat, keep: seq<UnitId>, out: seq<UnitId>, u: Tier)
    requires i < |hands| && multiset(hands[i].ids) == multiset(keep) + multiset(out)
    ensures Live(hands[i := Hand(hands[i].tier, keep)] + [Hand(hands[i].tier, out)], u) == Live(hands, u)
  {
    var t := hands[i].tier;
    LivePut(hands, i, Hand(t, keep), u);
    LiveAdd(hands[i := Hand(t, keep)], Hand(t, out), u);
    if t == u {
      assert Live(hands[i := Hand(t, keep)], u) + multiset(keep) + multiset(out) == Live(hands, u) + multiset(keep) by {
        assert Live(hands[i := Hand(t, keep)], u) + (multiset(keep) + multiset(out)) == Live(hands, u) + multiset(keep);
      }
      Swap(Live(hands[i := Hand(t, keep)], u), multiset(keep), multiset(out), Live(hands, u));
    }
  }

  lemma Swap(a: multiset<UnitId>, k: multiset<UnitId>, o: multiset<UnitId>, b: multiset<UnitId>)
    requires a + k + o == b + k
    ensures a + o == b
  {
    assert (a + o) + k == a + k + o;
    Cancel(a + o, b, k);
  }

  /** Moving the units of handle `j` behind those of handle `i`, which may change tier only when empty. */
  lemma JoinedLive(hands: seq<Hand>, i: nat, j: nat, h: Hand, u: Tier)
    requires i < |hands| && j < |hands| && i != j
    requires HandUnits(h, u) == HandUnits(hands[i], u) + HandUnits(hands[j], u)
    ensures Live(hands[i := h][j := Hand(hands[j].tier, [])], u) == Live(hands, u)
  {
    var a := hands[i := h];
    var b := a[j := Hand(hands[j].tier, [])];
    LivePut(hands, i, h, u);
    LivePut(a, j, Hand(hands[j].tier, []), u);
    Moved(Live(hands, u), Live(a, u), Live(b, u), HandUnits(hands[i], u), HandUnits(hands[j], u));
  }

  lemma Moved(x: multiset<UnitId>, y: multiset<UnitId>, z: multiset<UnitId>, hi: multiset<UnitId>, hj: multiset<UnitId>)
    requires y + hi == x + (hi + hj) && z + hj == y
    ensures z == x
  {
    assert y + hi == (x + hj) + hi;
    Cancel(y, x + hj, hi);
    Cancel(z, x, hj);
  }

  // ---- each call moves units without making or losing any ----------------------------------------

  lemma AllocateConserves(cfg: Config, s: Sys, u: Tier, n: nat, v: Tier)
    requires n <= |s.cache.free.At(u)|
    ensures Whole(Allocated(s, u, n), v) == Whole(s, v)
  {
    TakeHeld(s.cache, u, n, v);
    LiveAdd(s.hands, Hand(u, Popped(s.cache.free.At(u), n)), v);
  }

  lemma DestroyConserves(cfg: Config, s: Sys, i: nat, v: Tier)
    requires Conserved(cfg, s) && i < |s.hands|
    ensures Whole(Destroyed(cfg, s, i), v) == Whole(s, v)
  {
    HandInRange(cfg, s, i);
    GiveHeld(cfg, s.cache, s.hands[i].tier, s.hands[i].ids, v);
    EmptiedLive(s, i, v);
  }

  lemma AssignConserves(cfg: Config, s: Sys, i: nat, j: nat, v: Tier)
    requires Conserved(cfg, s) && i < |s.hands| && j < |s.hands| && i != j
    ensures Whole(Assigned(cfg, s, i, j), v) == Whole(s, v)
  {
    hide Held, Live, Give, Conserved;
    DestroyConserves(cfg, s, i, v);
    var e := Destroyed(cfg, s, i);
    JoinedLive(e.hands, i, j, s.hands[j], v);
    assert e.hands[i := s.hands[j]] == s.hands[i := s.hands[j]];
  }

  lemma ReleaseConserves(s: Sys, i: nat, v: Tier)
    requires i < |s.hands|
    ensures Whole(Renounced(s, i), v) == Whole(s, v)
  {
    EmptiedLive(s, i, v);
  }

  /** `take_first` when `k` is the count, `take_last` seen from the other side. */
  lemma TakeConserves(hands: seq<Hand>, i: nat, k: nat, v: Tier)
    requires i < |hands| && k <= |hands[i].ids|
    ensures var h := hands[i];
            && Live(hands[i := Hand(h.tier, h.ids[k..])] + [Hand(h.tier, h.ids[..k])], v) == Live(hands, v)
            && Live(hands[i := Hand(h.tier, h.ids[..k])] + [Hand(h.tier, h.ids[k..])], v) == Live(hands, v)
  {
    var ids := hands[i].ids;
    assert ids == ids[..k] + ids[k..];
    TakenLive(hands, i, ids[k..], ids[..k], v);
    TakenLive(hands, i, ids[..k], ids[k..], v);
  }

  lemma AppendConserves(hands: seq<Hand>, i: nat, j: nat, v: Tier)
    requires i < |hands| && j < |hands| && i != j && (hands[i].ids == [] || hands[i].tier == hands[j].tier)
    ensures Live(hands[i := Hand(hands[j].tier, hands[i].ids + hands[j].ids)][j := Hand(hands[j].tier, [])], v) == Live(hands, v)
  {
    assert hands[i].ids == [] ==> hands[i].ids + hands[j].ids == hands[j].ids;
    JoinedLive(hands, i, j, Hand(hands[j].tier, hands[i].ids + hands[j].ids), v);
  }

  /** A handle appended to itself loses all it holds, and nothing else moves. */
  lemma SelfAppendDrops(s: Sys, i: nat, v: Tier)
    requires i < |s.hands|
    ensures Whole(Appended(s, i, i), v) + HandUnits(s.hands[i], v) == Whole(s, v)
  {
    hide Held;
    var h := s.hands[i];
    var e := Hand(h.tier, []);
    assert s.hands[i := Hand(h.tier, h.ids + h.ids)][i := e] == s.hands[i := e];
    LivePut(s.hands, i, e, v);
    assert Appended(s, i, i).hands == s.hands[i := e];
    assert HandUnits(e, v) == multiset{};
    assert Live(s.hands[i := e], v) + HandUnits(h, v) == Live(s.hands, v);
  }

  lemma OthersAppend(s: Sys, i: nat, j: nat, v: Tier)
    requires i < |s.hands| && j < |s.hands| && i != j && !Mismatched(s, i, j)
    ensures Whole(Appended(s, i, j), v) == Whole(s, v)
  {
    hide Held, Live;
    AppendConserves(s.hands, i, j, v);
  }

  /** Appending, where the allocators agree, keeps every tier's units if and only if the two handles differ or
      the appended one is empty. */
  lemma AppendConservesIff(s: Sys, i: nat, j: nat)
    requires i < |s.hands| && j < |s.hands| && !Mismatched(s, i, j)
    ensures (forall v: Tier :: Whole(Appended(s, i, j), v) == Whole(s, v)) <==> i != j || s.hands[j].ids == []
  {
    hide Whole, Appended;
    if i != j {
      forall v: Tier ensures Whole(Appended(s, i, j), v) == Whole(s, v) { OthersAppend(s, i, j, v); }
    } else {
      var h := s.hands[i];
      forall v: Tier ensures Whole(Appended(s, i, i), v) + HandUnits(h, v) == Whole(s, v) { SelfAppendDrops(s, i, v); }
      if h.ids != [] {
        assert h.ids[0] in HandUnits(h, h.tier);
        assert Whole(Appended(s, i, i), h.tier)[h.ids[0]] < Whole(s, h.tier)[h.ids[0]];
      }
    }
  }

  lemma InsertConserves(cfg: Config, s: Sys, u: Tier, q: seq<Page>, i: nat, v: Tier)
    requires Shaped(s.cache) && Conserved(cfg, s) && Inserts(cfg, s, u, q, i)
    ensures Whole(Emptied(s.(cache := RadixCache.Insert(cfg, s.cache, u, q, s.hands[i].ids).value), i), v) == Whole(s, v)
  {
    HandInRange(cfg, s, i);
    InsertHeld(cfg, s.cache, u, q, s.hands[i].ids, v);
    EmptiedLive(s, i, v);
  }

  predicate Inserts(cfg: Config, s: Sys, u: Tier, q: seq<Page>, i: nat)
    requires Shaped(s.cache)
  {
    i < |s.hands| && s.hands[i].tier == u && RadixCache.Insert(cfg, s.cache, u, q, s.hands[i].ids).Ok?
  }

  lemma StartHeld(cfg: Config, c: Cache, n: NodeId, src: Tier, dst: Tier, isPromote: bool, v: Tier)
    requires n in c.tree && Genuine(cfg, c)
    ensures var r := StartOp(cfg, c, n, src, dst, isPromote); r.Ok? ==> Held(r.value, v) == Held(c, v)
  {
    if StartOp(cfg, c, n, src, dst, isPromote).Ok? {
      ReserveHeld(cfg, c, n, src, dst, isPromote, |c.tree[n].res[src].ids|, v);
    }
  }

  lemma PinHeld(c: Cache, n: NodeId, u: Tier, v: Tier)
    requires n in c.tree
    ensures Held(c.(tree := Pinned(c.tree, n, u)), v) == Held(c, v) == Held(c.(tree := Unpinned(c.tree, n, u)), v)
  {
    hide Pinned, Unpinned, Twin;
    PinTwin(c.tree, n, u);
    TwinUnits(c.tree, Pinned(c.tree, n, u), v);
    TwinUnits(c.tree, Unpinned(c.tree, n, u), v);
  }

  lemma CacheConserves(cfg: Config, c: Cache, a: Act, v: Tier)
    requires Shaped(c) && Genuine(cfg, c)
    ensures var r := CacheAfter(cfg, c, a); r.Some? ==> Held(r.value, v) == Held(c, v)
  {
    hide Held, Genuine, Shaped;
    match a
    case Match(q) => MatchHeld(c, q, v);
    case Evict(n, u, to) => if n in c.tree { EvictHeld(cfg, c, n, u, to, v); }
    case Start(n, src, dst, p) => if n in c.tree { StartHeld(cfg, c, n, src, dst, p, v); }
    case Complete(h, ok) => if CompleteOp(cfg, c, h, ok).Ok? { CompleteHeld(cfg, c, h, ok, v); }
    case Pin(n, u) => if n in c.tree { PinHeld(c, n, u, v); }
    case Unpin(n, u) => if n in c.tree { PinHeld(c, n, u, v); }
    case _ =>
  }

  /** Splitting and joining handles. */
  lemma HandsWhole(cfg: Config, s: Sys, a: Act, v: Tier)
    requires Shaped(s.cache) && (a.TakeFirst? || a.TakeLast? || a.Append?)
    requires Step(cfg, s, a).Some?
    ensures Whole(Step(cfg, s, a).value, v) == Whole(s, v)
  {
    hide Held, Live, Shaped;
    match a
    case TakeFirst(i, n) => if i < |s.hands| && n <= |s.hands[i].ids| { TakeConserves(s.hands, i, n, v); }
    case TakeLast(i, n) => if i < |s.hands| && n <= |s.hands[i].ids| { TakeConserves(s.hands, i, |s.hands[i].ids| - n, v); }
    case Append(i, j) =>
      if i < |s.hands| && j < |s.hands| && i != j && !Mismatched(s, i, j) {
        AppendConserves(s.hands, i, j, v);
      }
  }

  /** A call on the cache alone. */
  lemma CacheWhole(cfg: Config, s: Sys, c: Cache, v: Tier)
    requires Held(c, v) == Held(s.cache, v)
    ensures Whole(s.(cache := c), v) == Whole(s, v)
  {
    hide Held, Live;
  }

  /** One call moves units between the places, and makes or loses none. */
  lemma StepWhole(cfg: Config, s: Sys, a: Act, v: Tier)
    requires Shaped(s.cache) && Conserved(cfg, s) && Step(cfg, s, a).Some?
    ensures Whole(Step(cfg, s, a).value, v) == Whole(s, v)
  {
    hide Whole, Held, Conserved, Shaped, CacheAfter, Allocated, Assigned, Destroyed, Renounced, Emptied;
    match a
    case Allocate(u, n) => if 0 <= n <= |s.cache.free.At(u)| { AllocateConserves(cfg, s, u, n, v); }
    case MoveAssign(i, j) => if i < |s.hands| && j < |s.hands| && i != j { AssignConserves(cfg, s, i, j, v); }
    case Destroy(i) => if i < |s.hands| { DestroyConserves(cfg, s, i, v); }
    case Release(i) => if i < |s.hands| { ReleaseConserves(s, i, v); }
    case Insert(u, q, i) => if Inserts(cfg, s, u, q, i) { InsertConserves(cfg, s, u, q, i, v); }
    case TakeFirst(_, _) => HandsWhole(cfg, s, a, v);
    case TakeLast(_, _) => HandsWhole(cfg, s, a, v);
    case Append(_, _) => HandsWhole(cfg, s, a, v);
    case _ =>
      SysGenuine(cfg, s);
      CacheConserves(cfg, s.cache, a, v);
      CacheWhole(cfg, s, CacheAfter(cfg, s.cache, a).value, v);
  }

  lemma StepConserves(cfg: Config, s: Sys, a: Act)
    requires Shaped(s.cache) && Conserved(cfg, s) && Step(cfg, s, a).Some?
    ensures Conserved(cfg, Step(cfg, s, a).value)
  {
    var r := Step(cfg, s, a).value;
    forall v: Tier ensures Whole(r, v) == Universe(cfg.total.At(v)) {
      assert Whole(s, v) == Universe(cfg.total.At(v));
      StepWhole(cfg, s, a, v);
    }
  }

  // ---- shape and counters ------------------------------------------------------------------------

  lemma PinShaped(c: Cache, n: NodeId, u: Tier)
    requires Shaped(c) && n in c.tree
    ensures Shaped(c.(tree := Pinned(c.tree, n, u))) && Shaped(c.(tree := Unpinned(c.tree, n, u)))
  {
    hide WF;
    PinTwin(c.tree, n, u);
    TwinWF(c.tree, Pinned(c.tree, n, u));
    TwinWF(c.tree, Unpinned(c.tree, n, u));
  }

  lemma StepShaped(cfg: Config, s: Sys, a: Act)
    requires Shaped(s.cache) && Step(cfg, s, a).Some?
    ensures Shaped(Step(cfg, s, a).value.cache)
  {
    hide WF, AttachAt, Repinned, OnChain, Detach;
    var c := s.cache;
    match a
    case Insert(u, q, i) =>
      if i < |s.hands| && RadixCache.Insert(cfg, c, u, q, s.hands[i].ids).Ok? { InsertShaped(cfg, c, u, q, s.hands[i].ids); }
    case Evict(n, u, to) => if n in c.tree { EvictShaped(cfg, c, n, u, to); }
    case Start(n, src, dst, p) => if StartOp(cfg, c, n, src, dst, p).Ok? { StartShaped(cfg, c, n, src, dst, p); }
    case Complete(h, ok) => if CompleteOp(cfg, c, h, ok).Ok? { CompleteShaped(cfg, c, h, ok); }
    case Pin(n, u) => if n in c.tree { PinShaped(c, n, u); }
    case Unpin(n, u) => if n in c.tree { PinShaped(c, n, u); }
    case _ =>
  }

  lemma StepCounted(cfg: Config, s: Sys, a: Act)
    requires Shaped(s.cache) && Counted(cfg, s.cache) && Step(cfg, s, a).Some?
    ensures Counted(cfg, Step(cfg, s, a).value.cache)
  {
    hide WF, Unpinned;
    var c := s.cache;
    match a
    case Evict(n, u, to) => if n in c.tree { EvictCounted(cfg, c, n, u, to); }
    case Start(n, src, dst, p) =>
      if StartOp(cfg, c, n, src, dst, p).Ok? { ReserveCounted(cfg, c, n, src, dst, p, |c.tree[n].res[src].ids|); }
    case Complete(h, ok) => if h in c.inflight { SettleCounted(cfg, c, h); }
    case _ =>
  }

  // ---- runs --------------------------------------------------------------------------------------

  function Run(cfg: Config, s: Sys, acts: seq<Act>): Option<Sys>
    requires Shaped(s.cache)
    decreases |acts|
  {
    if acts == [] then Some(s) else
      match Step(cfg, s, acts[0])
      case None => None
      case Some(r) => StepShaped(cfg, s, acts[0]); Run(cfg, r, acts[1..])
  }

  lemma {:induction false} RunAppend(cfg: Config, s: Sys, a: seq<Act>, b: seq<Act>)
    requires Shaped(s.cache)
    ensures Run(cfg, s, a).Some? ==> Shaped(Run(cfg, s, a).value.cache)
    ensures Run(cfg, s, a + b) == if Run(cfg, s, a).None? then None else Run(cfg, Run(cfg, s, a).value, b)
    decreases |a|
  {
    hide Step, WF;
    if a == [] {
      assert a + b == b;
    } else {
      assert (a + b)[1..] == a[1..] + b;
      if Step(cfg, s, a[0]).Some? {
        StepShaped(cfg, s, a[0]);
        RunAppend(cfg, Step(cfg, s, a[0]).value, a[1..], b);
      }
    }
  }

  lemma RunOne(cfg: Config, s: Sys, a: Act)
    requires Shaped(s.cache)
    ensures Run(cfg, s, [a]) == Step(cfg, s, a)
    ensures Step(cfg, s, a).Some? ==> Shaped(Step(cfg, s, a).value.cache)
  {
    hide Step;
    if Step(cfg, s, a).Some? {
      StepShaped(cfg, s, a);
      assert Run(cfg, Step(cfg, s, a).value, [a][1..]) == Step(cfg, s, a);
    }
  }

  /** A run and one more call. */
  lemma RunThen(cfg: Config, s: Sys, acts: seq<Act>, a: Act)
    requires Shaped(s.cache) && Run(cfg, s, acts).Some?
    ensures var r := Run(cfg, s, acts).value; Shaped(r.cache) && Run(cfg, s, acts + [a]) == Step(cfg, r, a)
  {
    RunAppend(cfg, s, acts, [a]);
    RunOne(cfg, Run(cfg, s, acts).value, a);
  }

  /** Every run keeps the tree well formed, every unit in exactly one place, and the counters exact. */
  lemma {:induction false} RunGood(cfg: Config, s: Sys, acts: seq<Act>)
    requires Good(cfg, s) && Run(cfg, s, acts).Some?
    ensures Good(cfg, Run(cfg, s, acts).value)
    decreases |acts|
  {
    if acts != [] {
      StepShaped(cfg, s, acts[0]);
      StepConserves(cfg, s, acts[0]);
      StepCounted(cfg, s, acts[0]);
      RunGood(cfg, Step(cfg, s, acts[0]).value, acts[1..]);
    }
  }

  lemma NewGood(cfg: Config)
    ensures Good(cfg, NewSys(cfg)) && InFlightOk(NewSys(cfg).cache)
  {
    hide Universe, Fresh, Claimed, Reserved, HandUnits;
    var s := NewSys(cfg);
    forall u: Tier ensures Whole(s, u) == Universe(cfg.total.At(u)) {
      FreshIsUniverse(cfg.total.At(u));
      assert s.cache.free.At(u) == Fresh(cfg.total.At(u));
      TreeUnitsPut(EMPTY, u, ROOT, EMPTY[ROOT]);
      assert EMPTY.Keys - {ROOT} == {};
    }
    assert forall u: Tier :: s.cache.pending.At(u) == 0;
  }

  /** The state after calls on a new cache. */
  ghost function StateAfter(cfg: Config, acts: seq<Act>): Option<Sys> {
    NewGood(cfg);
    Run(cfg, NewSys(cfg), acts)
  }

  lemma {:induction false} UniverseSize(total: nat)
    ensures |Universe(total)| == if total == 0 then 0 else total - 1
  {
    if total > 1 { UniverseSize(total - 1); }
  }

  /** In every reachable state each of 1..total-1 is in exactly one of: the free list, a node, a live
      handle, the released ids; no other id is anywhere; and the allocator's active count is the number of
      units that are on nodes, in handles, or released. */
  lemma OnePlace(cfg: Config, acts: seq<Act>, u: Tier, id: UnitId)
    requires StateAfter(cfg, acts).Some?
    ensures var s := StateAfter(cfg, acts).value; var total := cfg.total.At(u);
            && multiset(s.cache.free.At(u))[id] + TreeUnits(s.cache.tree, u)[id] + Live(s.hands, u)[id]
               + multiset(s.released.At(u))[id] == (if 0 < id < total then 1 else 0)
            && ActiveCount(total, |s.cache.free.At(u)|)
               == |TreeUnits(s.cache.tree, u)| + |Live(s.hands, u)| + |s.released.At(u)|
  {
    NewGood(cfg);
    RunGood(cfg, NewSys(cfg), acts);
    var s := StateAfter(cfg, acts).value;
    assert Whole(s, u) == Universe(cfg.total.At(u));
    UniverseHas(cfg.total.At(u), id);
    UniverseSize(cfg.total.At(u));
  }

  /** No unit is attached twice: neither to two nodes, nor twice to one. */
  lemma NodesApart(cfg: Config, s: Sys, n: NodeId, m: NodeId, u: Tier, i: nat, j: nat)
    requires Conserved(cfg, s) && n in s.cache.tree && m in s.cache.tree
    requires u in s.cache.tree[n].res && u in s.cache.tree[m].res
    requires i < |s.cache.tree[n].res[u].ids| && j < |s.cache.tree[m].res[u].ids|
    requires s.cache.tree[n].res[u].ids[i] == s.cache.tree[m].res[u].ids[j]
    ensures n == m && i == j
  {
    var t := s.cache.tree;
    var id := t[n].res[u].ids[i];
    assert Whole(s, u) == Universe(cfg.total.At(u));
    UniverseHas(cfg.total.At(u), id);
    SumAt(t, t.Keys, u, n);
    assert id in multiset(t[n].res[u].ids) && id in multiset(t[m].res[u].ids);
    if n != m {
      SumAt(t, t.Keys - {n}, u, m);
    } else if i != j {
      Twice(t[n].res[u].ids, i, j);
    }
  }

  lemma Twice(ids: seq<UnitId>, i: nat, j: nat)
    requires i < |ids| && j < |ids| && i != j && ids[i] == ids[j]
    ensures multiset(ids)[ids[i]] >= 2
  {
    var a, b := if i < j then i else j, if i < j then j else i;
    assert ids == ids[..b] + ids[b..];
    assert ids[..b][a] == ids[i] && ids[b..][0] == ids[i];
    assert ids[i] in multiset(ids[..b]) && ids[i] in multiset(ids[b..]);
  }

  /** One unit allocated on the device and its handle appended to itself: a call the source does not define, and
      one that would leave the unit nowhere. */
  lemma SelfAppendLoses()
    ensures var cfg := Config({Device}, PerTier(2, 0, 0, 0), PerTier(0, 0, 0, 0)); var s := Allocated(NewSys(cfg), Device, 1);
            && Shaped(NewSys(cfg).cache) && Run(cfg, NewSys(cfg), [Allocate(Device, 1)]) == Some(s)
            && s.hands == [Hand(Device, [1])]
            && Shaped(s.cache) && Step(cfg, s, Append(0, 0)).None?
            && Appended(s, 0, 0).hands == [Hand(Device, [])] && !Conserved(cfg, Appended(s, 0, 0))
  {
    hide Held, Live, WF;
    var cfg := Config({Device}, PerTier(2, 0, 0, 0), PerTier(0, 0, 0, 0));
    var n := NewSys(cfg);
    var s := Allocated(n, Device, 1);
    NewGood(cfg);
    RunOne(cfg, n, Allocate(Device, 1));
    assert n.cache.free.At(Device) == [1];
    assert Popped([1], 1) == [1];
    SelfAppendDrops(s, 0, Device);
    AllocateConserves(cfg, n, Device, 1, Device);
    assert Whole(n, Device) == Universe(2);
    UniverseHas(2, 1);
    assert Appended(s, 0, 0).hands == [Hand(Device, [])];
    assert Whole(Appended(s, 0, 0), Device)[1] == 0;
  }

  // ---- operations in flight, over runs -----------------------------------------------------------

  /** Exactly the calls that leave every operation in flight with its node and its pending resource. */
  ghost predicate Careful(cfg: Config, s: Sys, a: Act)
    requires Shaped(s.cache)
  {
    var c := s.cache;
    match a
    case Match(q) => !SplitsPending(c.tree, q)
    case Insert(u, q, i) => Inserts(cfg, s, u, q, i) ==> !SplitsPending(c.tree, q)
    case Evict(n, u, to) => n in c.tree ==> !(Demotes(cfg, c, n, u, to) && PendingAt(c.tree, n, to.value))
    case Start(n, src, dst, p) => n in c.tree && StartOp(cfg, c, n, src, dst, p).Ok? ==> !PendingAt(c.tree, n, dst)
    case Complete(h, ok) => h in c.inflight ==> !(ok && LosesSource(c, c.inflight[h]))
    case _ => true
  }

  /** A call that leaves tree, table and next handle alone. */
  lemma HandsInFlight(cfg: Config, s: Sys, a: Act)
    requires Shaped(s.cache) && InFlightOk(s.cache)
    requires !a.Insert? && !a.Match? && !a.Evict? && !a.Start? && !a.Complete? && !a.Pin? && !a.Unpin?
    ensures Step(cfg, s, a).Some? ==> InFlightOk(Step(cfg, s, a).value.cache)
  {
    hide Shaped, Agree;
  }

  lemma InsertInFlight(cfg: Config, s: Sys, u: Tier, q: seq<Page>, i: nat)
    requires Shaped(s.cache) && InFlightOk(s.cache)
    ensures var r := Step(cfg, s, Insert(u, q, i));
            r.Some? ==> (InFlightOk(r.value.cache) <==> (Inserts(cfg, s, u, q, i) ==> !SplitsPending(s.cache.tree, q)))
  {
    hide Shaped, Agree, RadixCache.Insert, SplitsPending;
    if Inserts(cfg, s, u, q, i) { InsertKeepsIff(cfg, s.cache, u, q, s.hands[i].ids); }
  }

  lemma StartInFlight(cfg: Config, c: Cache, n: NodeId, src: Tier, dst: Tier, p: bool)
    requires Shaped(c) && InFlightOk(c) && 0 < c.nextHandle && n in c.tree
    ensures var r := CacheAfter(cfg, c, Start(n, src, dst, p));
            r.Some? && (InFlightOk(r.value) <==> (StartOp(cfg, c, n, src, dst, p).Ok? ==> !PendingAt(c.tree, n, dst)))
  {
    hide Shaped, InFlightOk, StartOp, PendingAt;
    if StartOp(cfg, c, n, src, dst, p).Ok? { StartKeepsIff(cfg, c, n, src, dst, p); }
  }

  lemma CompleteInFlight(cfg: Config, c: Cache, h: Handle, ok: bool)
    requires Shaped(c) && InFlightOk(c)
    ensures var r := CacheAfter(cfg, c, Complete(h, ok));
            r.Some? && (InFlightOk(r.value) <==> (h in c.inflight ==> !(ok && LosesSource(c, c.inflight[h]))))
  {
    hide Shaped, InFlightOk, LosesSource;
    if h in c.inflight {
      hide CompleteOp;
      CompleteKeepsIff(cfg, c, h, ok);
    }
  }

  lemma PinInFlight(c: Cache, n: NodeId, u: Tier)
    requires InFlightOk(c) && n in c.tree
    ensures InFlightOk(c.(tree := Pinned(c.tree, n, u))) && InFlightOk(c.(tree := Unpinned(c.tree, n, u)))
  {
    hide Agree, Pinned, Unpinned, Twin;
    PinTwin(c.tree, n, u);
    TwinAgrees(c.tree, Pinned(c.tree, n, u), c.inflight);
    TwinAgrees(c.tree, Unpinned(c.tree, n, u), c.inflight);
  }

  /** One call keeps the table of operations in flight exact if and only if it is careful; and a completion
      is then never undefined. */
  lemma CarefulIff(cfg: Config, s: Sys, a: Act)
    requires Shaped(s.cache) && InFlightOk(s.cache) && 0 < s.cache.nextHandle
    ensures a.Complete? ==> Step(cfg, s, a).Some?
    ensures Step(cfg, s, a).Some? ==> (InFlightOk(Step(cfg, s, a).value.cache) <==> Careful(cfg, s, a))
  {
    hide Shaped, InFlightOk, Inserts, Demotes, PendingAt, LosesSource, SplitsPending, RadixCache.Match, RadixCache.Insert,
      EvictNode, StartOp, CompleteOp, Pinned, Unpinned;
    var c := s.cache;
    match a
    case Match(q) => MatchKeepsIff(c, q);
    case Insert(u, q, i) => InsertInFlight(cfg, s, u, q, i);
    case Evict(n, u, to) => if n in c.tree { EvictKeepsIff(cfg, c, n, u, to); }
    case Start(n, src, dst, p) => if n in c.tree { StartInFlight(cfg, c, n, src, dst, p); }
    case Complete(h, ok) => CompleteInFlight(cfg, c, h, ok);
    case Pin(n, u) => if n in c.tree { PinInFlight(c, n, u); }
    case Unpin(n, u) => if n in c.tree { PinInFlight(c, n, u); }
    case _ => HandsInFlight(cfg, s, a);
  }

  ghost predicate AllCareful(cfg: Config, s: Sys, acts: seq<Act>)
    requires Shaped(s.cache)
    decreases |acts|
  {
    acts == [] || (Careful(cfg, s, acts[0])
                   && (Step(cfg, s, acts[0]).Some? ==> (StepShaped(cfg, s, acts[0]);
                                                        AllCareful(cfg, Step(cfg, s, acts[0]).value, acts[1..]))))
  }

  /** Over every run of careful calls, each operation in flight has its node in the tree, holding the
      destination pending under its handle, and every pending resource belongs to one operation. */
  lemma {:induction false} RunInFlight(cfg: Config, s: Sys, acts: seq<Act>)
    requires Good(cfg, s) && InFlightOk(s.cache) && AllCareful(cfg, s, acts) && Run(cfg, s, acts).Some?
    ensures InFlightOk(Run(cfg, s, acts).value.cache)
    decreases |acts|
  {
    if acts != [] {
      StepShaped(cfg, s, acts[0]);
      StepConserves(cfg, s, acts[0]);
      StepCounted(cfg, s, acts[0]);
      CarefulIff(cfg, s, acts[0]);
      RunInFlight(cfg, Step(cfg, s, acts[0]).value, acts[1..]);
    }
  }

  // ---- a handle is used once ---------------------------------------------------------------------

  lemma StepRetired(cfg: Config, s: Sys, a: Act, h: Handle)
    requires Shaped(s.cache) && Step(cfg, s, a).Some? && Retired(s.cache, h)
    ensures Retired(Step(cfg, s, a).value.cache, h)
  {
    hide WF;
  }

  /** Once completed, an operation stays completed: in every later state its handle is refused, and no new
      operation gets it. */
  lemma {:induction false} RunRetired(cfg: Config, s: Sys, acts: seq<Act>, h: Handle, success: bool)
    requires Shaped(s.cache) && Retired(s.cache, h) && Run(cfg, s, acts).Some?
    ensures var c := Run(cfg, s, acts).value.cache;
            Retired(c, h) && Shaped(c) && CompleteOp(cfg, c, h, success) == Err(UnknownHandle) && c.nextHandle != h
    decreases |acts|
  {
    if acts != [] {
      StepShaped(cfg, s, acts[0]);
      StepRetired(cfg, s, acts[0], h);
      RunRetired(cfg, Step(cfg, s, acts[0]).value, acts[1..], h, success);
    }
  }
}
