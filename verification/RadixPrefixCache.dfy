/** `prefix_cache` as the object it is. Every method is proved against the functions of RadixCache,
    RadixStore and RadixCapacity, whose properties the other modules establish. */
module RadixPrefixCache {
  import opened Basics
  import opened RadixPages
  import opened RadixTree
  import opened RadixSlots
  import opened RadixWalk
  import opened RadixStore
  import opened RadixUnits
  import opened RadixCache
  import opened RadixConserve
  import opened RadixInflight
  import opened RadixEvict
  import opened RadixCapacity
  import opened RadixDemote
  import opened RadixAllocator
  import opened RadixDescend

  datatype MatchResult = MatchResult(last: map<Tier, NodeId>, matchedAtoms: map<Tier, nat>)

  datatype InsertResult = InsertResult(last: NodeId, insertedAtoms: nat, freedUnits: nat)

  function Atoms(pages: nat, atomsPerUnit: nat): nat {
    pages * atomsPerUnit
  }

  // ---- page alignment ----------------------------------------------------------------------------

  lemma MultipleIff(n: nat, d: nat, k: nat)
    requires d > 0
    ensures n == k * d ==> n % d == 0 && n / d == k
    ensures n % d == 0 ==> n == (n / d) * d
  {
    assert n == (n / d) * d + n % d;
    if n == k * d {
      if k > n / d { MulLe(n / d + 1, k, d); }
      if k < n / d { MulLe(k + 1, n / d, d); }
    }
  }

  /** A whole number of pages is a whole number of atoms. */
  lemma PagesAreAtoms(n: nat, atomBytes: nat, atomsPerUnit: nat, pageBytes: nat)
    requires atomBytes > 0 && pageBytes > 0 && pageBytes == atomsPerUnit * atomBytes && n % pageBytes == 0
    ensures n % atomBytes == 0
  {
    var k := n / pageBytes;
    MultipleIff(n, pageBytes, k);
    PageOffset(k, atomsPerUnit, atomBytes);
    MultipleIff(n, atomBytes, k * atomsPerUnit);
  }

  /** The pages of a page-aligned query. */
  function PagesOf(q: seq<byte>, pageBytes: nat): seq<Page>
    requires pageBytes > 0 && |q| % pageBytes == 0
  {
    MultipleIff(|q|, pageBytes, 0);
    Chop(q, pageBytes, |q| / pageBytes)
  }

  /** The configuration in force: a tier without units is disabled, a disabled tier has no units. */
  function Normalised(enabled: set<Tier>, total: PerTier<nat>, cap: PerTier<int>): (cfg: Config)
    ensures forall u: Tier :: u in cfg.enabled <==> u in enabled && total.At(u) > 0
    ensures forall u: Tier :: cfg.total.At(u) == if u in cfg.enabled then total.At(u) else 0
  {
    var used := PerTier(if Device in enabled then total.device else 0, if Host in enabled then total.host else 0,
                        if Disk in enabled then total.disk else 0, if Remote in enabled then total.remote else 0);
    Config((set u | u in enabled && total.At(u) > 0), used, cap)
  }

  // ---- the object --------------------------------------------------------------------------------

  class PrefixCache {
    const cfg: Config
    const atomBytes: nat
    const atomsPerUnit: nat
    const pageBytes: nat
    const device: UnitAllocator
    const host: UnitAllocator
    const disk: UnitAllocator
    const remote: UnitAllocator
    var tree: Tree
    var next: NodeId
    var inflight: map<Handle, PendingOp>
    var pending: PerTier<int>
    var nextHandle: Handle

    function AllocatorOf(u: Tier): UnitAllocator {
      match u case Device => device case Host => host case Disk => disk case Remote => remote
    }

    ghost function Repr(): set<object> {
      {this, device, host, disk, remote}
    }

    ghost predicate Wired() {
      && device != host && device != disk && device != remote && host != disk && host != remote && disk != remote
      && (forall u: Tier :: AllocatorOf(u).tier == u && AllocatorOf(u).total == cfg.total.At(u))
      && atomBytes > 0 && atomsPerUnit > 0 && pageBytes == atomsPerUnit * atomBytes && pageBytes > 0
    }

    ghost function State(): Cache
      reads Repr()
    {
      Cache(tree, next, PerTier(device.free, host.free, disk.free, remote.free), inflight, pending, nextHandle)
    }

    ghost predicate Valid()
      reads Repr()
    {
      Wired() && Shaped(State()) && PageSized(tree, pageBytes)
    }

    constructor (atomBytes: nat, atomsPerUnit: nat, enabled: set<Tier>, total: PerTier<nat>, cap: PerTier<int>)
      requires atomBytes > 0 && atomsPerUnit > 0
      ensures Valid() && fresh(Repr()) && cfg == Normalised(enabled, total, cap) && State() == NewCache(cfg)
    {
      hide WF, Below, PageSized, Normalised;
      var c := Normalised(enabled, total, cap);
      var d := new UnitAllocator(Device, c.total.device);
      var h := new UnitAllocator(Host, c.total.host);
      var k := new UnitAllocator(Disk, c.total.disk);
      var r := new UnitAllocator(Remote, c.total.remote);
      device, host, disk, remote, cfg := d, h, k, r, c;
      this.atomBytes, this.atomsPerUnit, pageBytes := atomBytes, atomsPerUnit, atomsPerUnit * atomBytes;
      tree, next, inflight, pending, nextHandle := EMPTY, 1, map[], PerTier(0, 0, 0, 0), 1;
      new;
      NewShaped(cfg, pageBytes);
    }

    // ---- units in and out of the allocators ------------------------------------------------------

    method TakeUnits(u: Tier, n: nat) returns (ids: seq<UnitId>)
      requires Wired() && n <= |State().free.At(u)|
      modifies AllocatorOf(u)
      ensures State() == Take(old(State()), u, n) && ids == Popped(old(State()).free.At(u), n)
    {
      var r := AllocatorOf(u).Allocate(n);
      ids := r.value.ids;
      match u case Device => case Host => case Disk => case Remote =>
    }

    /** A resource or handle of tier `u` is destroyed. */
    method GiveUnits(u: Tier, ids: seq<UnitId>)
      requires Wired()
      modifies AllocatorOf(u)
      ensures State() == Give(cfg, old(State()), u, ids)
    {
      AllocatorOf(u).Deallocate(ids);
      match u case Device => case Host => case Disk => case Remote =>
    }

    method AttachResource(n: NodeId, u: Tier, r: Resource)
      requires Wired() && n in tree
      modifies `tree, AllocatorOf(u)
      ensures State() == AttachAt(cfg, old(State()), n, u, r)
    {
      var gone := ResourceIds(tree, n, u);
      tree := Attach(tree, n, u, r);
      GiveUnits(u, gone);
    }

    method DropResource(n: NodeId, u: Tier)
      requires Wired() && n in tree
      modifies `tree, AllocatorOf(u)
      ensures State() == DetachAt(cfg, old(State()), n, u)
    {
      var gone := ResourceIds(tree, n, u);
      tree := Detach(tree, n, u);
      GiveUnits(u, gone);
    }

    method PruneEmpty(from: NodeId)
      requires Shaped(State())
      modifies `tree
      ensures tree == Prune(old(tree), from)
    {
      var n := from;
      while n in tree && n != ROOT && Orphan(tree[n])
        invariant WF(tree) && Prune(tree, n) == Prune(old(tree), from)
        decreases |tree|
      {
        UnlinkKeeps(tree, n);
        var parent := tree[n].parent;
        tree := Unlink(tree, n);
        n := parent;
      }
    }

    predicate WithinBudget(u: Tier, need: nat)
      reads `pending
    {
      cfg.cap.At(u) <= 0 || pending.At(u) + need <= cfg.cap.At(u)
    }

    /** Reserve units on the destination and enter the operation in the table. */
    method Launch(n: NodeId, src: Tier, dst: Tier, isPromote: bool, k: nat) returns (h: Handle)
      requires Wired() && n in tree && k <= |State().free.At(dst)|
      modifies `tree, `inflight, `pending, `nextHandle, AllocatorOf(dst)
      ensures State() == Reserve(cfg, old(State()), n, src, dst, isPromote, k) && h == old(nextHandle)
    {
      hide AllocatorOf, Take, Attach;
      var ids := TakeUnits(dst, k);
      h := nextHandle;
      nextHandle := nextHandle + 1;
      AttachResource(n, dst, Resource(ids, 0, Pending, h));
      inflight := inflight[h := PendingOp(n, src, dst, isPromote, k)];
      pending := pending.With(dst, pending.At(dst) + k);
    }

    // ---- match and insert ------------------------------------------------------------------------

    /** Refuses a query that is not page-aligned. Otherwise finds, on every tier, the longest mapped prefix,
        splitting nodes on the way but moving no unit. */
    method Match(query: seq<byte>) returns (r: Result<MatchResult, Error>)
      requires Valid()
      modifies `tree, `next
      ensures Valid()
      ensures r.Ok? <==> |query| % pageBytes == 0
      ensures r.Err? ==> State() == old(State())
      ensures r.Ok? ==>
                var q := PagesOf(query, pageBytes);
                && State() == RadixCache.Match(old(State()), q)
                && forall u: Tier :: u in r.value.last && u in r.value.matchedAtoms
                                     && FoundAt(old(tree), tree, u, q, r.value.last[u], r.value.matchedAtoms[u], atomsPerUnit)
    {
      hide WF, Below, Longest, TierMap, FoundAt, PageSized, Chop;
      var pages := WholePages(|query|);
      if pages.None? { return Err(NotAligned); }
      ghost var t, q := tree, PagesOf(query, pageBytes);
      WalkFound(t, next, q, atomsPerUnit);
      var w := Descend(query, pages.value);
      r := Ok(MatchResult(w.last, map u | u in w.matched :: Atoms(w.matched[u], atomsPerUnit)));
    }

    /** The number of pages in so many bytes, unless they are not page-aligned. */
    method WholePages(n: nat) returns (pages: Option<nat>)
      requires Wired()
      ensures pages.Some? <==> n % pageBytes == 0
      ensures pages.Some? ==> n == pages.value * pageBytes && pages.value == n / pageBytes
    {
      if n % atomBytes != 0 {
        if n % pageBytes == 0 { PagesAreAtoms(n, atomBytes, atomsPerUnit, pageBytes); }
        return None;
      }
      if n % pageBytes != 0 { return None; }
      MultipleIff(n, pageBytes, 0);
      pages := Some(n / pageBytes);
    }

    /** The walk, on this cache's tree. */
    method Descend(query: seq<byte>, pages: nat) returns (w: Walk)
      requires Valid() && |query| == pages * pageBytes
      modifies `tree, `next
      ensures Valid() && w == WalkTree(old(tree), old(next), Chop(query, pageBytes, pages))
      ensures tree == w.tree && next == w.next
    {
      w := WalkBytes(tree, next, query, atomBytes, atomsPerUnit, pageBytes, pages);
      tree, next := w.tree, w.next;
    }

    /** Hands back the units of pages that are already stored. */
    method FreeOverlap(u: Tier, units: OwnedUnits, m: nat)
      requires Wired() && units.Valid() && units.tier == u && (units.allocator != null ==> units.allocator == AllocatorOf(u))
      requires m <= |units.ids|
      modifies units, AllocatorOf(u)
      ensures units.Valid() && units.allocator == old(units.allocator) && units.ids == old(units.ids)[m..]
      ensures State() == Give(cfg, old(State()), u, old(units.ids)[..m])
    {
      var overlap := units.TakeFirst(m);
      DestroyUnits(u, overlap.value);
    }

    /** The destructor of a handle of this cache. */
    method DestroyUnits(u: Tier, h: OwnedUnits)
      requires Wired() && h.Valid() && (h.allocator != null ==> h.allocator == AllocatorOf(u))
      modifies h, AllocatorOf(u)
      ensures State() == Give(cfg, old(State()), u, old(h.ids))
    {
      hide Accepted;
      ghost var c, ids, free := State(), h.ids, AllocatorOf(u).free;
      NothingAccepted(cfg.total.At(u), free);
      assert h.allocator == null ==> ids == [];
      h.Destroy();
      assert AllocatorOf(u).free == free + Accepted(cfg.total.At(u), ids);
      OneListChanged(c, u, AllocatorOf(u).free);
    }

    /** When only one tier's free list differs, the state differs in that alone. */
    lemma OneListChanged(c: Cache, u: Tier, free: seq<UnitId>)
      requires AllocatorOf(u).free == free && State() == c.(free := State().free)
      requires forall v: Tier :: v != u ==> AllocatorOf(v).free == c.free.At(v)
      ensures State() == c.(free := c.free.With(u, free))
    {
      assert State().free.At(Device) == c.free.With(u, free).At(Device);
      assert State().free.At(Host) == c.free.With(u, free).At(Host);
      assert State().free.At(Disk) == c.free.With(u, free).At(Disk);
      assert State().free.At(Remote) == c.free.With(u, free).At(Remote);
    }

    /** `insert_suffix`, then the new node gets the remaining units; the chain up to `base` is that one node. */
    method AttachSuffix(base: NodeId, suffix: seq<Page>, u: Tier, ids: seq<UnitId>) returns (tail: NodeId)
      requires Shaped(State()) && base in tree && suffix != []
      modifies `tree, `next
      ensures tree == AddLeaf(old(tree), base, suffix, map[u := Resource(ids, 0, Ready, 0)], old(next))
      ensures next == old(next) + 1 && tail == old(next)
    {
      tail := next;
      tree, next := AddLeaf(tree, base, suffix, map[], next), next + 1;
      tree := Attach(tree, tail, u, Resource(ids, 0, Ready, 0));
      assert map[][u := Resource(ids, 0, Ready, 0)] == map[u := Resource(ids, 0, Ready, 0)];
    }

    /** Stores the units under the pages not mapped yet and frees the others. Where the source would go on
        with a node it has just destroyed, nothing is claimed beyond a valid object. */
    method Insert(u: Tier, atoms: seq<byte>, units: OwnedUnits) returns (r: Result<InsertResult, Error>)
      requires Valid() && units.Valid() && (units.allocator != null ==> units.allocator == AllocatorOf(units.tier))
      modifies Repr(), units
      ensures Valid() && units.Valid()
      ensures r.Err? && r.error != DanglingNode ==> State() == old(State()) && units.ids == old(units.ids)
      ensures r.Err? && r.error != DanglingNode <==>
              old(units.tier) != u || |atoms| % pageBytes != 0 || |old(units.ids)| != |atoms| / pageBytes
      ensures old(units.tier) == u && |atoms| % pageBytes == 0 ==>
                var q := PagesOf(atoms, pageBytes);
                var spec := RadixCache.Insert(cfg, old(State()), u, q, old(units.ids));
                && (r.Ok? <==> spec.Ok?)
                && (r.Ok? ==> State() == spec.value && units.ids == []
                              && InsertedAt(old(tree), tree, u, q, r.value, atomsPerUnit))
    {
      hide WF, Below, PageSized, RadixCache.Insert, InsertedAt;
      if units.tier != u { return Err(TierMismatch); }
      var pages := WholePages(|atoms|);
      if pages.None? { return Err(NotAligned); }
      ChopJoin(atoms, pageBytes, pages.value);
      if |units.ids| != pages.value { CountRefused(cfg, State(), u, PagesOf(atoms, pageBytes), units.ids); return Err(CountMismatch); }
      r := Place(u, atoms, pages.value, units);
    }

    /** Insertion, once the arguments are accepted. */
    method Place(u: Tier, atoms: seq<byte>, pages: nat, units: OwnedUnits) returns (r: Result<InsertResult, Error>)
      requires Valid() && units.Valid() && units.tier == u && (units.allocator != null ==> units.allocator == AllocatorOf(u))
      requires |atoms| == pages * pageBytes && |units.ids| == pages
      modifies Repr(), units
      ensures Valid() && units.Valid()
      ensures r.Err? ==> r.error == DanglingNode
      ensures var q := Chop(atoms, pageBytes, pages);
              var spec := RadixCache.Insert(cfg, old(State()), u, q, old(units.ids));
              && (r.Ok? <==> spec.Ok?)
              && (r.Ok? ==> State() == spec.value && units.ids == [] && InsertedAt(old(tree), tree, u, q, r.value, atomsPerUnit))
    {
      hide WF, Below, PageSized, Sized, RadixCache.Insert, InsertedAt, Chop, Give, Grown, Placed, Run, WalkTree, AddLeaf, Atoms;
      var q := Chop(atoms, pageBytes, pages);
      ChopJoin(atoms, pageBytes, pages);
      ghost var c, ids := State(), units.ids;
      Placement(cfg, c, u, q, ids);
      var w := Descend(atoms, pages);
      var base, m := w.last[u], w.matched[u];
      FreeOverlap(u, units, m);
      ghost var freed := State();
      GiveKeepsTree(cfg, c.(tree := w.tree, next := w.next), u, ids[..m]);
      if m < |q| && q[m] in tree[base].children { return Err(DanglingNode); }
      PlacementShape(cfg, c, w, u, q, ids, pageBytes);
      PlacementFound(cfg, c, w, u, q, ids, atomsPerUnit);
      var tail := base;
      if m < |q| {
        var rest := units.TakeFirst(|q| - m);
        var piece := rest.value.Release();
        tail := AttachSuffix(base, q[m..], u, piece);
        GrownIs(w, u, q, ids, piece);
      }
      PlacedIs(cfg, c, w, u, q, ids, freed, tree, next);
      r := Ok(InsertResult(tail, Atoms(|q| - m, atomsPerUnit), m));
    }

    // ---- collecting ------------------------------------------------------------------------------

    /** Copies the ids on the way to `end` into the buffer, root first, if they fit; reports how many there are. */
    method CollectUnitsInto(end: Option<NodeId>, u: Tier, out: array?<UnitId>, capacity: nat) returns (total: nat)
      requires Valid() && (end.Some? ==> end.value in tree) && (out != null ==> capacity <= out.Length)
      modifies if out == null then {} else {out}
      ensures end.None? ==> total == 0
      ensures end.Some? ==> total == |Collect(tree, end.value, u)|
      ensures out != null && total <= capacity && end.Some? ==> out[..total] == Collect(tree, end.value, u)
      ensures out != null ==> forall i :: (if total <= capacity then total else 0) <= i < out.Length ==> out[i] == old(out[i])
    {
      hide Below, PageSized, NodeIds, Wired;
      if end.None? || end.value == ROOT { return 0; }
      total := 0;
      var n := end.value;
      while n != ROOT
        invariant out != null ==> out[..] == old(out[..])
        invariant n in tree && total + |Collect(tree, n, u)| == |Collect(tree, end.value, u)|
        decreases |tree[n].path|
      {
        assert Linked(tree, n);
        total := total + |NodeIds(tree[n], u)|;
        n := tree[n].parent;
      }
      if total > capacity || out == null { return; }
      var chain := [];
      n := end.value;
      while n != ROOT
        invariant out[..] == old(out[..])
        invariant n in tree && (forall i :: 0 <= i < |chain| ==> chain[i] in tree)
        invariant Collect(tree, n, u) + ChainIds(tree, chain, u) == Collect(tree, end.value, u)
        decreases |tree[n].path|
      {
        assert Linked(tree, n);
        ChainGrows(tree, chain, n, u);
        chain := chain + [n];
        n := tree[n].parent;
      }
      CopyChain(chain, u, out, total);
    }

    /** Copies the chain's ids, starting with its last node. */
    method CopyChain(chain: seq<NodeId>, u: Tier, out: array<UnitId>, ghost total: nat)
      requires (forall i :: 0 <= i < |chain| ==> chain[i] in tree) && total == |ChainIds(tree, chain, u)| <= out.Length
      modifies out
      ensures out[..total] == ChainIds(tree, chain, u)
      ensures forall i :: total <= i < out.Length ==> out[i] == old(out[i])
    {
      hide NodeIds, ChainIds;
      NoChain(tree, u);
      var off := 0;
      var i := |chain|;
      assert chain[..i] == chain && chain[..0] == [];
      while i > 0
        invariant 0 <= i <= |chain| && 0 <= off && off + |ChainIds(tree, chain[..i], u)| == total && off <= total
        invariant out[..off] + ChainIds(tree, chain[..i], u) == ChainIds(tree, chain, u)
        invariant forall k :: total <= k < out.Length ==> out[k] == old(out[k])
      {
        i := i - 1;
        var ids := NodeIds(tree[chain[i]], u);
        assert chain[..i + 1] == chain[..i] + [chain[i]];
        ChainGrows(tree, chain[..i], chain[i], u);
        ghost var done := out[..off];
        CopyIds(out, off, ids);
        assert out[..off + |ids|] == done + ids;
        Associates(done, ids, ChainIds(tree, chain[..i], u));
        off := off + |ids|;
      }
    }

    method CopyIds(out: array<UnitId>, off: nat, ids: seq<UnitId>)
      requires off + |ids| <= out.Length
      modifies out
      ensures out[..off + |ids|] == old(out[..off]) + ids
      ensures forall k :: off + |ids| <= k < out.Length ==> out[k] == old(out[k])
    {
      forall k | 0 <= k < |ids| { out[off + k] := ids[k]; }
    }

    // ---- eviction --------------------------------------------------------------------------------

    /** Demotes the resource where that is allowed and fits, drops it otherwise; pinned and pending ones stay. */
    method EvictNodeResource(n: NodeId, u: Tier, promoteTo: Option<Tier>) returns (freed: nat)
      requires Valid() && n in tree
      modifies Repr()
      ensures Valid() && State() == EvictNode(cfg, old(State()), n, u, promoteTo)
      ensures freed == if u in old(tree)[n].res && Evictable(old(tree)[n].res[u]) then |old(tree)[n].res[u].ids| else 0
    {
      hide Below, PageSized, WF, Give, Reserve, Linked;
      if u !in tree[n].res || !Evictable(tree[n].res[u]) { return 0; }
      EvictShaped(cfg, State(), n, u, promoteTo);
      EvictSized(cfg, State(), n, u, promoteTo, pageBytes);
      DetachKeeps(tree, n, u);
      DetachBelow(tree, n, u, next);
      var ids := tree[n].res[u].ids;
      freed := |ids|;
      tree := Detach(tree, n, u);
      if promoteTo.Some? && promoteTo.value in cfg.enabled {
        var dst := AllocatorOf(promoteTo.value);
        if dst.Available() >= freed && WithinBudget(promoteTo.value, freed) {
          var _ := Launch(n, u, promoteTo.value, false, freed);
          GiveUnits(u, ids);
          return;
        }
      }
      PruneEmpty(n);
      GiveUnits(u, ids);
    }

    /** The eviction loop over sorted candidates. */
    method EvictInOrder(ns: seq<NodeId>, u: Tier, promoteTo: Option<Tier>, need: int)
      requires Valid() && Candidates(State(), u, ns)
      modifies Repr()
      ensures Valid() && State() == EvictLoop(cfg, old(State()), u, promoteTo, ns, need)
    {
      hide Below, PageSized, WF, EvictNode, Candidates, State, Wired, Linked;
      var deficit := need;
      assert ns[0..] == ns;
      var i := 0;
      while i < |ns| && deficit > 0
        invariant 0 <= i <= |ns| && Valid() && Candidates(State(), u, ns[i..])
        invariant EvictLoop(cfg, State(), u, promoteTo, ns[i..], deficit) == EvictLoop(cfg, old(State()), u, promoteTo, ns, need)
      {
        assert ns[i..][1..] == ns[i + 1..] && ns[i..][0] == ns[i];
        FirstCandidate(State(), u, ns[i..]);
        StateTree();
        if CanEvict(State(), u, ns[i]) {
          EvictRest(cfg, State(), u, promoteTo, ns[i..]);
        } else {
          EvictSkips(cfg, State(), ns[i], u, promoteTo);
        }
        var freed := EvictNodeResource(ns[i], u, promoteTo);
        deficit := deficit - freed;
        i := i + 1;
      }
    }

    lemma StateTree()
      ensures State().tree == tree && State().next == next
    {}

    /** Makes room on `u`: first on the tier it demotes to, if that is short, then on `u` itself, each time
        taking candidates in order of priority. `mid` is the state between the two. */
    method EnsureCapacity(u: Tier, need: int, promoteTo: Option<Tier>, rank: NodeId -> int, dstRank: NodeId -> int)
      returns (r: Result<(), Error>, ghost mid: Cache, ghost dstOrder: seq<NodeId>, ghost order: seq<NodeId>)
      requires Valid()
      modifies Repr()
      ensures Valid() && (r.Err? <==> u !in cfg.enabled) && (r.Err? ==> State() == old(State()))
      ensures r.Ok? ==> Cascaded(cfg, old(State()), mid, need, promoteTo, dstRank, dstOrder)
                        && Shrunk(cfg, mid, State(), u, need, promoteTo, rank, order)
      ensures r.Ok? ==> Squeezed(cfg, old(State()), mid, promoteTo, need, dstRank, dstOrder)
      ensures r.Ok? && |mid.free.At(u)| >= need ==> State() == mid
      ensures r.Ok? && |mid.free.At(u)| < need ==>
                && Ranked(mid.tree, u, rank, order) && Candidates(mid, u, order)
                && (promoteTo != Some(u) && Genuine(cfg, old(State())) ==> Sheds(mid, State(), u, order, need - |mid.free.At(u)|))
      ensures r.Ok? && promoteTo.Some? && promoteTo.value in cfg.enabled && promoteTo != Some(u) && |mid.free.At(u)| < need
              && Genuine(cfg, old(State())) && Counted(cfg, old(State())) ==>
                Candidates(mid, u, order)
                && Shifts(cfg, mid, State(), u, promoteTo.value, TakenNodes(mid, u, order, need - |mid.free.At(u)|))
      ensures r.Ok? && !(promoteTo.Some? && promoteTo.value in cfg.enabled) ==> Shaped(mid) && OnlyDrops(mid, State(), u)
      ensures r.Ok? && promoteTo != Some(u) && Genuine(cfg, old(State())) ==>
                || |State().free.At(u)| >= need
                || forall n :: Leafmost(mid.tree, u, n) && Evictable(mid.tree[n].res[u]) ==> Gone(State(), u, n)
      ensures r.Ok? && promoteTo != Some(u) && Genuine(cfg, old(State())) ==>
                (|State().free.At(u)| >= need
                 <==> |mid.free.At(u)| + |SumOver(mid.tree, EvictableLeaves(mid.tree, u), u)| >= need)
    {
      hide Below, PageSized, WF, Cascaded, Shrunk, Genuine, Leafmost, Gone, Evictable, EvictableLeaves, SumOver, Squeezed, Shifts,
        OnlyDrops, Counted, Candidates, TakenNodes, Sheds, Ranked;
      mid, dstOrder, order := State(), [], [];
      if u !in cfg.enabled { return Err(TierDisabled), mid, [], []; }
      ghost var c := State();
      dstOrder := Cascade(need, promoteTo, dstRank);
      mid := State();
      order := Shrink(u, need, promoteTo, rank);
      r := Ok(());
      CascadeSqueezes(cfg, c, mid, need, promoteTo, dstRank, dstOrder);
      ShrinkSheds(cfg, mid, State(), u, need, promoteTo, rank, order);
      SqueezedDrops(cfg, c, mid, promoteTo, need, dstRank, dstOrder);
      ShrinkShifts(cfg, c, mid, State(), u, need, promoteTo, rank, order);
      if promoteTo != Some(u) && Genuine(cfg, c) {
        CascadeGenuine(cfg, c, mid, need, promoteTo, dstRank, dstOrder);
        ShrunkEnough(cfg, mid, State(), u, need, promoteTo, rank, order);
        ShrunkIff(cfg, mid, State(), u, need, promoteTo, rank, order);
      }
    }

    method Cascade(need: int, promoteTo: Option<Tier>, rank: NodeId -> int) returns (ghost order: seq<NodeId>)
      requires Valid()
      modifies Repr()
      ensures Valid() && Cascaded(cfg, old(State()), State(), need, promoteTo, rank, order)
    {
      hide Below, PageSized, WF, EvictLoop, Ranked, Candidates;
      order := [];
      if promoteTo.Some? && promoteTo.value in cfg.enabled {
        var dst := AllocatorOf(promoteTo.value);
        assert dst.free == State().free.At(promoteTo.value);
        if dst.Available() < need {
          var cands := RankedCandidates(tree, promoteTo.value, rank);
          order := cands;
          RankedAreCandidates(State(), promoteTo.value, rank, cands);
          EvictInOrder(cands, promoteTo.value, None, need - dst.Available());
        }
      }
    }

    method Shrink(u: Tier, need: int, promoteTo: Option<Tier>, rank: NodeId -> int) returns (ghost order: seq<NodeId>)
      requires Valid()
      modifies Repr()
      ensures Valid() && Shrunk(cfg, old(State()), State(), u, need, promoteTo, rank, order)
    {
      hide Below, PageSized, WF, EvictLoop, Ranked, Candidates;
      order := [];
      var alloc := AllocatorOf(u);
      assert alloc.free == State().free.At(u);
      var deficit := need - alloc.Available();
      if deficit > 0 {
        var cands := RankedCandidates(tree, u, rank);
        order := cands;
        RankedAreCandidates(State(), u, rank, cands);
        EvictInOrder(cands, u, promoteTo, deficit);
      }
    }

    /** Drops every evictable candidate the predicate selects. */
    method EvictByPredicate(u: Tier, selects: NodeId -> bool) returns (total: nat, ghost ns: seq<NodeId>)
      requires Valid()
      modifies Repr()
      ensures Valid()
      ensures u !in cfg.enabled ==> total == 0 && State() == old(State())
      ensures u in cfg.enabled ==>
                && (forall n :: n in ns <==> Leafmost(old(tree), u, n) && selects(n))
                && Candidates(old(State()), u, ns)
                && State() == EvictEach(cfg, old(State()), u, ns)
                && total == Total(Able(Offers(old(State()), u, ns)))
    {
      hide Below, PageSized, WF, Wired, Leafmost, State, EvictNode, Linked, Offers, Total, Able;
      ns := [];
      total := 0;
      if u !in cfg.enabled { return; }
      StateTree();
      var cands := CollectEvictCandidates(tree, u);
      ghost var c := State();
      ns := Chosen(cands, selects);
      CollectedAreCandidates(c, u, cands);
      ChosenHas(cands, selects);
      ChosenCandidates(c, u, cands, selects);
      assert cands[0..] == cands;
      for i := 0 to |cands|
        invariant Valid() && Candidates(State(), u, cands[i..]) && Candidates(State(), u, Chosen(cands[i..], selects))
        invariant EvictEach(cfg, State(), u, Chosen(cands[i..], selects)) == EvictEach(cfg, c, u, ns)
        invariant total + Total(Able(Offers(State(), u, Chosen(cands[i..], selects)))) == Total(Able(Offers(c, u, ns)))
      {
        assert cands[i..][1..] == cands[i + 1..] && cands[i..][0] == cands[i];
        StateTree();
        ghost var before := State();
        ghost var rest := Chosen(cands[i..], selects);
        FirstCandidate(before, u, cands[i..]);
        if selects(cands[i]) {
          assert rest[0] == cands[i] && rest[1..] == Chosen(cands[i + 1..], selects);
          AbleTotal(Offers(before, u, rest));
          if Evictable(tree[cands[i]].res[u]) {
            EvictRest(cfg, before, u, None, cands[i..]);
            EvictRest(cfg, before, u, None, rest);
            OffersRest(before, EvictNode(cfg, before, cands[i], u, None), u, rest);
            var freed := EvictNodeResource(cands[i], u, None);
            total := total + freed;
          } else {
            FirstCandidate(before, u, rest);
            OffersRest(before, before, u, rest);
          }
        } else {
          assert rest == Chosen(cands[i + 1..], selects);
        }
      }
      NothingOffered(State(), u);
    }

    // ---- allocation and operations in flight -----------------------------------------------------

    method Allocate(u: Tier, n: int) returns (r: Result<OwnedUnits, Error>)
      requires Valid()
      modifies Repr()
      ensures Valid() && (r.Err? ==> State() == old(State()))
      ensures r.Ok? <==> u in cfg.enabled && 0 <= n <= |old(State()).free.At(u)|
      ensures r.Ok? ==> State() == Take(old(State()), u, n)
                        && r.value.Valid() && r.value.Owns(AllocatorOf(u), Popped(old(State()).free.At(u), n)) && r.value.tier == u
    {
      if u !in cfg.enabled { return Err(TierDisabled); }
      if n < 0 { return Err(Shortage); }
      r := AllocatorOf(u).Allocate(n);
      match u case Device => case Host => case Disk => case Remote =>
    }

    /** `start_demote` and `start_promote`, which differ in the flag alone. */
    method StartTransfer(n: NodeId, src: Tier, dst: Tier, isPromote: bool) returns (r: Result<Handle, Error>)
      requires Valid() && n in tree
      modifies Repr()
      ensures Valid()
      ensures var spec := StartOp(cfg, old(State()), n, src, dst, isPromote);
              && (r.Ok? <==> spec.Ok?)
              && (r.Ok? ==> State() == spec.value && r.value == old(nextHandle))
              && (r.Err? ==> State() == old(State()) && r.error == spec.error)
    {
      hide WF, Below, PageSized, Reserve;
      if src !in cfg.enabled || dst !in cfg.enabled { return Err(TierDisabled); }
      if src !in tree[n].res { return Err(NoSource); }
      var need := |tree[n].res[src].ids|;
      if !WithinBudget(dst, need) { return Err(PendingCap); }
      var alloc := AllocatorOf(dst);
      if alloc.Available() < need { return Err(Shortage); }
      RootHasNone(tree, n, src);
      ReserveShaped(cfg, State(), n, src, dst, isPromote, need);
      ReserveSized(cfg, State(), n, src, dst, isPromote, need, pageBytes);
      var h := Launch(n, src, dst, isPromote, need);
      r := Ok(h);
    }

    /** Ends an operation: the table entry goes first, then the destination resource becomes ready and a
        demoted source is dropped, or on failure the reservation is undone. */
    method Complete(h: Handle, success: bool) returns (r: Result<(), Error>)
      requires Valid()
      modifies Repr()
      ensures Valid()
      ensures r.Err? && r.error != DanglingNode ==> State() == old(State())
      ensures var spec := CompleteOp(cfg, old(State()), h, success);
              && (r.Ok? <==> spec.Ok?)
              && (r.Ok? ==> State() == spec.value)
              && (r.Err? ==> r.error == spec.error)
    {
      hide WF, Below, PageSized, Linked;
      if h !in inflight { return Err(UnknownHandle); }
      if CompleteOp(cfg, State(), h, success).Ok? {
        CompleteShaped(cfg, State(), h, success);
        CompleteSized(cfg, State(), h, success, pageBytes);
      }
      var p := inflight[h];
      inflight := inflight - {h};
      pending := pending.With(p.dst, pending.At(p.dst) - p.count);
      if p.node !in tree { return Err(DanglingNode); }
      if p.dst !in tree[p.node].res { return Ok(()); }
      if !success {
        DetachKeeps(tree, p.node, p.dst);
        DetachBelow(tree, p.node, p.dst, next);
        DropResource(p.node, p.dst);
        PruneEmpty(p.node);
        return Ok(());
      }
      tree := Attach(tree, p.node, p.dst, tree[p.node].res[p.dst].(state := Ready, handle := 0));
      if !p.isPromote { DropResource(p.node, p.src); }
      r := Ok(());
    }

    /** Fails everything in flight; `hs` is the snapshot of the handles, in the table's own order. */
    method FailAllInflight() returns (count: nat, ghost hs: seq<Handle>)
      requires Valid() && Counted(cfg, State()) && FailsSafely(cfg, State())
      modifies Repr()
      ensures Valid() && Lists(hs, old(inflight)) && FailEach(cfg, old(State()), hs) == Some((State(), count))
      ensures inflight == map[] && count == |old(inflight)| && pending == PerTier(0, 0, 0, 0)
      ensures old(InFlightOk(State())) ==> forall n, u :: !PendingAt(tree, n, u)
    {
      hide WF, Below, PageSized, Linked, InFlightOk, Counted, CompleteOp, FailEach, Wired, Lists;
      ghost var c := State();
      var handles := Listed(inflight);
      hs := handles;
      FailAllEmpties(cfg, c, hs);
      if InFlightOk(c) { FailAllDefined(cfg, c, hs); }
      ghost var end := FailEach(cfg, c, hs).value;
      count := 0;
      assert handles[0..] == handles;
      for i := 0 to |handles|
        invariant Valid() && Lists(handles[i..], inflight) && count == i
        invariant FailEach(cfg, State(), handles[i..]).Some? && end.1 == count + FailEach(cfg, State(), handles[i..]).value.1
        invariant FailEach(cfg, State(), handles[i..]).value.0 == end.0
      {
        assert handles[i..][1..] == handles[i + 1..] && handles[i..][0] == handles[i];
        FailStep(cfg, State(), handles[i], handles[i..]);
        var done := Complete(handles[i], false);
        if done.Ok? { count := count + 1; }
      }
      assert handles[|handles|..] == [];
      FailNone(cfg, State());
    }
  }

  lemma NewShaped(cfg: Config, pageBytes: nat)
    ensures Shaped(NewCache(cfg)) && PageSized(NewCache(cfg).tree, pageBytes)
  {}

  /** `n` ends the longest prefix of `q` mapped on tier `u`, which is `atoms` atoms long. */
  ghost predicate FoundAt(before: Tree, after: Tree, u: Tier, q: seq<Page>, n: NodeId, atoms: nat, atomsPerUnit: nat)
    requires WF(before)
  {
    exists k: nat :: atoms == Atoms(k, atomsPerUnit) && Longest(TierMap(before, u), q, k) && n in after && after[n].path == q[..k]
  }

  lemma WalkFound(t: Tree, next: NodeId, q: seq<Page>, atomsPerUnit: nat)
    requires WF(t) && Below(t, next)
    ensures var w := WalkTree(t, next, q);
            forall u: Tier :: u in w.last && u in w.matched && FoundAt(t, w.tree, u, q, w.last[u], Atoms(w.matched[u], atomsPerUnit), atomsPerUnit)
  {
    hide WF, Below, Longest, TierMap;
    forall u: Tier
      ensures var w := WalkTree(t, next, q);
              u in w.last && u in w.matched && FoundAt(t, w.tree, u, q, w.last[u], Atoms(w.matched[u], atomsPerUnit), atomsPerUnit)
    {
      WalkFindsLongest(t, next, q, u);
    }
  }

  /** The returned node ends the inserted query; the counts are those of the pages not mapped before, and mapped. */
  ghost predicate InsertedAt(before: Tree, after: Tree, u: Tier, q: seq<Page>, r: InsertResult, atomsPerUnit: nat)
    requires WF(before)
  {
    && r.freedUnits <= |q| && Longest(TierMap(before, u), q, r.freedUnits)
    && r.insertedAtoms == Atoms(|q| - r.freedUnits, atomsPerUnit)
    && r.last in after && after[r.last].path == q
  }

  lemma CountRefused(cfg: Config, c: Cache, u: Tier, q: seq<Page>, ids: seq<UnitId>)
    requires Shaped(c) && |ids| != |q|
    ensures RadixCache.Insert(cfg, c, u, q, ids) == Err(CountMismatch)
  {}

  lemma NothingAccepted(total: nat, free: seq<UnitId>)
    ensures free + Accepted(total, []) == free
  {}

  lemma GiveKeepsTree(cfg: Config, c: Cache, u: Tier, ids: seq<UnitId>)
    ensures var r := Give(cfg, c, u, ids); r.tree == c.tree && r.next == c.next
  {}

  predicate Walked(w: Walk, u: Tier, q: seq<Page>) {
    u in w.last && u in w.matched && w.last[u] in w.tree && w.matched[u] <= |q|
  }

  /** The walk reached the end of the query on this tier, or the next page has no node yet. */
  predicate Fits(w: Walk, u: Tier, q: seq<Page>)
    requires Walked(w, u, q)
  {
    w.matched[u] == |q| || q[w.matched[u]] !in w.tree[w.last[u]].children
  }

  function TailOf(w: Walk, u: Tier, q: seq<Page>): NodeId
    requires Walked(w, u, q)
  {
    if w.matched[u] == |q| then w.last[u] else w.next
  }

  /** The cache after the walk, the freed overlap, and the new leaf if there is one. */
  function Placed(cfg: Config, c: Cache, w: Walk, u: Tier, q: seq<Page>, ids: seq<UnitId>): Cache
    requires WalkOk(w, q) && Walked(w, u, q) && |ids| == |q|
  {
    var m := w.matched[u];
    var c' := if m == |q| then c.(tree := w.tree, next := w.next) else c.(tree := Grown(w, u, q, ids), next := w.next + 1);
    Give(cfg, c', u, ids[..m])
  }

  lemma WalkIsWalked(c: Cache, u: Tier, q: seq<Page>)
    requires Shaped(c)
    ensures Walked(WalkTree(c.tree, c.next, q), u, q)
  {
    hide WF, Below, TierMap;
    WalkFindsLongest(c.tree, c.next, q, u);
  }

  /** What insertion amounts to after the walk. */
  lemma Placement(cfg: Config, c: Cache, u: Tier, q: seq<Page>, ids: seq<UnitId>)
    requires Shaped(c) && |ids| == |q|
    ensures var w := WalkTree(c.tree, c.next, q); var spec := RadixCache.Insert(cfg, c, u, q, ids);
            && Walked(w, u, q)
            && (spec.Err? ==> spec.error == DanglingNode)
            && (spec.Ok? <==> Fits(w, u, q))
            && (spec.Ok? ==> spec.value == Placed(cfg, c, w, u, q, ids))
  {
    hide WF, Below, TierMap, Give, Grown, Longest;
    WalkIsWalked(c, u, q);
    var w := WalkTree(c.tree, c.next, q);
    assert InsertPages(c.tree, c.next, u, q, ids) == InsertAt(w, u, q, ids);
    if w.matched[u] == |q| { assert ids[..|q|] == ids; }
  }

  lemma PlacementShape(cfg: Config, c: Cache, w: Walk, u: Tier, q: seq<Page>, ids: seq<UnitId>, pageBytes: nat)
    requires Shaped(c) && PageSized(c.tree, pageBytes) && Sized(q, pageBytes) && |ids| == |q|
    requires WalkOk(w, q) && w == WalkTree(c.tree, c.next, q) && Walked(w, u, q) && Fits(w, u, q)
    ensures Shaped(Placed(cfg, c, w, u, q, ids)) && PageSized(Placed(cfg, c, w, u, q, ids).tree, pageBytes)
  {
    hide WF, Below, TierMap, Sized, PageSized, Collect, Closed, Longest, Reads, Extended;
    RunSizedFrom(c.tree, c.next, q, pageBytes);
    InsertRefines(c.tree, c.next, u, q, ids, u);
    if w.matched[u] < |q| { GrownSized(w, u, q, ids, pageBytes); }
  }

  lemma PlacementFound(cfg: Config, c: Cache, w: Walk, u: Tier, q: seq<Page>, ids: seq<UnitId>, atomsPerUnit: nat)
    requires Shaped(c) && |ids| == |q|
    requires WalkOk(w, q) && w == WalkTree(c.tree, c.next, q) && Walked(w, u, q) && Fits(w, u, q)
    ensures InsertedAt(c.tree, Placed(cfg, c, w, u, q, ids).tree, u, q,
                       InsertResult(TailOf(w, u, q), Atoms(|q| - w.matched[u], atomsPerUnit), w.matched[u]), atomsPerUnit)
  {
    hide WF, Below, TierMap, Closed, Longest, Reads, Extended, Collect, WalkTree, Give, Placed, Grown;
    WalkFindsLongest(c.tree, c.next, q, u);
    InsertRefines(c.tree, c.next, u, q, ids, u);
    var r := InsertPages(c.tree, c.next, u, q, ids);
    assert r == InsertAt(w, u, q, ids);
    PlacedTree(cfg, c, w, u, q, ids);
  }

  lemma PlacedTree(cfg: Config, c: Cache, w: Walk, u: Tier, q: seq<Page>, ids: seq<UnitId>)
    requires WalkOk(w, q) && Walked(w, u, q) && |ids| == |q| && InsertAt(w, u, q, ids).Inserted?
    ensures InsertAt(w, u, q, ids).tree == Placed(cfg, c, w, u, q, ids).tree && InsertAt(w, u, q, ids).tail == TailOf(w, u, q)
  {
    hide WF, Grown;
  }

  lemma RunSizedFrom(t: Tree, next: NodeId, q: seq<Page>, pageBytes: nat)
    requires WF(t) && Below(t, next) && PageSized(t, pageBytes)
    ensures PageSized(WalkTree(t, next, q).tree, pageBytes)
  {
    StartOk(t, next, q);
    RunSized(Start(t, next), q, pageBytes);
  }

  lemma GrownSized(w: Walk, u: Tier, q: seq<Page>, ids: seq<UnitId>, pageBytes: nat)
    requires WalkOk(w, q) && |ids| == |q| && u in w.last && u in w.matched && w.matched[u] < |q| && w.last[u] in w.tree
    requires PageSized(w.tree, pageBytes) && Sized(q, pageBytes)
    ensures PageSized(Grown(w, u, q, ids), pageBytes)
  {
    var r := Grown(w, u, q, ids);
    forall n | n in r ensures Sized(r[n].seg, pageBytes) {
      if n != w.next { assert r[n].seg == w.tree[n].seg; }
    }
  }

  lemma GrownIs(w: Walk, u: Tier, q: seq<Page>, ids: seq<UnitId>, piece: seq<UnitId>)
    requires WalkOk(w, q) && Walked(w, u, q) && |ids| == |q| && w.matched[u] < |q| && piece == ids[w.matched[u]..][..|q| - w.matched[u]]
    ensures AddLeaf(w.tree, w.last[u], q[w.matched[u]..], map[u := Resource(piece, 0, Ready, 0)], w.next) == Grown(w, u, q, ids)
  {
    assert piece == ids[w.matched[u]..];
  }

  lemma PlacedIs(cfg: Config, c: Cache, w: Walk, u: Tier, q: seq<Page>, ids: seq<UnitId>, freed: Cache, tree: Tree, next: NodeId)
    requires WalkOk(w, q) && Walked(w, u, q) && |ids| == |q|
    requires freed == Give(cfg, c.(tree := w.tree, next := w.next), u, ids[..w.matched[u]])
    requires tree == if w.matched[u] == |q| then w.tree else Grown(w, u, q, ids)
    requires next == if w.matched[u] == |q| then w.next else w.next + 1
    ensures freed.(tree := tree, next := next) == Placed(cfg, c, w, u, q, ids)
  {
    hide WF, Grown;
  }

  /** The ids of a chain of nodes listed bottom up, top first. */
  function ChainIds(t: Tree, chain: seq<NodeId>, u: Tier): seq<UnitId>
    requires forall i :: 0 <= i < |chain| ==> chain[i] in t
  {
    if chain == [] then [] else ChainIds(t, chain[1..], u) + NodeIds(t[chain[0]], u)
  }

  lemma NoChain(t: Tree, u: Tier)
    ensures ChainIds(t, [], u) == []
  {}

  lemma {:induction false} ChainGrows(t: Tree, chain: seq<NodeId>, n: NodeId, u: Tier)
    requires (forall i :: 0 <= i < |chain| ==> chain[i] in t) && n in t
    ensures ChainIds(t, chain + [n], u) == NodeIds(t[n], u) + ChainIds(t, chain, u)
  {
    if chain != [] {
      assert (chain + [n])[1..] == chain[1..] + [n];
      ChainGrows(t, chain[1..], n, u);
    }
  }

  lemma EvictSkips(cfg: Config, c: Cache, n: NodeId, u: Tier, promoteTo: Option<Tier>)
    requires Shaped(c) && n in c.tree && u in c.tree[n].res && !CanEvict(c, u, n)
    ensures EvictNode(cfg, c, n, u, promoteTo) == c
  {}

  lemma FirstCandidate(c: Cache, u: Tier, ns: seq<NodeId>)
    requires Candidates(c, u, ns) && ns != []
    ensures ns[0] in c.tree && u in c.tree[ns[0]].res && Candidates(c, u, ns[1..])
  {}

  lemma DetachBelow(t: Tree, n: NodeId, u: Tier, next: NodeId)
    requires n in t && Below(t, next)
    ensures Below(Detach(t, n, u), next)
  {}

  /** Segments do not change when nodes only lose or gain resources, or go. */
  lemma SameSegments(t: Tree, r: Tree, pageBytes: nat)
    requires PageSized(t, pageBytes) && forall n :: n in r ==> n in t && r[n].seg == t[n].seg
    ensures PageSized(r, pageBytes)
  {
    forall n | n in r ensures Sized(r[n].seg, pageBytes) { assert r[n].seg == t[n].seg; }
  }

  lemma EvictSized(cfg: Config, c: Cache, n: NodeId, u: Tier, promoteTo: Option<Tier>, pageBytes: nat)
    requires Shaped(c) && n in c.tree && PageSized(c.tree, pageBytes)
    ensures PageSized(EvictNode(cfg, c, n, u, promoteTo).tree, pageBytes)
  {
    hide Sized, PageSized, WF, Give, Reserve;
    if u in c.tree[n].res && Evictable(c.tree[n].res[u]) {
      var ids := c.tree[n].res[u].ids;
      DetachKeeps(c.tree, n, u);
      var d := Detach(c.tree, n, u);
      var c1 := c.(tree := d);
      SameSegments(c.tree, d, pageBytes);
      PruneKeys(d, n);
      SameSegments(d, Prune(d, n), pageBytes);
      GiveKeepsTree(cfg, c1.(tree := Prune(d, n)), u, ids);
      if promoteTo.Some? && |ids| <= |c1.free.At(promoteTo.value)| {
        ReserveSized(cfg, c1, n, u, promoteTo.value, false, |ids|, pageBytes);
        GiveKeepsTree(cfg, Reserve(cfg, c1, n, u, promoteTo.value, false, |ids|), u, ids);
      }
    }
  }

  lemma FailNone(cfg: Config, c: Cache)
    requires Shaped(c)
    ensures FailEach(cfg, c, []) == Some((c, 0))
  {}

  /** One turn of failing everything. */
  lemma FailStep(cfg: Config, c: Cache, h: Handle, hs: seq<Handle>)
    requires Shaped(c) && hs != [] && hs[0] == h && Lists(hs, c.inflight) && FailEach(cfg, c, hs).Some?
    ensures CompleteOp(cfg, c, h, false).Ok? && Shaped(CompleteOp(cfg, c, h, false).value)
    ensures var r := CompleteOp(cfg, c, h, false).value;
            && Lists(hs[1..], r.inflight) && FailEach(cfg, r, hs[1..]).Some?
            && FailEach(cfg, c, hs) == Some((FailEach(cfg, r, hs[1..]).value.0, FailEach(cfg, r, hs[1..]).value.1 + 1))
  {
    hide WF, Below, CompleteOp, Lists;
    ListRest(hs, c.inflight);
    KnownCompletes(cfg, c, h);
    CompleteShaped(cfg, c, h, false);
    FailTable(cfg, c, h);
  }

  /** The handles in flight, in some order, each once. */
  method Listed(table: map<Handle, PendingOp>) returns (hs: seq<Handle>)
    ensures Lists(hs, table)
  {
    hs := [];
    var keys := table.Keys;
    while keys != {}
      invariant keys <= table.Keys && forall h :: h in hs <==> h in table.Keys - keys
      invariant forall i, j :: 0 <= i < j < |hs| ==> hs[i] != hs[j]
      decreases |keys|
    {
      var h :| h in keys;
      hs := hs + [h];
      keys := keys - {h};
    }
  }

  /** The first half of `ensure_capacity`: the destination tier, if it is short, sheds its own candidates. */
  ghost predicate Cascaded(cfg: Config, c: Cache, mid: Cache, need: int, promoteTo: Option<Tier>, rank: NodeId -> int, order: seq<NodeId>)
    requires Shaped(c)
  {
    if promoteTo.Some? && promoteTo.value in cfg.enabled && |c.free.At(promoteTo.value)| < need then
      var p := promoteTo.value;
      Ranked(c.tree, p, rank, order)
      && (RankedAreCandidates(c, p, rank, order); mid == EvictLoop(cfg, c, p, None, order, need - |c.free.At(p)|))
    else mid == c
  }

  /** The second half: the tier itself sheds what its deficit asks for. */
  ghost predicate Shrunk(cfg: Config, mid: Cache, r: Cache, u: Tier, need: int, promoteTo: Option<Tier>, rank: NodeId -> int, order: seq<NodeId>)
  {
    Shaped(mid) &&
    if |mid.free.At(u)| < need then
      Ranked(mid.tree, u, rank, order)
      && (RankedAreCandidates(mid, u, rank, order); r == EvictLoop(cfg, mid, u, promoteTo, order, need - |mid.free.At(u)|))
    else r == mid
  }

  lemma {:induction false} LoopGenuine(cfg: Config, c: Cache, u: Tier, promoteTo: Option<Tier>, ns: seq<NodeId>, deficit: int)
    requires Shaped(c) && Genuine(cfg, c) && Candidates(c, u, ns)
    ensures Genuine(cfg, EvictLoop(cfg, c, u, promoteTo, ns, deficit))
    decreases |ns|
  {
    hide Shaped, Genuine, EvictNode;
    if ns != [] && deficit > 0 {
      if CanEvict(c, u, ns[0]) {
        EvictRest(cfg, c, u, promoteTo, ns);
        EvictGenuine(cfg, c, ns[0], u, promoteTo);
        LoopGenuine(cfg, EvictNode(cfg, c, ns[0], u, promoteTo), u, promoteTo, ns[1..], deficit - Size(c, u, ns[0]));
      } else {
        LoopGenuine(cfg, c, u, promoteTo, ns[1..], deficit);
      }
    }
  }

  lemma CascadeGenuine(cfg: Config, c: Cache, mid: Cache, need: int, promoteTo: Option<Tier>, rank: NodeId -> int, order: seq<NodeId>)
    requires Shaped(c) && Genuine(cfg, c) && Cascaded(cfg, c, mid, need, promoteTo, rank, order)
    ensures Genuine(cfg, mid)
  {
    hide Shaped, Genuine, Ranked, EvictLoop;
    if promoteTo.Some? && promoteTo.value in cfg.enabled && |c.free.At(promoteTo.value)| < need {
      RankedAreCandidates(c, promoteTo.value, rank, order);
      LoopGenuine(cfg, c, promoteTo.value, None, order, need - |c.free.At(promoteTo.value)|);
    }
  }

  /** A short destination sheds, by drops alone, just what its deficit asks for, lowest rank first; it ends with room for
      `need` or with every evictable candidate gone, with room exactly when what was free and what those candidates
      held cover it. Any other destination is left as it was. */
  ghost predicate Squeezed(cfg: Config, c: Cache, mid: Cache, promoteTo: Option<Tier>, need: int, rank: NodeId -> int, order: seq<NodeId>) {
    if promoteTo.Some? && promoteTo.value in cfg.enabled && |c.free.At(promoteTo.value)| < need then
      var p := promoteTo.value;
      && OnlyDrops(c, mid, p) && Ranked(c.tree, p, rank, order) && Candidates(c, p, order)
      && (Genuine(cfg, c) ==>
            && Sheds(c, mid, p, order, need - |c.free.At(p)|)
            && (|mid.free.At(p)| >= need || forall n :: Leafmost(c.tree, p, n) && Evictable(c.tree[n].res[p]) ==> Gone(mid, p, n))
            && (|mid.free.At(p)| >= need <==> |c.free.At(p)| + |SumOver(c.tree, EvictableLeaves(c.tree, p), p)| >= need))
    else mid == c
  }

  lemma CascadeSqueezes(cfg: Config, c: Cache, mid: Cache, need: int, promoteTo: Option<Tier>, rank: NodeId -> int, order: seq<NodeId>)
    requires Shaped(c) && Cascaded(cfg, c, mid, need, promoteTo, rank, order)
    ensures Squeezed(cfg, c, mid, promoteTo, need, rank, order)
  {
    hide Shaped, Genuine, EvictLoop, Evictable, Gone, OnlyDrops, SumOver, EvictableLeaves, Sheds;
    if promoteTo.Some? && promoteTo.value in cfg.enabled && |c.free.At(promoteTo.value)| < need {
      var p := promoteTo.value;
      RankedAreCandidates(c, p, rank, order);
      LoopOnlyDrops(cfg, c, p, None, order, need - |c.free.At(p)|);
      if Genuine(cfg, c) {
        LoopEnough(cfg, c, p, None, order, need);
        LoopTakes(cfg, c, p, None, order, need - |c.free.At(p)|);
        RoomIff(cfg, c, p, None, order, need);
        LeavesAre(c, p, rank, order);
      }
    }
  }

  lemma SqueezedDrops(cfg: Config, c: Cache, mid: Cache, promoteTo: Option<Tier>, need: int, rank: NodeId -> int, order: seq<NodeId>)
    requires Squeezed(cfg, c, mid, promoteTo, need, rank, order)
    ensures promoteTo.Some? ==> OnlyDrops(c, mid, promoteTo.value)
  {
    hide Genuine, Ranked, Candidates, Sheds, SumOver, EvictableLeaves, Gone, Evictable, Leafmost;
    if promoteTo.Some? { NothingDropped(c, promoteTo.value); }
  }

  lemma LeavesAre(c: Cache, u: Tier, rank: NodeId -> int, order: seq<NodeId>)
    requires Ranked(c.tree, u, rank, order)
    ensures Candidates(c, u, order) && AbleNodes(c, u, order) == EvictableLeaves(c.tree, u)
  {
    RankedAreCandidates(c, u, rank, order);
  }

  lemma ShrinkSheds(cfg: Config, mid: Cache, r: Cache, u: Tier, need: int, promoteTo: Option<Tier>, rank: NodeId -> int, order: seq<NodeId>)
    requires Shrunk(cfg, mid, r, u, need, promoteTo, rank, order)
    ensures |mid.free.At(u)| >= need ==> r == mid
    ensures |mid.free.At(u)| < need ==>
              && Ranked(mid.tree, u, rank, order) && Candidates(mid, u, order)
              && (promoteTo != Some(u) && Genuine(cfg, mid) ==> Sheds(mid, r, u, order, need - |mid.free.At(u)|))
  {
    hide Shaped, Genuine, EvictLoop, Ranked, Sheds;
    if |mid.free.At(u)| < need {
      RankedAreCandidates(mid, u, rank, order);
      if promoteTo != Some(u) && Genuine(cfg, mid) { LoopTakes(cfg, mid, u, promoteTo, order, need - |mid.free.At(u)|); }
    }
  }

  lemma ShrinkShifts(cfg: Config, c: Cache, mid: Cache, r: Cache, u: Tier, need: int, promoteTo: Option<Tier>, rank: NodeId -> int, order: seq<NodeId>)
    requires (promoteTo.Some? ==> OnlyDrops(c, mid, promoteTo.value)) && Shrunk(cfg, mid, r, u, need, promoteTo, rank, order)
    ensures promoteTo.Some? && promoteTo.value in cfg.enabled && promoteTo != Some(u) && |mid.free.At(u)| < need
            && Genuine(cfg, mid) && Counted(cfg, c) ==>
              Candidates(mid, u, order) && Shifts(cfg, mid, r, u, promoteTo.value, TakenNodes(mid, u, order, need - |mid.free.At(u)|))
    ensures !(promoteTo.Some? && promoteTo.value in cfg.enabled) ==> OnlyDrops(mid, r, u)
  {
    hide Shaped, Genuine, EvictLoop, Shifts, Taken, Offers, Leafmost, SumOver, EvictableLeaves, Gone, Evictable, PendingSum;
    if |mid.free.At(u)| < need {
      RankedAreCandidates(mid, u, rank, order);
      var deficit := need - |mid.free.At(u)|;
      if promoteTo.Some? && promoteTo.value in cfg.enabled {
        if promoteTo != Some(u) && Genuine(cfg, mid) && Counted(cfg, c) {
          StillCounted(cfg, c, mid);
          LoopShifts(cfg, mid, u, promoteTo.value, order, deficit);
        }
      } else {
        LoopOnlyDrops(cfg, mid, u, promoteTo, order, deficit);
      }
    } else {
      NothingDropped(mid, u);
    }
  }

  lemma StillCounted(cfg: Config, c: Cache, mid: Cache)
    requires Counted(cfg, c) && mid.inflight == c.inflight && mid.pending == c.pending && mid.nextHandle == c.nextHandle
    ensures Counted(cfg, mid)
  {}

  lemma ShrunkEnough(cfg: Config, mid: Cache, r: Cache, u: Tier, need: int, promoteTo: Option<Tier>, rank: NodeId -> int, order: seq<NodeId>)
    requires Genuine(cfg, mid) && Shrunk(cfg, mid, r, u, need, promoteTo, rank, order) && promoteTo != Some(u)
    ensures || |r.free.At(u)| >= need
            || forall n :: Leafmost(mid.tree, u, n) && Evictable(mid.tree[n].res[u]) ==> Gone(r, u, n)
  {
    hide Shaped, Genuine, EvictLoop, Evictable, Gone;
    if |mid.free.At(u)| < need {
      RankedAreCandidates(mid, u, rank, order);
      LoopEnough(cfg, mid, u, promoteTo, order, need);
    }
  }

  lemma ShrunkIff(cfg: Config, mid: Cache, r: Cache, u: Tier, need: int, promoteTo: Option<Tier>, rank: NodeId -> int, order: seq<NodeId>)
    requires Genuine(cfg, mid) && Shrunk(cfg, mid, r, u, need, promoteTo, rank, order) && promoteTo != Some(u)
    ensures |r.free.At(u)| >= need
       <==> |mid.free.At(u)| + |SumOver(mid.tree, EvictableLeaves(mid.tree, u), u)| >= need
  {
    hide Shaped, Genuine, EvictLoop, Evictable, Leafmost, SumOver;
    if |mid.free.At(u)| < need {
      RankedAreCandidates(mid, u, rank, order);
      RoomIff(cfg, mid, u, promoteTo, order, need);
      assert AbleNodes(mid, u, order) == EvictableLeaves(mid.tree, u);
    }
  }

  lemma NothingOffered(c: Cache, u: Tier)
    ensures Candidates(c, u, []) && Total(Able(Offers(c, u, []))) == 0
  {}

  function Chosen(ns: seq<NodeId>, selects: NodeId -> bool): seq<NodeId> {
    if ns == [] then [] else (if selects(ns[0]) then [ns[0]] else []) + Chosen(ns[1..], selects)
  }

  lemma {:induction false} ChosenHas(ns: seq<NodeId>, selects: NodeId -> bool)
    ensures forall n :: n in Chosen(ns, selects) <==> n in ns && selects(n)
  {
    if ns != [] {
      assert ns == [ns[0]] + ns[1..];
      ChosenHas(ns[1..], selects);
    }
  }

  lemma {:induction false} ChosenCandidates(c: Cache, u: Tier, ns: seq<NodeId>, selects: NodeId -> bool)
    requires Candidates(c, u, ns)
    ensures Candidates(c, u, Chosen(ns, selects))
  {
    if ns != [] {
      FirstCandidate(c, u, ns);
      ChosenCandidates(c, u, ns[1..], selects);
      ChosenHas(ns[1..], selects);
    }
  }

  lemma CollectedAreCandidates(c: Cache, u: Tier, ns: seq<NodeId>)
    requires (forall n :: n in ns <==> Leafmost(c.tree, u, n)) && forall i, j :: 0 <= i < j < |ns| ==> ns[i] != ns[j]
    ensures Candidates(c, u, ns)
  {
    forall i | 0 <= i < |ns| ensures ns[i] in c.tree && u in c.tree[ns[i]].res { assert ns[i] in ns; }
  }

  lemma ReserveSized(cfg: Config, c: Cache, n: NodeId, src: Tier, dst: Tier, isPromote: bool, k: nat, pageBytes: nat)
    requires n in c.tree && k <= |c.free.At(dst)| && PageSized(c.tree, pageBytes)
    ensures PageSized(Reserve(cfg, c, n, src, dst, isPromote, k).tree, pageBytes)
  {
    SameSegments(c.tree, Reserve(cfg, c, n, src, dst, isPromote, k).tree, pageBytes);
  }

  lemma CompleteSized(cfg: Config, c: Cache, h: Handle, success: bool, pageBytes: nat)
    requires Shaped(c) && PageSized(c.tree, pageBytes) && CompleteOp(cfg, c, h, success).Ok?
    ensures PageSized(CompleteOp(cfg, c, h, success).value.tree, pageBytes)
  {
    var p := c.inflight[h];
    DetachKeeps(c.tree, p.node, p.dst);
    PruneKeys(Detach(c.tree, p.node, p.dst), p.node);
    SameSegments(c.tree, CompleteOp(cfg, c, h, success).value.tree, pageBytes);
  }
}
