/** The allocator and its move-only handles, as the objects they are. */
module RadixAllocator {
  import opened Basics
  import opened RadixTree
  import opened RadixUnits
  import opened RadixCache

  /** `unit_allocator`: a stack of free ids whose top is the end. */
  class UnitAllocator {
    const tier: Tier
    const total: nat
    var free: seq<UnitId>

    constructor (tier: Tier, total: nat)
      ensures this.tier == tier && this.total == total && free == Fresh(total)
    {
      this.tier, this.total := tier, total;
      var list: seq<UnitId> := [];
      var i := if total > 0 then total - 1 else 0;
      while i >= 1
        invariant 0 <= i <= total && (total > 0 ==> i < total)
        invariant |list| + i == |Fresh(total)| && list == Fresh(total)[..|list|]
      {
        assert Fresh(total)[|list|] == i;
        list := list + [i];
        i := i - 1;
      }
      this.free := list;
    }

    function Available(): nat
      reads this
    {
      |free|
    }

    function Active(): int
      reads this
    {
      ActiveCount(total, Available())
    }

    /** Pops `n` units, or refuses and leaves the list alone. */
    method Allocate(n: nat) returns (r: Result<OwnedUnits, Error>)
      modifies this
      ensures r.Ok? <==> n <= |old(free)|
      ensures r.Err? ==> r.error == Shortage && free == old(free)
      ensures r.Ok? ==> fresh(r.value) && r.value.Valid() && r.value.Owns(this, Popped(old(free), n))
                        && free == old(free)[..|old(free)| - n]
    {
      if n == 0 {
        var none := new OwnedUnits.Of(this, []);
        return Ok(none);
      }
      if |free| < n { return Err(Shortage); }
      var out: seq<UnitId> := [];
      for i := 0 to n
        invariant free == old(free)[..|old(free)| - i] && out == Popped(old(free), i)
      {
        out := out + [free[|free| - 1]];
        free := free[..|free| - 1];
      }
      var units := new OwnedUnits.Of(this, out);
      r := Ok(units);
    }

    /** Takes back every id the allocator hands out; others are dropped silently. */
    method Deallocate(ids: seq<UnitId>)
      modifies this
      ensures free == old(free) + Accepted(total, ids)
    {
      for i := 0 to |ids|
        invariant free + Accepted(total, ids[i..]) == old(free) + Accepted(total, ids)
      {
        assert ids[i..][1..] == ids[i + 1..];
        if 0 < ids[i] < total { free := free + [ids[i]]; }
      }
    }
  }

  /** `owned_units`: ids together with the allocator they go back to. */
  class OwnedUnits {
    var allocator: UnitAllocator?
    var tier: Tier
    var ids: seq<UnitId>

    ghost predicate Valid()
      reads this
    {
      (allocator == null ==> ids == []) && (allocator != null ==> tier == allocator.tier)
    }

    ghost predicate Owns(a: UnitAllocator, ids: seq<UnitId>)
      reads this
    {
      allocator == a && this.ids == ids
    }

    /** Neither ids nor allocator: moved from, freed or released. */
    ghost predicate Spent()
      reads this
    {
      allocator == null && ids == []
    }

    constructor Of(a: UnitAllocator, ids: seq<UnitId>)
      ensures Valid() && Owns(a, ids) && tier == a.tier
    {
      allocator, tier, this.ids := a, a.tier, ids;
    }

    constructor MovedFrom(o: OwnedUnits)
      requires o.Valid()
      modifies o
      ensures Valid() && allocator == old(o.allocator) && tier == old(o.tier) && ids == old(o.ids) && o.Spent()
    {
      allocator, tier, ids := o.allocator, o.tier, o.ids;
      new;
      o.allocator, o.ids := null, [];
    }

    /** The destructor: all ids go back, in order. */
    method Destroy()
      requires Valid()
      modifies this, if allocator == null then {} else {allocator}
      ensures Valid() && ids == []
      ensures var a := old(allocator); a != null ==> a.free == old(allocator.free) + Accepted(a.total, old(ids))
    {
      if allocator != null && ids != [] { Free(); }
    }

    method Free()
      requires Valid() && allocator != null
      modifies this, allocator
      ensures Spent() && old(allocator).free == old(allocator.free) + Accepted(old(allocator).total, old(ids))
    {
      allocator.Deallocate(ids);
      ids := [];
      allocator := null;
    }

    /** Move assignment frees what the target had; assigning an object to itself does nothing. */
    method MoveAssign(o: OwnedUnits)
      requires Valid() && o.Valid()
      modifies this, o, if allocator == null then {} else {allocator}
      ensures Valid() && o.Valid()
      ensures o == this ==> allocator == old(allocator) && ids == old(ids) && tier == old(tier)
                            && (allocator != null ==> allocator.free == old(allocator.free))
      ensures o != this ==>
                && allocator == old(o.allocator) && tier == old(o.tier) && ids == old(o.ids) && o.Spent()
                && var a := old(allocator); a != null ==> a.free == old(allocator.free) + Accepted(a.total, old(ids))
    {
      if this != o {
        if allocator != null && ids != [] { Free(); }
        allocator, tier, ids := o.allocator, o.tier, o.ids;
        o.ids, o.allocator := [], null;
      }
    }

    method TakeFirst(n: nat) returns (r: Result<OwnedUnits, Error>)
      requires Valid()
      modifies this
      ensures Valid() && allocator == old(allocator) && tier == old(tier)
      ensures r.Ok? <==> n <= |old(ids)|
      ensures r.Err? ==> ids == old(ids)
      ensures r.Ok? ==> fresh(r.value) && r.value.Valid() && r.value.allocator == allocator && r.value.tier == tier
                        && r.value.ids == old(ids)[..n] && ids == old(ids)[n..]
    {
      if n > |ids| { return Err(CountMismatch); }
      var head := ids[..n];
      ids := ids[n..];
      var piece := Piece(head);
      r := Ok(piece);
    }

    method TakeLast(n: nat) returns (r: Result<OwnedUnits, Error>)
      requires Valid()
      modifies this
      ensures Valid() && allocator == old(allocator) && tier == old(tier)
      ensures r.Ok? <==> n <= |old(ids)|
      ensures r.Err? ==> ids == old(ids)
      ensures r.Ok? ==> fresh(r.value) && r.value.Valid() && r.value.allocator == allocator && r.value.tier == tier
                        && ids + r.value.ids == old(ids) && |r.value.ids| == n
    {
      if n > |ids| { return Err(CountMismatch); }
      var tail := ids[|ids| - n..];
      ids := ids[..|ids| - n];
      var piece := Piece(tail);
      r := Ok(piece);
    }

    /** A new handle of the same allocator and tier. */
    method Piece(part: seq<UnitId>) returns (piece: OwnedUnits)
      requires allocator == null ==> part == []
      requires allocator != null ==> tier == allocator.tier
      ensures fresh(piece) && piece.Valid() && piece.allocator == allocator && piece.tier == tier && piece.ids == part
    {
      piece := new OwnedUnits.Raw(allocator, tier, part);
    }

    constructor Raw(allocator: UnitAllocator?, tier: Tier, ids: seq<UnitId>)
      ensures this.allocator == allocator && this.tier == tier && this.ids == ids
    {
      this.allocator, this.tier, this.ids := allocator, tier, ids;
    }

    /** Concatenation. An empty handle takes over the other's allocator and tier; a full one insists on them.
        Appending a full handle to itself is undefined: its own range is inserted into it. */
    method Append(o: OwnedUnits) returns (ok: bool)
      requires Valid() && o.Valid() && (o != this || ids == [])
      modifies this, o
      ensures Valid() && o.Valid()
      ensures ok <==> old(o.ids) == [] || old(ids) == [] || (old(allocator) == old(o.allocator) && old(tier) == old(o.tier))
      ensures ok ==> ids == old(ids) + old(o.ids) && o.ids == []
      ensures ok && old(o.ids) != [] ==> allocator == old(o.allocator) && tier == old(o.tier)
      ensures !ok || old(o.ids) == [] ==> ids == old(ids) && allocator == old(allocator) && tier == old(tier)
                                           && o.ids == old(o.ids) && o.allocator == old(o.allocator) && o.tier == old(o.tier)
    {
      if o.ids == [] { return true; }
      if ids == [] {
        allocator, tier := o.allocator, o.tier;
      } else if allocator != o.allocator || tier != o.tier {
        return false;
      }
      ids := ids + o.ids;
      o.ids, o.allocator := [], null;
      ok := true;
    }

    /** The caller becomes responsible for the ids. */
    method Release() returns (out: seq<UnitId>)
      requires Valid()
      modifies this
      ensures out == old(ids) && Spent()
    {
      out := ids;
      allocator, ids := null, [];
    }
  }
}
