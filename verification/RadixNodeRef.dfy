/** `node_ref` as the object it is: a pin taken when it is made and given back when it is destroyed. */
module RadixNodeRef {
  import opened Basics
  import opened RadixTree
  import opened RadixWalk
  import opened RadixDescend
  import opened RadixPins
  import opened RadixPrefixCache

  /** The chain of `n` adjusted from `n` up to, and without, `p`. */
  ghost function Climbed(t: Tree, n: NodeId, p: Option<NodeId>, u: Tier, lock: bool): Tree
    requires n in t && (p.Some? ==> p.value in t)
  {
    map m | m in t :: if OnChain(t, m, n) && (p.Some? ==> |t[p.value].path| < |t[m].path|) then Touched(t[m], u, lock) else t[m]
  }

  function ParentOf(t: Tree, p: NodeId): Option<NodeId>
    requires p in t
  {
    if p == ROOT then None else Some(t[p].parent)
  }

  /** Between a node and its parent nothing else lies on the chain. */
  lemma NextUp(t: Tree, n: NodeId, p: NodeId, m: NodeId)
    requires WF(t) && n in t && p in t && p != ROOT && m in t && OnChain(t, p, n) && OnChain(t, m, n) && Linked(t, p)
    requires |t[t[p].parent].path| < |t[m].path| <= |t[p].path|
    ensures m == p
  {
    PrefixOf(t[m].path, t[p].path, t[n].path);
    assert Linked(t, m);
    OwnerUnique(t, p, m, t[m].path);
  }

  /** A node of the chain other than `p` is beyond `p` exactly when it is beyond what is above `p`. */
  lemma BeyondUp(t: Tree, n: NodeId, p: NodeId, m: NodeId)
    requires WF(t) && n in t && p in t && m in t && m != p && OnChain(t, p, n) && OnChain(t, m, n)
    requires p != ROOT ==> Linked(t, p)
    ensures |t[p].path| < |t[m].path| <==> (p != ROOT ==> |t[t[p].parent].path| < |t[m].path|)
  {
    if |t[m].path| <= |t[p].path| {
      if p == ROOT {
        SamePath(t, m, p, 1);
      } else if |t[t[p].parent].path| < |t[m].path| {
        NextUp(t, n, p, m);
      }
    }
  }

  lemma ParentUp(t: Tree, n: NodeId, p: NodeId)
    requires WF(t) && n in t && p in t && OnChain(t, p, n)
    ensures p != ROOT ==> Linked(t, p)
    ensures var a := ParentOf(t, p); a.Some? ==> a.value in t && OnChain(t, a.value, n) && |t[a.value].path| < |t[p].path|
  {
    if p != ROOT {
      assert Linked(t, p);
      assert t[t[p].parent].path <= t[p].path;
    }
  }

  lemma ClimbStep(t: Tree, n: NodeId, p: NodeId, u: Tier, lock: bool)
    requires WF(t) && n in t && p in t && OnChain(t, p, n)
    ensures var a := ParentOf(t, p); a.Some? ==> a.value in t && OnChain(t, a.value, n) && |t[a.value].path| < |t[p].path|
    ensures var c := Climbed(t, n, Some(p), u, lock); p in c && c[p] == t[p]
    ensures Climbed(t, n, Some(p), u, lock)[p := Touched(t[p], u, lock)] == Climbed(t, n, ParentOf(t, p), u, lock)
  {
    hide WF, Linked, OnChain, Touched;
    ParentUp(t, n, p);
    var a, b := Climbed(t, n, Some(p), u, lock)[p := Touched(t[p], u, lock)], Climbed(t, n, ParentOf(t, p), u, lock);
    forall m | m in t ensures a[m] == b[m] {
      if OnChain(t, m, n) && m != p { BeyondUp(t, n, p, m); }
    }
    assert a.Keys == b.Keys;
  }

  lemma ClimbEnds(t: Tree, n: NodeId, u: Tier, lock: bool)
    requires n in t
    ensures Climbed(t, n, Some(n), u, lock) == t && Climbed(t, n, None, u, lock) == Repinned(t, n, u, lock)
  {}

  class NodeRef {
    var cache: PrefixCache
    var node: Option<NodeId>
    var tier: Tier

    /** The node is still in the tree; otherwise the source reads a freed one. */
    ghost predicate Valid()
      reads this, cache, cache.Repr()
    {
      cache.Valid() && (node.Some? ==> node.value in cache.tree)
    }

    /** A pin on a node, or on nothing. */
    constructor (cache: PrefixCache, n: Option<NodeId>, u: Tier)
      requires cache.Valid() && (n.Some? ==> n.value in cache.tree)
      modifies cache`tree
      ensures Valid() && this.cache == cache && node == n && tier == u
      ensures cache.State() == if n.None? then old(cache.State())
                               else old(cache.State()).(tree := Pinned(old(cache.tree), n.value, u))
    {
      this.cache, node, tier := cache, n, u;
      new;
      if n.Some? { Lock(n.value); }
    }

    constructor MovedFrom(o: NodeRef)
      requires o.Valid()
      modifies o`node
      ensures Valid() && cache == o.cache && node == old(o.node) && tier == o.tier && o.node == None
    {
      cache, node, tier := o.cache, o.node, o.tier;
      new;
      o.node := None;
    }

    /** From the node to the root, every resource of the tier is locked. */
    method Lock(n: NodeId)
      requires Valid() && n in cache.tree
      modifies cache`tree
      ensures cache.Valid() && cache.State() == old(cache.State()).(tree := Pinned(old(cache.tree), n, tier))
    {
      hide WF, Below, PageSized, Climbed, ParentOf, OnChain, Touched, Repinned;
      ghost var t := cache.tree;
      var p := Some(n);
      OwnChain(t, n);
      ClimbEnds(t, n, tier, true);
      while p.Some?
        invariant p.Some? ==> p.value in t && OnChain(t, p.value, n)
        invariant cache.tree == Climbed(t, n, p, tier, true)
        decreases if p.Some? then 1 + |t[p.value].path| else 0
      {
        ClimbStep(t, n, p.value, tier, true);
        var nd := cache.tree[p.value];
        TouchedIs(nd, tier);
        if tier in nd.res {
          var r := nd.res[tier];
          cache.tree := cache.tree[p.value := nd.(res := nd.res[tier := r.(refs := r.refs + 1)])];
        }
        ParentIs(t, p.value);
        p := if p.value == ROOT then None else Some(nd.parent);
      }
      PinValid(t, n, tier, cache.next, cache.pageBytes);
    }

    /** From the node to the root, every resource of the tier that is locked is unlocked. */
    method Unlock(n: NodeId)
      requires Valid() && n in cache.tree
      modifies cache`tree
      ensures cache.Valid() && cache.State() == old(cache.State()).(tree := Unpinned(old(cache.tree), n, tier))
    {
      hide WF, Below, PageSized, Climbed, ParentOf, OnChain, Touched, Repinned;
      ghost var t := cache.tree;
      var p := Some(n);
      OwnChain(t, n);
      ClimbEnds(t, n, tier, false);
      while p.Some?
        invariant p.Some? ==> p.value in t && OnChain(t, p.value, n)
        invariant cache.tree == Climbed(t, n, p, tier, false)
        decreases if p.Some? then 1 + |t[p.value].path| else 0
      {
        ClimbStep(t, n, p.value, tier, false);
        var nd := cache.tree[p.value];
        TouchedIs(nd, tier);
        if tier in nd.res {
          var r := nd.res[tier];
          if r.refs > 0 {
            cache.tree := cache.tree[p.value := nd.(res := nd.res[tier := r.(refs := r.refs - 1)])];
          }
        }
        ParentIs(t, p.value);
        p := if p.value == ROOT then None else Some(nd.parent);
      }
      PinValid(t, n, tier, cache.next, cache.pageBytes);
    }

    /** The destructor. A second release does nothing. */
    method Release()
      requires Valid()
      modifies this`node, cache`tree
      ensures Valid() && node == None
      ensures cache.State() == if old(node).None? then old(cache.State())
                               else old(cache.State()).(tree := Unpinned(old(cache.tree), old(node).value, tier))
    {
      if node.None? { return; }
      Unlock(node.value);
      node := None;
    }

    /** Move assignment gives the target's pin back; assigning an object to itself does nothing. */
    method MoveAssign(o: NodeRef)
      requires Valid() && o.Valid()
      modifies this, o`node, cache`tree
      ensures Valid() && old(cache).Valid()
      ensures o == this ==> cache == old(cache) && node == old(node) && tier == old(tier) && cache.State() == old(cache.State())
      ensures o != this ==> o.node == None && cache == o.cache && node == old(o.node) && tier == o.tier
      ensures o != this ==>
                old(cache).State() == if old(node).None? then old(cache.State())
                                      else old(cache.State()).(tree := Unpinned(old(cache.tree), old(node).value, old(tier)))
    {
      if this != o {
        Release();
        assert o.node.Some? ==> o.node.value in o.cache.tree;
        cache, node, tier := o.cache, o.node, o.tier;
        o.node := None;
      }
    }
  }

  lemma OwnChain(t: Tree, n: NodeId)
    requires n in t
    ensures OnChain(t, n, n)
  {}

  lemma ParentIs(t: Tree, p: NodeId)
    requires p in t
    ensures ParentOf(t, p) == if p == ROOT then None else Some(t[p].parent)
  {}

  lemma TouchedIs(nd: Node, u: Tier)
    ensures u !in nd.res ==> Touched(nd, u, true) == Touched(nd, u, false) == nd
    ensures u in nd.res ==> Touched(nd, u, true) == nd.(res := nd.res[u := nd.res[u].(refs := nd.res[u].refs + 1)])
    ensures u in nd.res && nd.res[u].refs > 0 ==> Touched(nd, u, false) == nd.(res := nd.res[u := nd.res[u].(refs := nd.res[u].refs - 1)])
    ensures u in nd.res && nd.res[u].refs == 0 ==> Touched(nd, u, false) == nd
  {
    assert u in nd.res && nd.res[u].refs == 0 ==> nd.res[u := nd.res[u]] == nd.res;
  }

  lemma PinValid(t: Tree, n: NodeId, u: Tier, next: NodeId, pageBytes: nat)
    requires WF(t) && Below(t, next) && PageSized(t, pageBytes) && n in t
    ensures WF(Pinned(t, n, u)) && Below(Pinned(t, n, u), next) && PageSized(Pinned(t, n, u), pageBytes)
    ensures WF(Unpinned(t, n, u)) && Below(Unpinned(t, n, u), next) && PageSized(Unpinned(t, n, u), pageBytes)
  {
    hide WF, Pinned, Unpinned;
    PinTwin(t, n, u);
    TwinWF(t, Pinned(t, n, u));
    TwinWF(t, Unpinned(t, n, u));
    SameSegments(t, Pinned(t, n, u), pageBytes);
    SameSegments(t, Unpinned(t, n, u), pageBytes);
  }
}
