/** What a tree stores, read as one finite map per tier from page prefixes to unit ids. */
module RadixSlots {
  import opened RadixPages
  import opened RadixTree

  type Store = imap<seq<Page>, UnitId>

  predicate ReadyAt(t: Tree, n: NodeId, u: Tier) {
    n in t && u in t[n].res && t[n].res[u].state == Ready
  }

  /** Some node stores the last page of `p` on tier `u`, with its contents in place. */
  ghost predicate Stored(t: Tree, u: Tier, p: seq<Page>) {
    exists n :: n != ROOT && Owns(t, n, p) && ReadyAt(t, n, u)
  }

  /** The unit a node keeps for the last page of `p`. */
  ghost function IdAt(t: Tree, u: Tier, n: NodeId, p: seq<Page>): UnitId
    requires WF(t) && n != ROOT && Owns(t, n, p) && u in t[n].res
  {
    assert Linked(t, n) && ResourcesOk(t[n]);
    t[n].res[u].ids[|p| - 1 - (|t[n].path| - |t[n].seg|)]
  }

  ghost function StoredId(t: Tree, u: Tier, p: seq<Page>): UnitId
    requires WF(t) && Stored(t, u, p)
  {
    var n :| n != ROOT && Owns(t, n, p) && ReadyAt(t, n, u);
    IdAt(t, u, n, p)
  }

  /** Every stored page of tier `u`, by the prefix that ends with it. */
  ghost function Slots(t: Tree, u: Tier): Store
    requires WF(t)
  {
    imap p | Stored(t, u, p) :: StoredId(t, u, p)
  }

  ghost predicate Closed(s: Store, p: seq<Page>) {
    forall k :: 0 < k <= |p| ==> p[..k] in s
  }

  /** The prefixes a match can reach on tier `u`: each of their own prefixes is stored too. */
  ghost function TierMap(t: Tree, u: Tier): Store
    requires WF(t)
  {
    imap p | p in Slots(t, u) && Closed(Slots(t, u), p) :: Slots(t, u)[p]
  }

  /** `k` pages of `q` match: exactly the prefixes up to `k` are in the map. */
  ghost predicate Longest(m: Store, q: seq<Page>, k: nat) {
    k <= |q| && forall j :: 0 < j <= |q| ==> (q[..j] in m <==> j <= k)
  }

  lemma SlotAt(t: Tree, u: Tier, n: NodeId, p: seq<Page>)
    requires WF(t) && n != ROOT && Owns(t, n, p)
    ensures p in Slots(t, u) <==> ReadyAt(t, n, u)
    ensures ReadyAt(t, n, u) ==> Slots(t, u)[p] == IdAt(t, u, n, p)
  {
    assert Linked(t, n);
    forall m | m != ROOT && Owns(t, m, p) ensures m == n {
      OwnerUnique(t, n, m, p);
    }
  }

  lemma NoSlot(t: Tree, u: Tier, p: seq<Page>)
    requires WF(t) && forall n :: n != ROOT ==> !Owns(t, n, p)
    ensures p !in Slots(t, u)
  {}

  // ---- splitting a node changes nothing that is stored -------------------------------------------

  /** Who stores `p` after the split, when `n` did before. */
  function SplitOwner(t: Tree, c: NodeId, k: nat, born: NodeId, n: NodeId, p: seq<Page>): NodeId
    requires c in t
  {
    if n == c && |p| > |t[c].path| - |t[c].seg| + k then born else n
  }

  lemma SplitOwns(t: Tree, c: NodeId, k: nat, born: NodeId, n: NodeId, p: seq<Page>, u: Tier)
    requires WF(t) && c in t && c != ROOT && born !in t && 0 < k < |t[c].seg| && n != ROOT && Owns(t, n, p)
    requires ResourcesOk(t[c]) && Linked(t, c) && WF(SplitNode(t, c, k, born))
    ensures var r, m := SplitNode(t, c, k, born), SplitOwner(t, c, k, born, n, p);
            && m != ROOT && Owns(r, m, p) && (ReadyAt(r, m, u) <==> ReadyAt(t, n, u))
            && (u in t[n].res <==> u in r[m].res)
            && (u in t[n].res ==> IdAt(r, u, m, p) == IdAt(t, u, n, p))
  {
    var r := SplitNode(t, c, k, born);
    if n == c {
      if |p| <= |t[c].path| - |t[c].seg| + k {
        assert p <= r[c].path;
      } else {
        assert |r[born].path| - |r[born].seg| == |t[c].path| - |t[c].seg| + k;
      }
    } else {
      assert r[n].path == t[n].path && r[n].seg == t[n].seg && r[n].res == t[n].res;
    }
  }

  lemma SplitOwnsBack(t: Tree, c: NodeId, k: nat, born: NodeId, m: NodeId, p: seq<Page>)
    requires WF(t) && c in t && c != ROOT && born !in t && 0 < k < |t[c].seg|
    requires ResourcesOk(t[c]) && Linked(t, c) && Owns(SplitNode(t, c, k, born), m, p)
    ensures Owns(t, if m == born then c else m, p)
  {
    var r := SplitNode(t, c, k, born);
    if m == c {
      PrefixTrans(p, r[c].path, t[c].path);
    }
  }

  lemma SplitKeepsSlots(t: Tree, c: NodeId, k: nat, born: NodeId, u: Tier)
    requires WF(t) && c in t && c != ROOT && born !in t && 0 < k < |t[c].seg|
    ensures ResourcesOk(t[c]) && Linked(t, c)
    ensures WF(SplitNode(t, c, k, born))
    ensures Slots(SplitNode(t, c, k, born), u) == Slots(t, u)
  {
    hide Slots, Linked, ChildrenOk;
    SplitKeeps(t, c, k, born);
    var r := SplitNode(t, c, k, born);
    forall p ensures p in Slots(r, u) <==> p in Slots(t, u)
             ensures p in Slots(t, u) && p in Slots(r, u) ==> Slots(r, u)[p] == Slots(t, u)[p]
    {
      if n :| n != ROOT && Owns(t, n, p) {
        SplitSlot(t, c, k, born, n, p, u);
      } else {
        NoSlot(t, u, p);
        forall m | m != ROOT ensures !Owns(r, m, p) {
          if Owns(r, m, p) { SplitOwnsBack(t, c, k, born, m, p); }
        }
        NoSlot(r, u, p);
      }
    }
  }

  lemma SplitSlot(t: Tree, c: NodeId, k: nat, born: NodeId, n: NodeId, p: seq<Page>, u: Tier)
    requires WF(t) && c in t && c != ROOT && born !in t && 0 < k < |t[c].seg| && n != ROOT && Owns(t, n, p)
    requires ResourcesOk(t[c]) && Linked(t, c) && WF(SplitNode(t, c, k, born))
    ensures p in Slots(SplitNode(t, c, k, born), u) <==> p in Slots(t, u)
    ensures p in Slots(t, u) ==> Slots(SplitNode(t, c, k, born), u)[p] == Slots(t, u)[p]
  {
    var r, m := SplitNode(t, c, k, born), SplitOwner(t, c, k, born, n, p);
    SplitOwns(t, c, k, born, n, p, u);
    SlotAt(t, u, n, p);
    SlotAt(r, u, m, p);
  }

  // ---- a new leaf adds exactly its own pages -----------------------------------------------------

  /** The prefixes longer than `b` that end on `full`. */
  predicate Between(b: nat, full: seq<Page>, p: seq<Page>) { b < |p| && p <= full }

  /** One unit per prefix longer than `b` on the way to `full`. */
  ghost function Chain(b: nat, full: seq<Page>, ids: seq<UnitId>): Store
    requires |ids| == |full| - b
  {
    imap p | Between(b, full, p) :: ids[|p| - 1 - b]
  }

  ghost function Without(s: Store, b: nat, full: seq<Page>): Store {
    imap p | p in s && !Between(b, full, p) :: s[p]
  }

  /** What a fresh leaf contributes to tier `u`. */
  ghost function LeafStore(b: nat, full: seq<Page>, res: map<Tier, Resource>, u: Tier): Store
    requires b <= |full| && forall v :: v in res ==> |res[v].ids| == |full| - b
  {
    if u in res && res[u].state == Ready then Chain(b, full, res[u].ids) else imap[]
  }

  lemma LeafStoreAt(b: nat, full: seq<Page>, res: map<Tier, Resource>, u: Tier, p: seq<Page>)
    requires b <= |full| && forall v :: v in res ==> |res[v].ids| == |full| - b
    ensures p in LeafStore(b, full, res, u) <==> Between(b, full, p) && u in res && res[u].state == Ready
    ensures p in LeafStore(b, full, res, u) ==> LeafStore(b, full, res, u)[p] == res[u].ids[|p| - 1 - b]
  {}

  lemma AddLeafFree(t: Tree, base: NodeId, seg: seq<Page>, p: seq<Page>, m: NodeId)
    requires WF(t) && base in t && seg != [] && seg[0] !in t[base].children
    requires Between(|t[base].path|, t[base].path + seg, p)
    ensures !Owns(t, m, p)
  {
    var full := t[base].path + seg;
    PrefixOf(t[base].path, p, full);
    assert p[|t[base].path|] == full[|t[base].path|] == seg[0];
    NoOwnerBeyond(t, base, p, m);
  }

  lemma AddLeafSlot(t: Tree, base: NodeId, seg: seq<Page>, res: map<Tier, Resource>, born: NodeId, u: Tier, p: seq<Page>)
    requires WF(t) && base in t && born !in t && seg != [] && seg[0] !in t[base].children
    requires forall v :: v in res ==> |res[v].ids| == |seg|
    requires WF(AddLeaf(t, base, seg, res, born))
    ensures var r := Slots(AddLeaf(t, base, seg, res, born), u);
            var s := Slots(t, u) + LeafStore(|t[base].path|, t[base].path + seg, res, u);
            && (p in r <==> p in s)
            && (p in r ==> r[p] == s[p])
  {
    hide WF, Slots, AddLeaf, LeafStore, Between;
    LeafStoreAt(|t[base].path|, t[base].path + seg, res, u, p);
    if Between(|t[base].path|, t[base].path + seg, p) {
      AddLeafSlotNew(t, base, seg, res, born, u, p);
    } else {
      AddLeafSlotOld(t, base, seg, res, born, u, p);
    }
  }

  lemma AddLeafSlotNew(t: Tree, base: NodeId, seg: seq<Page>, res: map<Tier, Resource>, born: NodeId, u: Tier, p: seq<Page>)
    requires WF(t) && base in t && born !in t && seg != [] && seg[0] !in t[base].children
    requires forall v :: v in res ==> |res[v].ids| == |seg|
    requires WF(AddLeaf(t, base, seg, res, born))
    requires Between(|t[base].path|, t[base].path + seg, p)
    ensures var r := Slots(AddLeaf(t, base, seg, res, born), u);
            && p !in Slots(t, u)
            && (p in r <==> u in res && res[u].state == Ready)
            && (p in r ==> r[p] == res[u].ids[|p| - 1 - |t[base].path|])
  {
    forall m ensures !Owns(t, m, p) { AddLeafFree(t, base, seg, p, m); }
    NoSlot(t, u, p);
    assert Owns(AddLeaf(t, base, seg, res, born), born, p);
    assert born != ROOT;
    SlotAt(AddLeaf(t, base, seg, res, born), u, born, p);
  }

  lemma AddLeafSlotOld(t: Tree, base: NodeId, seg: seq<Page>, res: map<Tier, Resource>, born: NodeId, u: Tier, p: seq<Page>)
    requires WF(t) && base in t && born !in t && seg != [] && seg[0] !in t[base].children
    requires WF(AddLeaf(t, base, seg, res, born))
    requires !Between(|t[base].path|, t[base].path + seg, p)
    ensures p in Slots(AddLeaf(t, base, seg, res, born), u) <==> p in Slots(t, u)
    ensures p in Slots(t, u) ==> Slots(AddLeaf(t, base, seg, res, born), u)[p] == Slots(t, u)[p]
  {
    var r := AddLeaf(t, base, seg, res, born);
    forall m ensures Owns(r, m, p) <==> Owns(t, m, p) {}
    SameOwners(t, r, u, p);
  }

  /** Trees in which the same node stores `p`, with the same resource, agree on `p`. */
  lemma SameOwners(t: Tree, r: Tree, u: Tier, p: seq<Page>)
    requires WF(t) && WF(r)
    requires forall m :: Owns(r, m, p) <==> Owns(t, m, p)
    requires forall m :: Owns(t, m, p) ==> m in r && SameResource(t[m], r[m], u)
    ensures p in Slots(r, u) <==> p in Slots(t, u)
    ensures p in Slots(t, u) ==> Slots(r, u)[p] == Slots(t, u)[p]
  {
    hide WF, Slots, Owns;
    if n :| n != ROOT && Owns(t, n, p) {
      SameSlot(t, r, u, n, p);
    } else {
      NoSlot(t, u, p);
      NoSlot(r, u, p);
    }
  }

  lemma SameSlot(t: Tree, r: Tree, u: Tier, n: NodeId, p: seq<Page>)
    requires WF(t) && WF(r) && n != ROOT && Owns(t, n, p) && Owns(r, n, p) && SameResource(t[n], r[n], u)
    ensures p in Slots(r, u) <==> p in Slots(t, u)
    ensures p in Slots(t, u) ==> Slots(r, u)[p] == Slots(t, u)[p]
  {
    hide WF, Slots;
    SlotAt(t, u, n, p);
    SlotAt(r, u, n, p);
  }

  predicate SameResource(a: Node, b: Node, u: Tier) {
    && a.path == b.path && a.seg == b.seg
    && (u in a.res <==> u in b.res)
    && (u in a.res ==> a.res[u] == b.res[u])
  }

  lemma AddLeafSlots(t: Tree, base: NodeId, seg: seq<Page>, res: map<Tier, Resource>, born: NodeId, u: Tier)
    requires WF(t) && base in t && born !in t && seg != [] && seg[0] !in t[base].children
    requires forall v :: v in res ==> |res[v].ids| == |seg|
    ensures WF(AddLeaf(t, base, seg, res, born))
    ensures Slots(AddLeaf(t, base, seg, res, born), u)
         == Slots(t, u) + LeafStore(|t[base].path|, t[base].path + seg, res, u)
  {
    AddLeafKeeps(t, base, seg, res, born);
    forall p {
      AddLeafSlot(t, base, seg, res, born, u, p);
    }
  }

  // ---- dropping a resource removes exactly its node's pages --------------------------------------

  lemma DetachSlot(t: Tree, n: NodeId, u: Tier, v: Tier, p: seq<Page>)
    requires WF(t) && n in t && n != ROOT && WF(Detach(t, n, u))
    ensures var r := Slots(Detach(t, n, u), v);
            && (p in r <==> p in Slots(t, v) && (v != u || !Owns(t, n, p)))
            && (p in r ==> r[p] == Slots(t, v)[p])
  {
    hide Slots, Linked, ChildrenOk;
    var r := Detach(t, n, u);
    forall m ensures Owns(r, m, p) <==> Owns(t, m, p) {}
    if Owns(t, n, p) {
      SlotAt(t, v, n, p);
      SlotAt(r, v, n, p);
    } else {
      SameOwners(t, r, v, p);
    }
  }

  lemma DetachSlots(t: Tree, n: NodeId, u: Tier, v: Tier)
    requires WF(t) && n in t && n != ROOT
    ensures WF(Detach(t, n, u)) && |t[n].seg| <= |t[n].path|
    ensures Slots(Detach(t, n, u), v)
         == if v == u then Without(Slots(t, u), |t[n].path| - |t[n].seg|, t[n].path) else Slots(t, v)
  {
    DetachKeeps(t, n, u);
    assert Linked(t, n);
    forall p {
      DetachSlot(t, n, u, v, p);
    }
  }

  lemma UnlinkSlot(t: Tree, n: NodeId, u: Tier, p: seq<Page>)
    requires WF(t) && n in t && n != ROOT && Orphan(t[n])
    requires Linked(t, n) && t[n].parent != n && WF(Unlink(t, n))
    ensures p in Slots(Unlink(t, n), u) <==> p in Slots(t, u)
    ensures p in Slots(t, u) ==> Slots(Unlink(t, n), u)[p] == Slots(t, u)[p]
  {
    var r := Unlink(t, n);
    if m :| m != ROOT && m != n && Owns(t, m, p) {
      assert Owns(r, m, p);
      SlotAt(t, u, m, p);
      SlotAt(r, u, m, p);
    } else {
      if Owns(t, n, p) { SlotAt(t, u, n, p); } else { NoSlot(t, u, p); }
      forall m | m != ROOT ensures !Owns(r, m, p) {
        assert Owns(r, m, p) ==> Owns(t, m, p);
      }
      NoSlot(r, u, p);
    }
  }

  lemma {:induction false} PruneSlots(t: Tree, n: NodeId, u: Tier)
    requires WF(t)
    ensures WF(Prune(t, n)) && Slots(Prune(t, n), u) == Slots(t, u)
    decreases |t|
  {
    if n in t && n != ROOT && Orphan(t[n]) {
      UnlinkKeeps(t, n);
      forall p { UnlinkSlot(t, n, u, p); }
      assert Slots(Unlink(t, n), u) == Slots(t, u);
      PruneSlots(Unlink(t, n), t[n].parent, u);
    }
  }
}
