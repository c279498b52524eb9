/** `radix_tree::walk`: descend along a query, splitting where it leaves a node's segment part-way, and
    remember per tier how far an unbroken chain of ready resources reaches. */
module RadixWalk {
  import opened RadixPages
  import opened RadixTree
  import opened RadixSlots

  /** The walk's local state. `next` is the identity the next allocated node gets; `alive` are the tiers
      whose chain has not broken. */
  datatype Walk = Walk(tree: Tree, next: NodeId, cur: NodeId, consumed: nat, alive: set<Tier>,
                       last: map<Tier, NodeId>, matched: map<Tier, nat>)

  ghost predicate Below(t: Tree, next: NodeId) {
    next != ROOT && forall n :: n in t ==> n < next
  }

  ghost predicate WalkOk(w: Walk, q: seq<Page>) {
    && WF(w.tree) && Below(w.tree, w.next)
    && w.cur in w.tree && w.consumed <= |q| && w.tree[w.cur].path == q[..w.consumed]
    && (forall u: Tier :: u in w.last && u in w.matched)
  }

  function Start(t: Tree, next: NodeId): Walk {
    Walk(t, next, ROOT, 0, TIERS, map u | u in TIERS :: ROOT, map u | u in TIERS :: 0)
  }

  predicate CanStep(w: Walk, q: seq<Page>) {
    w.cur in w.tree && w.consumed < |q| && q[w.consumed] in w.tree[w.cur].children
  }

  /** Pages of the next child that agree with the rest of the query. */
  function StepPages(nd: Node, q: seq<Page>, consumed: nat): (k: nat)
    requires consumed <= |q|
    ensures k <= |nd.seg| && k <= |q| - consumed
  {
    Shared(nd.seg, q[consumed..])
  }

  /** The tree after the step's split, if it needs one. */
  function StepTree(t: Tree, c: NodeId, k: nat, next: NodeId): Tree
    requires WF(t) && c in t && c != ROOT && k <= |t[c].seg|
  {
    if 0 < k < |t[c].seg| then
      assert Linked(t, c) && ResourcesOk(t[c]);
      SplitNode(t, c, k, next)
    else t
  }

  function Step(w: Walk, q: seq<Page>): Walk
    requires WalkOk(w, q) && CanStep(w, q)
  {
    assert ChildrenOk(w.tree, w.cur);
    var c := w.tree[w.cur].children[q[w.consumed]];
    var k := StepPages(w.tree[c], q, w.consumed);
    var tree := StepTree(w.tree, c, k, w.next);
    var alive := set u: Tier | u in w.alive && ReadyAt(tree, c, u);
    Walk(tree, if k < |w.tree[c].seg| then w.next + 1 else w.next, c, w.consumed + k, alive,
         map u: Tier | u in w.last :: if u in alive then c else w.last[u],
         map u: Tier | u in w.matched :: if u in alive then w.consumed + k else w.matched[u])
  }

  lemma StepChild(w: Walk, q: seq<Page>)
    requires WalkOk(w, q) && CanStep(w, q)
    ensures var c := w.tree[w.cur].children[q[w.consumed]];
            && c in w.tree && c != ROOT && Linked(w.tree, c) && w.tree[c].parent == w.cur && ResourcesOk(w.tree[c])
            && 0 < StepPages(w.tree[c], q, w.consumed)
  {
    assert ChildrenOk(w.tree, w.cur);
    var c := w.tree[w.cur].children[q[w.consumed]];
    assert Linked(w.tree, c) && ResourcesOk(w.tree[c]);
    assert w.tree[c].seg[0] == q[w.consumed..][0];
  }

  /** The pages the step consumes are the query's. */
  lemma StepSegment(nd: Node, q: seq<Page>, consumed: nat, base: seq<Page>)
    requires consumed <= |q| && base == q[..consumed] && nd.path == base + nd.seg
    ensures var k := StepPages(nd, q, consumed);
            nd.path[..|nd.path| - |nd.seg| + k] == q[..consumed + k] && base + nd.seg[..k] == q[..consumed + k]
  {
    var k := StepPages(nd, q, consumed);
    assert q[..consumed + k] == q[..consumed] + q[consumed..][..k];
  }

  lemma StepTreeOk(t: Tree, c: NodeId, k: nat, next: NodeId)
    requires WF(t) && Below(t, next) && c in t && c != ROOT && 0 < k <= |t[c].seg|
    ensures var r := StepTree(t, c, k, next);
            && WF(r) && Below(r, if k < |t[c].seg| then next + 1 else next) && c in r
            && |t[c].seg| <= |t[c].path| && r[c].path == t[c].path[..|t[c].path| - |t[c].seg| + k]
  {
    assert Linked(t, c) && ResourcesOk(t[c]);
    if k < |t[c].seg| { SplitKeeps(t, c, k, next); }
  }

  /** A step always moves on, by at least the page that selected the child. */
  lemma StepMoves(w: Walk, q: seq<Page>)
    requires WalkOk(w, q) && CanStep(w, q)
    ensures var s := Step(w, q); WalkOk(s, q) && w.consumed < s.consumed
    ensures var c := w.tree[w.cur].children[q[w.consumed]];
            && c in w.tree && c != ROOT && Linked(w.tree, c) && w.tree[c].parent == w.cur && ResourcesOk(w.tree[c])
            && 0 < StepPages(w.tree[c], q, w.consumed)
  {
    StepChild(w, q);
    var c := w.tree[w.cur].children[q[w.consumed]];
    StepTreeOk(w.tree, c, StepPages(w.tree[c], q, w.consumed), w.next);
    StepSegment(w.tree[c], q, w.consumed, w.tree[w.cur].path);
  }

  function Run(w: Walk, q: seq<Page>): (r: Walk)
    requires WalkOk(w, q)
    ensures WalkOk(r, q) && !CanStep(r, q)
    decreases |q| - w.consumed
  {
    if CanStep(w, q) then
      StepMoves(w, q);
      Run(Step(w, q), q)
    else w
  }

  function WalkTree(t: Tree, next: NodeId, q: seq<Page>): (r: Walk)
    requires WF(t) && Below(t, next)
    ensures WalkOk(r, q) && !CanStep(r, q)
  {
    AllTiers();
    Run(Start(t, next), q)
  }

  lemma StartOk(t: Tree, next: NodeId, q: seq<Page>)
    requires WF(t) && Below(t, next)
    ensures WalkOk(Start(t, next), q) && WalkTree(t, next, q) == Run(Start(t, next), q)
  {
    AllTiers();
  }

  // ---- what the walk finds -----------------------------------------------------------------------

  /** Tier `u` has matched an unbroken stored chain; once broken, the next page is not stored. */
  ghost predicate Tracks(w: Walk, q: seq<Page>, u: Tier, s: Store)
    requires WalkOk(w, q)
  {
    && w.matched[u] <= w.consumed
    && w.last[u] in w.tree && w.tree[w.last[u]].path == q[..w.matched[u]]
    && Closed(s, q[..w.matched[u]])
    && (u in w.alive ==> w.matched[u] == w.consumed && w.last[u] == w.cur)
    && (u !in w.alive ==> w.matched[u] < w.consumed && q[..w.matched[u] + 1] !in s)
  }

  /** The step's node stores the pages it consumed, so they are on tier `u` exactly when it is ready. */
  lemma StepStores(w: Walk, q: seq<Page>, u: Tier, j: nat)
    requires WalkOk(w, q) && CanStep(w, q) && WalkOk(Step(w, q), q)
    requires w.consumed < j <= Step(w, q).consumed
    ensures q[..j] in Slots(Step(w, q).tree, u) <==> ReadyAt(Step(w, q).tree, Step(w, q).cur, u)
  {
    StepMoves(w, q);
    var s := Step(w, q);
    var c := s.cur;
    StepShape(w, q);
    assert q[..j] <= s.tree[c].path;
    assert Owns(s.tree, c, q[..j]);
    SlotAt(s.tree, u, c, q[..j]);
  }

  lemma StepShape(w: Walk, q: seq<Page>)
    requires WalkOk(w, q) && CanStep(w, q) && WalkOk(Step(w, q), q)
    ensures var s := Step(w, q); var c := s.cur;
            && c != ROOT && c in w.tree && c in s.tree && |s.tree[c].path| - |s.tree[c].seg| == w.consumed
            && forall n :: n in w.tree && |w.tree[n].path| <= w.consumed ==> n in s.tree && s.tree[n].path == w.tree[n].path
  {
    StepMoves(w, q);
    var s := Step(w, q);
    assert Linked(w.tree, s.cur);
    assert |w.tree[s.cur].path| > w.consumed;
  }

  lemma StepSlots(w: Walk, q: seq<Page>, u: Tier)
    requires WalkOk(w, q) && CanStep(w, q)
    ensures WalkOk(Step(w, q), q) && Slots(Step(w, q).tree, u) == Slots(w.tree, u)
  {
    StepMoves(w, q);
    var c := w.tree[w.cur].children[q[w.consumed]];
    var k := StepPages(w.tree[c], q, w.consumed);
    if k < |w.tree[c].seg| { SplitKeepsSlots(w.tree, c, k, w.next, u); }
  }

  lemma ClosedExtend(s: Store, q: seq<Page>, a: nat, b: nat)
    requires a <= b <= |q| && Closed(s, q[..a]) && forall j :: a < j <= b ==> q[..j] in s
    ensures Closed(s, q[..b])
  {
    forall j | 0 < j <= b ensures q[..b][..j] in s {
      assert q[..b][..j] == q[..j];
      if j <= a { assert q[..a][..j] == q[..j]; }
    }
  }

  lemma StepTracks(w: Walk, q: seq<Page>, u: Tier)
    requires WalkOk(w, q) && CanStep(w, q) && Tracks(w, q, u, Slots(w.tree, u))
    ensures WalkOk(Step(w, q), q) && Slots(Step(w, q).tree, u) == Slots(w.tree, u)
    ensures Tracks(Step(w, q), q, u, Slots(w.tree, u))
  {
    hide Slots, WF, Linked, Closed, Below, StepTree;
    StepMoves(w, q);
    StepSlots(w, q, u);
    StepShape(w, q);
    var s := Step(w, q);
    var sl := Slots(w.tree, u);
    if u in s.alive {
      forall j | w.consumed < j <= s.consumed ensures q[..j] in sl { StepStores(w, q, u, j); }
      ClosedExtend(sl, q, w.consumed, s.consumed);
    } else if u in w.alive {
      StepStores(w, q, u, w.consumed + 1);
    }
  }

  lemma {:induction false} RunTracks(w: Walk, q: seq<Page>, u: Tier)
    requires WalkOk(w, q) && Tracks(w, q, u, Slots(w.tree, u))
    ensures Slots(Run(w, q).tree, u) == Slots(w.tree, u) && Tracks(Run(w, q), q, u, Slots(w.tree, u))
    decreases |q| - w.consumed
  {
    if CanStep(w, q) {
      StepMoves(w, q);
      StepTracks(w, q, u);
      RunTracks(Step(w, q), q, u);
    }
  }

  lemma WalkTracks(t: Tree, next: NodeId, q: seq<Page>, u: Tier)
    requires WF(t) && Below(t, next)
    ensures Slots(WalkTree(t, next, q).tree, u) == Slots(t, u)
    ensures Tracks(WalkTree(t, next, q), q, u, Slots(t, u))
  {
    AllTiers();
    RunTracks(Start(t, next), q, u);
  }

  /** A match finds, on every tier, the longest mapped prefix of the query, and the node whose path it
      is; the splits it makes on the way change nothing that is stored. */
  lemma WalkFindsLongest(t: Tree, next: NodeId, q: seq<Page>, u: Tier)
    requires WF(t) && Below(t, next)
    ensures var w := WalkTree(t, next, q);
            && Slots(w.tree, u) == Slots(t, u) && TierMap(w.tree, u) == TierMap(t, u)
            && Longest(TierMap(t, u), q, w.matched[u])
            && w.last[u] in w.tree && w.tree[w.last[u]].path == q[..w.matched[u]]
  {
    hide Slots, StoredId, Stored, WalkTree, Run, Start, CanStep;
    WalkTracks(t, next, q, u);
    var w := WalkTree(t, next, q);
    if w.matched[u] < |q| && u in w.alive {
      EndNotStored(w, q, u);
    }
    LongestFrom(t, u, q, w.matched[u]);
    SameMap(t, w.tree, u);
  }

  lemma SameMap(t: Tree, r: Tree, u: Tier)
    requires WF(t) && WF(r) && Slots(t, u) == Slots(r, u)
    ensures TierMap(t, u) == TierMap(r, u)
  {}

  /** Where the walk stops short of the query's end, the next page is stored nowhere. */
  lemma EndNotStored(w: Walk, q: seq<Page>, u: Tier)
    requires WalkOk(w, q) && !CanStep(w, q) && w.consumed < |q|
    ensures q[..w.consumed + 1] !in Slots(w.tree, u)
  {
    var p := q[..w.consumed + 1];
    assert w.tree[w.cur].path < p && p[w.consumed] == q[w.consumed];
    forall m ensures !Owns(w.tree, m, p) { NoOwnerBeyond(w.tree, w.cur, p, m); }
    NoSlot(w.tree, u, p);
  }

  lemma LongestFrom(t: Tree, u: Tier, q: seq<Page>, k: nat)
    requires WF(t) && k <= |q| && Closed(Slots(t, u), q[..k]) && (k < |q| ==> q[..k + 1] !in Slots(t, u))
    ensures Longest(TierMap(t, u), q, k)
  {
    var s := Slots(t, u);
    forall j | 0 < j <= |q| ensures q[..j] in TierMap(t, u) <==> j <= k {
      if j <= k {
        assert q[..k][..j] == q[..j];
        forall i | 0 < i <= j ensures q[..j][..i] in s { assert q[..j][..i] == q[..k][..i]; }
      } else {
        assert q[..j][..k + 1] == q[..k + 1];
      }
    }
  }
}
