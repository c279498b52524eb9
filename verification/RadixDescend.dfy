/** `radix_tree::walk` on bytes: page keys cut from the query, segments compared atom by atom, the common
    length rounded down to a page. It does what the walk over pages does. */
module RadixDescend {
  import opened Basics
  import opened RadixPages
  import opened RadixTree
  import opened RadixSlots
  import opened RadixWalk

  /** Every page of every segment has the cache's page size. */
  ghost predicate PageSized(t: Tree, pageBytes: nat) {
    forall n {:trigger t[n].seg} :: n in t ==> Sized(t[n].seg, pageBytes)
  }

  lemma SplitSized(t: Tree, c: NodeId, k: nat, born: NodeId, pageBytes: nat)
    requires PageSized(t, pageBytes) && c in t && 0 < k < |t[c].seg| && |t[c].seg| <= |t[c].path|
    requires forall u :: u in t[c].res ==> |t[c].res[u].ids| == |t[c].seg|
    ensures PageSized(SplitNode(t, c, k, born), pageBytes)
  {
    assert Sized(t[c].seg, pageBytes);
    var r := SplitNode(t, c, k, born);
    forall n | n in r ensures Sized(r[n].seg, pageBytes) {
      if n != born && n != c { assert r[n].seg == t[n].seg; }
    }
  }

  lemma StepSized(w: Walk, q: seq<Page>, pageBytes: nat)
    requires WalkOk(w, q) && CanStep(w, q) && PageSized(w.tree, pageBytes)
    ensures PageSized(Step(w, q).tree, pageBytes)
  {
    StepMoves(w, q);
    var c := w.tree[w.cur].children[q[w.consumed]];
    var k := StepPages(w.tree[c], q, w.consumed);
    if k < |w.tree[c].seg| { SplitSized(w.tree, c, k, w.next, pageBytes); }
  }

  lemma {:induction false} RunSized(w: Walk, q: seq<Page>, pageBytes: nat)
    requires WalkOk(w, q) && PageSized(w.tree, pageBytes)
    ensures PageSized(Run(w, q).tree, pageBytes)
    decreases |q| - w.consumed
  {
    if CanStep(w, q) {
      StepMoves(w, q);
      StepSized(w, q, pageBytes);
      RunSized(Step(w, q), q, pageBytes);
    }
  }

  /** Dropping `i` pages drops their bytes, up to offset `lo`. */
  lemma {:induction false} ChopDrop(q: seq<byte>, pageBytes: nat, n: nat, i: nat, lo: nat)
    requires |q| == n * pageBytes && i <= n && lo == i * pageBytes
    ensures lo <= |q| && |q[lo..]| == (n - i) * pageBytes && |Chop(q, pageBytes, n)| == n
    ensures Chop(q, pageBytes, n)[i..] == Chop(q[lo..], pageBytes, n - i)
    decreases i
  {
    hide Join, Sized;
    MulLe(i, n, pageBytes);
    ChopJoin(q, pageBytes, n);
    if i == 0 {
      assert q[0..] == q;
    } else {
      MulStep(n, pageBytes);
      MulStep(i, pageBytes);
      var rest := q[pageBytes..];
      ChopDrop(rest, pageBytes, n - 1, i - 1, lo - pageBytes);
      assert rest[lo - pageBytes..] == q[lo..];
    }
  }

  /** Page `i` of a query is the bytes from `lo` to `hi`; the bytes from `lo` on are the remaining pages. */
  lemma ChopAt(q: seq<byte>, pageBytes: nat, n: nat, i: nat, lo: nat, hi: nat)
    requires |q| == n * pageBytes && i < n && lo == i * pageBytes && hi == (i + 1) * pageBytes
    ensures lo <= hi <= |q| && |Chop(q, pageBytes, n)| == n && Chop(q, pageBytes, n)[i] == q[lo..hi]
    ensures Join(Chop(q, pageBytes, n)[i..]) == q[lo..] && Sized(Chop(q, pageBytes, n)[i..], pageBytes)
  {
    hide Join;
    ChopDrop(q, pageBytes, n, i, lo);
    ChopJoin(q[lo..], pageBytes, n - i);
    MulStep(n - i, pageBytes);
    MulStep(i + 1, pageBytes);
    assert q[lo..][..pageBytes] == q[lo..hi];
    assert Chop(q, pageBytes, n)[i] == Chop(q, pageBytes, n)[i..][0];
  }

  /** `i` in whole units of `d`, rounded down. */
  method RoundDown(i: nat, d: nat) returns (k: nat)
    requires d > 0
    ensures k * d <= i < (k + 1) * d
  {
    k := i / d;
  }

  /** Leading whole pages on which a segment and the rest of the query agree, found on their bytes. */
  method MatchedPages(seg: seq<Page>, q: seq<byte>, ghost rest: seq<Page>, pages: nat, atomBytes: nat, atomsPerUnit: nat,
                      ghost pageBytes: nat)
    returns (k: nat)
    requires atomBytes > 0 && atomsPerUnit > 0 && pageBytes == atomsPerUnit * atomBytes
    requires Sized(seg, pageBytes) && Sized(rest, pageBytes) && q == Join(rest) && pages == |rest|
    ensures k == Shared(seg, rest)
  {
    hide Join, Shared, Sized;
    var own := Join(seg);
    ByteCount(seg, atomsPerUnit, atomBytes);
    ByteCount(rest, atomsPerUnit, atomBytes);
    var i := CommonAtomPrefix(own, q, atomBytes, |seg| * atomsPerUnit, pages * atomsPerUnit);
    k := RoundDown(i, atomsPerUnit);
    ghost var lo, hi := i * atomBytes, (i + 1) * atomBytes;
    MulLe(i, i + 1, atomBytes);
    RoundedIsShared(seg, rest, atomBytes, atomsPerUnit, k, i, lo, hi);
  }

  lemma ByteCount(ps: seq<Page>, atomsPerUnit: nat, atomBytes: nat)
    requires Sized(ps, atomsPerUnit * atomBytes)
    ensures |Join(ps)| == (|ps| * atomsPerUnit) * atomBytes
  {
    JoinLength(ps, atomsPerUnit * atomBytes);
    PageOffset(|ps|, atomsPerUnit, atomBytes);
  }

  /** The page key at page `i` of the query, and the bytes from there on. */
  method NextPage(q: seq<byte>, pageBytes: nat, pages: nat, i: nat) returns (key: Page, rest: seq<byte>)
    requires |q| == pages * pageBytes && i < pages
    ensures |Chop(q, pageBytes, pages)| == pages && key == Chop(q, pageBytes, pages)[i]
    ensures rest == Join(Chop(q, pageBytes, pages)[i..]) && Sized(Chop(q, pageBytes, pages)[i..], pageBytes)
  {
    var lo, hi := i * pageBytes, (i + 1) * pageBytes;
    ChopAt(q, pageBytes, pages, i, lo, hi);
    key, rest := q[lo..hi], q[lo..];
  }

  /** The walk. The guard asks for a whole page left; a missing page key ends it. */
  method WalkBytes(t: Tree, next: NodeId, q: seq<byte>, atomBytes: nat, atomsPerUnit: nat, pageBytes: nat, pages: nat)
    returns (w: Walk)
    requires WF(t) && Below(t, next) && atomBytes > 0 && atomsPerUnit > 0 && pageBytes == atomsPerUnit * atomBytes
    requires |q| == pages * pageBytes && PageSized(t, pageBytes)
    ensures w == WalkTree(t, next, Chop(q, pageBytes, pages)) && PageSized(w.tree, pageBytes)
  {
    hide WF, Below, Step, Join, Chop, SplitNode, PageSized;
    ghost var ps := Chop(q, pageBytes, pages);
    ChopJoin(q, pageBytes, pages);
    StartOk(t, next, ps);
    w := Start(t, next);
    while w.consumed + 1 <= pages
      invariant WalkOk(w, ps) && PageSized(w.tree, pageBytes)
      invariant Run(w, ps) == WalkTree(t, next, ps)
      decreases pages - w.consumed
    {
      var key, rest := NextPage(q, pageBytes, pages, w.consumed);
      if key !in w.tree[w.cur].children { break; }
      var c := w.tree[w.cur].children[key];
      StepMoves(w, ps);
      StepSized(w, ps, pageBytes);
      SegSized(w.tree, c, pageBytes);
      var k := MatchedPages(w.tree[c].seg, rest, ps[w.consumed..], pages - w.consumed, atomBytes, atomsPerUnit, pageBytes);
      w := Advance(w, c, k, ps);
    }
  }

  lemma SegSized(t: Tree, n: NodeId, pageBytes: nat)
    requires PageSized(t, pageBytes) && n in t
    ensures Sized(t[n].seg, pageBytes)
  {}

  /** One descent to child `c`, of which `k` pages matched: split it if need be, then update each tier. */
  method Advance(w: Walk, c: NodeId, k: nat, ghost ps: seq<Page>) returns (r: Walk)
    requires WalkOk(w, ps) && CanStep(w, ps) && c == w.tree[w.cur].children[ps[w.consumed]]
    requires c in w.tree && k == StepPages(w.tree[c], ps, w.consumed)
    ensures r == Step(w, ps)
  {
    hide WF, Linked, Below, ReadyAt, SplitNode;
    StepMoves(w, ps);
    var tree, next := w.tree, w.next;
    if k < |w.tree[c].seg| {
      tree := SplitNode(tree, c, k, next);
      next := next + 1;
    }
    var alive, last, matched := UpdateTiers(tree, c, w.consumed + k, w.alive, w.last, w.matched);
    r := Walk(tree, next, c, w.consumed + k, alive, last, matched);
    ghost var s := Step(w, ps);
    assert r.alive == s.alive && r.last == s.last && r.matched == s.matched;
  }

  /** A tier whose chain is unbroken goes on to `c` if its resource there is ready, and breaks otherwise. */
  method UpdateTiers(tree: Tree, c: NodeId, consumed: nat, alive0: set<Tier>, last0: map<Tier, NodeId>, matched0: map<Tier, nat>)
    returns (alive: set<Tier>, last: map<Tier, NodeId>, matched: map<Tier, nat>)
    requires forall u: Tier :: u in last0 && u in matched0
    ensures alive == set u: Tier | u in alive0 && ReadyAt(tree, c, u)
    ensures last == map u: Tier | u in last0 :: if u in alive then c else last0[u]
    ensures matched == map u: Tier | u in matched0 :: if u in alive then consumed else matched0[u]
  {
    hide ReadyAt;
    alive, last, matched := alive0, last0, matched0;
    var todo := TIERS;
    AllTiers();
    while todo != {}
      invariant last.Keys == last0.Keys && matched.Keys == matched0.Keys
      invariant forall u: Tier :: u in alive <==> u in alive0 && (u in todo || ReadyAt(tree, c, u))
      invariant forall u: Tier :: last[u] == if u in alive && u !in todo then c else last0[u]
      invariant forall u: Tier :: matched[u] == if u in alive && u !in todo then consumed else matched0[u]
      decreases |todo|
    {
      var u: Tier :| u in todo;
      todo := todo - {u};
      if u in alive {
        if ReadyAt(tree, c, u) {
          last, matched := last[u := c], matched[u := consumed];
        } else {
          alive := alive - {u};
        }
      }
    }
  }
}
