/** Choosing eviction candidates: the nodes that hold a tier and have no descendant holding it. */
module RadixEvict {
  import opened RadixTree
  import opened RadixStore

  // ---- what a candidate is -----------------------------------------------------------------------

  /** `a` is a proper ancestor of `m`, following parent links. */
  ghost predicate Ancestor(t: Tree, a: NodeId, m: NodeId)
    requires WF(t) && a in t && m in t
    decreases |t[m].path|
  {
    m != ROOT && (assert Linked(t, m); t[m].parent == a || Ancestor(t, a, t[m].parent))
  }

  /** Descent along parent links is extension of the path. */
  lemma {:induction false} AncestorIffPrefix(t: Tree, a: NodeId, m: NodeId)
    requires WF(t) && a in t && m in t
    ensures Ancestor(t, a, m) <==> t[a].path < t[m].path
    decreases |t[m].path|
  {
    if m != ROOT {
      assert Linked(t, m);
      var pm := t[m].parent;
      AncestorIffPrefix(t, a, pm);
      if t[a].path < t[m].path {
        var c := ChildToward(t, a, m);
        if c != m {
          assert Linked(t, c);
          if |t[pm].path| <= |t[a].path| {
            PrefixOf(t[pm].path, t[a].path, t[m].path);
            assert Owns(t, m, t[c].path) && Owns(t, c, t[c].path);
            OwnerUnique(t, m, c, t[c].path);
          } else {
            PrefixOf(t[a].path, t[pm].path, t[m].path);
          }
        }
      }
    }
  }

  /** Some node below `n` holds tier `u`. */
  ghost predicate Covers(t: Tree, u: Tier, n: NodeId)
    requires n in t
  {
    exists m :: m in t && t[n].path < t[m].path && u in t[m].res
  }

  /** A candidate holds the tier and covers nobody who does, in terms of parent links. */
  lemma LeafmostIff(t: Tree, u: Tier, n: NodeId)
    requires WF(t) && n in t
    ensures Leafmost(t, u, n) <==>
            (n != ROOT && u in t[n].res && forall m :: m in t && Ancestor(t, n, m) ==> u !in t[m].res)
  {
    forall m | m in t ensures Ancestor(t, n, m) <==> t[n].path < t[m].path { AncestorIffPrefix(t, n, m); }
  }

  /** A node covers the tier if a child holds or covers it. */
  lemma CoversStep(t: Tree, u: Tier, n: NodeId)
    requires WF(t) && n in t
    ensures Covers(t, u, n) <==>
            exists k :: k in t[n].children && (assert ChildrenOk(t, n); u in t[t[n].children[k]].res || Covers(t, u, t[n].children[k]))
  {
    hide ResourcesOk;
    assert ChildrenOk(t, n);
    if m :| m in t && t[n].path < t[m].path && u in t[m].res {
      var c := ChildToward(t, n, m);
      var k := t[m].path[|t[n].path|];
      assert t[n].children[k] == c;
      if t[c].path == t[m].path { SamePath(t, c, m, |t[m].path| + 1); }
    }
    if k :| k in t[n].children && (u in t[t[n].children[k]].res || Covers(t, u, t[n].children[k])) {
      var c := t[n].children[k];
      assert Linked(t, c);
      assert t[n].path < t[c].path;
      if u !in t[c].res {
        var m :| m in t && t[c].path < t[m].path && u in t[m].res;
        PrefixTrans(t[n].path, t[c].path, t[m].path);
      }
    }
  }

  // ---- the explicit-stack traversal --------------------------------------------------------------

  datatype Frame = Frame(n: NodeId, processed: bool)

  ghost predicate OnStack(stk: seq<Frame>, m: NodeId) {
    exists i :: 0 <= i < |stk| && stk[i].n == m
  }

  /** The frames of all children, in whatever order the hash map yields them. */
  method ChildFrames(t: Tree, n: NodeId) returns (fs: seq<Frame>)
    requires WF(t) && n in t
    ensures FramesOf(t, n, fs)
  {
    fs := [];
    var ks := t[n].children.Keys;
    assert ChildrenOk(t, n);
    while ks != {}
      invariant ks <= t[n].children.Keys
      invariant forall i :: 0 <= i < |fs| ==> !fs[i].processed && fs[i].n in t && fs[i].n != ROOT && t[fs[i].n].parent == n
                                              && t[fs[i].n].seg != [] && t[fs[i].n].seg[0] !in ks
      invariant forall i, j :: 0 <= i < j < |fs| ==> fs[i].n != fs[j].n
      invariant forall k :: k in t[n].children && k !in ks ==> OnStack(fs, t[n].children[k])
      decreases |ks|
    {
      var k :| k in ks;
      ghost var before := fs;
      fs := fs + [Frame(t[n].children[k], false)];
      assert forall m :: OnStack(before, m) ==> OnStack(fs, m) by {
        forall m | OnStack(before, m) ensures OnStack(fs, m) {
          var i :| 0 <= i < |before| && before[i].n == m;
          assert fs[i].n == m;
        }
      }
      assert fs[|fs| - 1].n == t[n].children[k];
      ks := ks - {k};
    }
    forall m | m in t && m != ROOT && t[m].parent == n ensures OnStack(fs, m) {
      assert Linked(t, m);
    }
  }

  /** Whether some child holds tier `u` or was found to cover it. */
  method ChildHas(t: Tree, n: NodeId, u: Tier, covered: seq<NodeId>) returns (found: bool)
    requires WF(t) && n in t
    ensures found <==> exists k :: k in t[n].children && t[n].children[k] in t
                                   && (u in t[t[n].children[k]].res || t[n].children[k] in covered)
  {
    found := false;
    var ks := t[n].children.Keys;
    assert ChildrenOk(t, n);
    while ks != {} && !found
      invariant ks <= t[n].children.Keys
      invariant found ==> exists k :: k in t[n].children && t[n].children[k] in t
                                      && (u in t[t[n].children[k]].res || t[n].children[k] in covered)
      invariant !found ==> forall k :: k in t[n].children && k !in ks ==>
                             u !in t[t[n].children[k]].res && t[n].children[k] !in covered
      decreases |ks|
    {
      var k :| k in ks;
      var c := t[n].children[k];
      found := u in t[c].res || c in covered;
      ks := ks - {k};
    }
  }

  ghost predicate Seen(done: set<NodeId>, stk: seq<Frame>, m: NodeId) {
    m in done || OnStack(stk, m)
  }

  /** The traversal's bookkeeping: `expanded` are the nodes whose children were pushed. */
  ghost predicate Traversal(t: Tree, stk: seq<Frame>, done: set<NodeId>, expanded: set<NodeId>) {
    && done <= expanded <= t.Keys
    && (forall i :: 0 <= i < |stk| ==> stk[i].n in t && stk[i].n !in done && (stk[i].processed <==> stk[i].n in expanded))
    && (forall i, j :: 0 <= i < j < |stk| ==> stk[i].n != stk[j].n)
    && (forall m :: m in expanded ==> Seen(done, stk, m))
    && Seen(done, stk, ROOT)
    && (forall m {:trigger Seen(done, stk, m)} {:trigger t[m].parent in expanded} ::
          m in t && m != ROOT ==> (Seen(done, stk, m) <==> t[m].parent in expanded))
  }

  /** Children of an expanded node are finished, or wait above it on the stack. */
  ghost predicate Above(t: Tree, stk: seq<Frame>, done: set<NodeId>) {
    && (forall m {:trigger t[m].parent in done} :: m in t && m != ROOT && t[m].parent in done ==> m in done)
    && (forall i, m :: 0 <= i < |stk| && stk[i].processed && m in t && m != ROOT && t[m].parent == stk[i].n ==>
          m in done || OnStack(stk[i + 1..], m))
  }

  /** Among the finished nodes, `covered` cover the tier and `out` are the candidates, each once. */
  ghost predicate Found(t: Tree, u: Tier, done: set<NodeId>, covered: seq<NodeId>, out: seq<NodeId>) {
    && done <= t.Keys
    && (forall m :: m in covered <==> m in done && Covers(t, u, m))
    && (forall m :: m in out <==> m in done && Leafmost(t, u, m))
    && (forall i, j :: 0 <= i < j < |out| ==> out[i] != out[j])
  }

  lemma {:induction false} Reached(t: Tree, done: set<NodeId>, m: NodeId)
    requires WF(t) && m in t && ROOT in done && forall x :: x in t && x != ROOT && t[x].parent in done ==> x in done
    ensures m in done
    decreases |t[m].path|
  {
    if m != ROOT {
      assert Linked(t, m);
      Reached(t, done, t[m].parent);
    }
  }

  /** `collect_evict_candidates`: exactly the candidates, each once, whatever the shape of the tree. */
  method CollectEvictCandidates(t: Tree, u: Tier) returns (out: seq<NodeId>)
    requires WF(t)
    ensures forall n :: n in out <==> Leafmost(t, u, n)
    ensures forall i, j :: 0 <= i < j < |out| ==> out[i] != out[j]
  {
    hide OnStack, Seen, Above, Deepened, Linked, WF, ChildrenOk, Covers, FramesOf, ResourcesOk;
    var stk := [Frame(ROOT, false)];
    var covered: seq<NodeId> := [];
    out := [];
    ghost var done: set<NodeId>, expanded: set<NodeId> := {}, {};
    Begin(t, u);
    while stk != []
      invariant Traversal(t, stk, done, expanded) && Above(t, stk, done) && Found(t, u, done, covered, out)
      decreases |t.Keys - expanded|, |stk|
    {
      var top := |stk| - 1;
      var n := stk[top].n;
      if !stk[top].processed {
        var fs := ChildFrames(t, n);
        Expand(t, stk, fs, done, expanded);
        assert t.Keys - (expanded + {n}) == (t.Keys - expanded) - {n};
        stk := Deepened(stk, fs);
        expanded := expanded + {n};
      } else {
        Finish(t, stk, done, expanded);
        var below := ChildHas(t, n, u, covered);
        ChildHasCovers(t, u, n, done, covered, below);
        FoundStep(t, u, n, done, covered, out, below);
        stk := stk[..top];
        done := done + {n};
        if below { covered := covered + [n]; }
        if n != ROOT && u in t[n].res && !below { out := out + [n]; }
      }
    }
    Complete(t, u, done, expanded, covered, out);
  }

  lemma Begin(t: Tree, u: Tier)
    requires WF(t)
    ensures Traversal(t, [Frame(ROOT, false)], {}, {}) && Above(t, [Frame(ROOT, false)], {}) && Found(t, u, {}, [], [])
  {
    assert [Frame(ROOT, false)][0].n == ROOT;
  }

  lemma Complete(t: Tree, u: Tier, done: set<NodeId>, expanded: set<NodeId>, covered: seq<NodeId>, out: seq<NodeId>)
    requires WF(t) && Traversal(t, [], done, expanded) && Above(t, [], done) && Found(t, u, done, covered, out)
    ensures forall n :: n in out <==> Leafmost(t, u, n)
  {
    forall n | n in t ensures n in done { Reached(t, done, n); }
  }

  ghost predicate FramesOf(t: Tree, n: NodeId, fs: seq<Frame>) {
    && (forall i :: 0 <= i < |fs| ==> !fs[i].processed && fs[i].n in t && fs[i].n != ROOT && t[fs[i].n].parent == n)
    && (forall i, j :: 0 <= i < j < |fs| ==> fs[i].n != fs[j].n)
    && (forall m :: m in t && m != ROOT && t[m].parent == n ==> OnStack(fs, m))
  }

  function Deepened(stk: seq<Frame>, fs: seq<Frame>): seq<Frame>
    requires stk != []
  {
    stk[..|stk| - 1] + [Frame(stk[|stk| - 1].n, true)] + fs
  }

  lemma Expand(t: Tree, stk: seq<Frame>, fs: seq<Frame>, done: set<NodeId>, expanded: set<NodeId>)
    requires WF(t) && stk != [] && !stk[|stk| - 1].processed && FramesOf(t, stk[|stk| - 1].n, fs)
    requires Traversal(t, stk, done, expanded) && Above(t, stk, done)
    ensures var n := stk[|stk| - 1].n;
            n !in expanded && n in t && Traversal(t, Deepened(stk, fs), done, expanded + {n}) && Above(t, Deepened(stk, fs), done)
  {
    var n := stk[|stk| - 1].n;
    assert OnStack(stk, n);
    forall m ensures OnStack(Deepened(stk, fs), m) <==> OnStack(stk, m) || OnStack(fs, m) { StackSplit(stk, fs, m); }
    forall i | 0 <= i < |fs| ensures !Seen(done, stk, fs[i].n) {
      assert t[fs[i].n].parent == n;
    }
    ExpandTraversal(t, stk, fs, done, expanded);
    ExpandAbove(t, stk, fs, done);
  }

  lemma ExpandFrames(t: Tree, stk: seq<Frame>, fs: seq<Frame>, done: set<NodeId>, expanded: set<NodeId>, i: nat)
    requires stk != [] && !stk[|stk| - 1].processed && FramesOf(t, stk[|stk| - 1].n, fs)
    requires Traversal(t, stk, done, expanded) && i < |Deepened(stk, fs)|
    requires forall i :: 0 <= i < |fs| ==> !Seen(done, stk, fs[i].n)
    ensures var r := Deepened(stk, fs);
            r[i].n in t && r[i].n !in done && (r[i].processed <==> r[i].n in expanded + {stk[|stk| - 1].n})
  {
    var top := |stk| - 1;
    var r := Deepened(stk, fs);
    if i < top {
      assert r[i] == stk[i];
    } else if i > top {
      var f := fs[i - top - 1];
      assert r[i] == f;
      assert !Seen(done, stk, f.n);
      assert OnStack(stk, stk[top].n);
    }
  }

  lemma ExpandDistinct(t: Tree, stk: seq<Frame>, fs: seq<Frame>, done: set<NodeId>, i: nat, j: nat)
    requires stk != [] && FramesOf(t, stk[|stk| - 1].n, fs) && i < j < |Deepened(stk, fs)|
    requires forall i, j :: 0 <= i < j < |stk| ==> stk[i].n != stk[j].n
    requires forall i :: 0 <= i < |fs| ==> !Seen(done, stk, fs[i].n)
    ensures Deepened(stk, fs)[i].n != Deepened(stk, fs)[j].n
  {
    var top := |stk| - 1;
    var r := Deepened(stk, fs);
    if i <= top < j {
      assert r[j] == fs[j - top - 1] && r[i].n == stk[i].n;
      assert OnStack(stk, stk[i].n);
    } else if i <= top {
      assert r[i].n == stk[i].n && r[j].n == stk[j].n;
    } else {
      assert r[i] == fs[i - top - 1] && r[j] == fs[j - top - 1];
    }
  }

  lemma ExpandTraversal(t: Tree, stk: seq<Frame>, fs: seq<Frame>, done: set<NodeId>, expanded: set<NodeId>)
    requires WF(t) && stk != [] && !stk[|stk| - 1].processed && FramesOf(t, stk[|stk| - 1].n, fs)
    requires Traversal(t, stk, done, expanded)
    requires forall m :: OnStack(Deepened(stk, fs), m) <==> OnStack(stk, m) || OnStack(fs, m)
    requires forall i :: 0 <= i < |fs| ==> !Seen(done, stk, fs[i].n)
    ensures Traversal(t, Deepened(stk, fs), done, expanded + {stk[|stk| - 1].n})
  {
    hide WF, FramesOf, Deepened;
    var r := Deepened(stk, fs);
    forall i | 0 <= i < |r|
      ensures r[i].n in t && r[i].n !in done && (r[i].processed <==> r[i].n in expanded + {stk[|stk| - 1].n})
    {
      ExpandFrames(t, stk, fs, done, expanded, i);
    }
    forall i, j | 0 <= i < j < |r| ensures r[i].n != r[j].n { ExpandDistinct(t, stk, fs, done, i, j); }
    var n := stk[|stk| - 1].n;
    assert OnStack(stk, n);
    forall m | m in t && m != ROOT ensures Seen(done, r, m) <==> t[m].parent in expanded + {n} {
      ExpandSeen(t, stk, fs, done, expanded, m);
    }
    forall m | m in expanded + {n} ensures Seen(done, r, m) {
      assert Seen(done, stk, m);
    }
    assert Seen(done, stk, ROOT);
  }

  lemma ExpandSeen(t: Tree, stk: seq<Frame>, fs: seq<Frame>, done: set<NodeId>, expanded: set<NodeId>, m: NodeId)
    requires stk != [] && FramesOf(t, stk[|stk| - 1].n, fs) && m in t && m != ROOT
    requires Seen(done, stk, m) <==> t[m].parent in expanded
    requires OnStack(Deepened(stk, fs), m) <==> OnStack(stk, m) || OnStack(fs, m)
    ensures Seen(done, Deepened(stk, fs), m) <==> t[m].parent in expanded + {stk[|stk| - 1].n}
  {}

  lemma ExpandAbove(t: Tree, stk: seq<Frame>, fs: seq<Frame>, done: set<NodeId>)
    requires stk != [] && Above(t, stk, done) && FramesOf(t, stk[|stk| - 1].n, fs)
    ensures Above(t, Deepened(stk, fs), done)
  {
    var top := |stk| - 1;
    var r := Deepened(stk, fs);
    forall i, m | 0 <= i < |r| && r[i].processed && m in t && m != ROOT && t[m].parent == r[i].n
      ensures m in done || OnStack(r[i + 1..], m)
    {
      if i < top {
        assert r[i] == stk[i];
        if m !in done {
          var j :| 0 <= j < |stk[i + 1..]| && stk[i + 1..][j].n == m;
          assert r[i + 1..][j].n == m;
        }
      } else if i == top {
        assert r[top + 1..] == fs;
      }
    }
  }

  lemma StackSplit(stk: seq<Frame>, fs: seq<Frame>, m: NodeId)
    requires stk != []
    ensures OnStack(Deepened(stk, fs), m) <==> OnStack(stk, m) || OnStack(fs, m)
  {
    var top := |stk| - 1;
    var r := Deepened(stk, fs);
    if i :| 0 <= i < |stk| && stk[i].n == m { assert r[i].n == m; }
    if i :| 0 <= i < |fs| && fs[i].n == m { assert r[top + 1 + i].n == m; }
    if i :| 0 <= i < |r| && r[i].n == m {
      if i <= top { assert stk[i].n == m; } else { assert fs[i - top - 1].n == m; }
    }
  }

  lemma StackPop(stk: seq<Frame>, m: NodeId)
    requires stk != []
    ensures OnStack(stk, m) <==> OnStack(stk[..|stk| - 1], m) || m == stk[|stk| - 1].n
  {
    var top := |stk| - 1;
    if i :| 0 <= i < |stk| && stk[i].n == m { if i < top { assert stk[..top][i].n == m; } }
    if i :| 0 <= i < |stk[..top]| && stk[..top][i].n == m { assert stk[i].n == m; }
    assert stk[top].n == stk[top].n;
  }

  lemma Finish(t: Tree, stk: seq<Frame>, done: set<NodeId>, expanded: set<NodeId>)
    requires WF(t) && stk != [] && stk[|stk| - 1].processed
    requires Traversal(t, stk, done, expanded) && Above(t, stk, done)
    ensures var top := |stk| - 1; var n := stk[top].n;
            && n in t && n !in done && (forall m :: m in t && m != ROOT && t[m].parent == n ==> m in done)
            && Traversal(t, stk[..top], done + {n}, expanded) && Above(t, stk[..top], done + {n})
  {
    var top := |stk| - 1;
    var n := stk[top].n;
    assert stk[top + 1..] == [];
    forall m ensures Seen(done, stk, m) <==> Seen(done + {n}, stk[..top], m) { StackPop(stk, m); }
    FinishAbove(t, stk, done);
  }

  lemma FinishAbove(t: Tree, stk: seq<Frame>, done: set<NodeId>)
    requires stk != [] && Above(t, stk, done)
    requires forall m :: m in t && m != ROOT && t[m].parent == stk[|stk| - 1].n ==> m in done
    ensures Above(t, stk[..|stk| - 1], done + {stk[|stk| - 1].n})
  {
    var top := |stk| - 1;
    var n := stk[top].n;
    var r := stk[..top];
    forall i, m | 0 <= i < |r| && r[i].processed && m in t && m != ROOT && t[m].parent == r[i].n
      ensures m in done + {n} || OnStack(r[i + 1..], m)
    {
      assert r[i] == stk[i];
      if m !in done && m != n {
        var j :| 0 <= j < |stk[i + 1..]| && stk[i + 1..][j].n == m;
        assert r[i + 1..][j].n == m;
      }
    }
  }

  lemma FoundStep(t: Tree, u: Tier, n: NodeId, done: set<NodeId>, covered: seq<NodeId>, out: seq<NodeId>, below: bool)
    requires n in t && n !in done && Found(t, u, done, covered, out) && (below <==> Covers(t, u, n))
    ensures Found(t, u, done + {n}, if below then covered + [n] else covered,
                  if n != ROOT && u in t[n].res && !below then out + [n] else out)
  {
    assert Leafmost(t, u, n) <==> n != ROOT && u in t[n].res && !Covers(t, u, n);
  }

  lemma ChildHasCovers(t: Tree, u: Tier, n: NodeId, done: set<NodeId>, covered: seq<NodeId>, below: bool)
    requires WF(t) && n in t && forall m :: m in t && m != ROOT && t[m].parent == n ==> m in done
    requires done <= t.Keys && forall m :: m in covered <==> m in done && Covers(t, u, m)
    requires below <==> exists k :: k in t[n].children && t[n].children[k] in t
                                    && (u in t[t[n].children[k]].res || t[n].children[k] in covered)
    ensures below <==> Covers(t, u, n)
  {
    assert ChildrenOk(t, n);
    CoversStep(t, u, n);
  }
}
