/** A pin held over a span of calls: when releasing it restores every reference count. */
module RadixSpans {
  import opened Basics
  import opened RadixTree
  import opened RadixStore
  import opened RadixCache
  import opened RadixPins
  import opened RadixSystem

  /** Matches, inserts, allocation, and everything done to handles. */
  predicate Quiet(a: Act) {
    !a.Evict? && !a.Start? && !a.Complete? && !a.Pin? && !a.Unpin?
  }

  function WithTree(s: Sys, t: Tree): Sys {
    s.(cache := s.cache.(tree := t))
  }

  /** The call walks, and its walk leaves the pinned node part-way while the node holds the tier. */
  ghost predicate Cuts(cfg: Config, s: Sys, a: Act, n: NodeId, u: Tier)
    requires Shaped(s.cache)
  {
    match a
    case Match(q) => CutsPinned(s.cache.tree, n, u, q)
    case Insert(v, q, i) => Inserts(cfg, s, v, q, i) && CutsPinned(s.cache.tree, n, u, q)
    case _ => false
  }

  /** Some call of the run does. */
  ghost predicate EverCuts(cfg: Config, s: Sys, acts: seq<Act>, n: NodeId, u: Tier)
    requires Shaped(s.cache)
    decreases |acts|
  {
    acts != [] && (Cuts(cfg, s, acts[0], n, u)
                   || (Step(cfg, s, acts[0]).Some? && (StepShaped(cfg, s, acts[0]);
                                                       EverCuts(cfg, Step(cfg, s, acts[0]).value, acts[1..], n, u))))
  }

  lemma ActPinned(cfg: Config, s: Sys, a: Act, n: NodeId, u: Tier)
    requires Shaped(s.cache) && n in s.cache.tree && Quiet(a) && Step(cfg, s, a).Some? && !Cuts(cfg, s, a, n, u)
    ensures Shaped(WithTree(s, Pinned(s.cache.tree, n, u)).cache)
    ensures var r := Step(cfg, s, a).value;
            && n in r.cache.tree
            && Step(cfg, WithTree(s, Pinned(s.cache.tree, n, u)), a) == Some(WithTree(r, Pinned(r.cache.tree, n, u)))
  {
    hide WF, Pinned, InsertPages, CutsPinned, Repinned;
    var c := s.cache;
    PinShaped(c, n, u);
    match a
    case Match(q) => WalkPinned(c.tree, c.next, q, n, u);
    case Insert(v, q, i) =>
      if i < |s.hands| && s.hands[i].tier == v && |s.hands[i].ids| == |q| { InsertPinned(c.tree, c.next, v, q, s.hands[i].ids, n, u); }
    case _ =>
  }

  lemma ActCuts(cfg: Config, s: Sys, a: Act, n: NodeId, u: Tier)
    requires Shaped(s.cache) && Quiet(a) && Step(cfg, s, a).Some? && n in s.cache.tree && Cuts(cfg, s, a, n, u)
    ensures Shaped(WithTree(s, Pinned(s.cache.tree, n, u)).cache)
    ensures var r := Step(cfg, WithTree(s, Pinned(s.cache.tree, n, u)), a);
            && r.Some? && r.value == WithTree(Step(cfg, s, a).value, r.value.cache.tree)
            && Leaked(Step(cfg, s, a).value.cache.tree, r.value.cache.tree, n, u)
  {
    hide WF, Pinned, InsertPages, CutsPinned, Leaked;
    var c := s.cache;
    PinShaped(c, n, u);
    match a
    case Match(q) => WalkCuts(c.tree, c.next, q, n, u);
    case Insert(v, q, i) => InsertCuts(c.tree, c.next, v, q, s.hands[i].ids, n, u);
    case _ =>
  }

  lemma LeakShaped(c: Cache, p: Tree, n: NodeId, u: Tier)
    requires Shaped(c) && Leaked(c.tree, p, n, u)
    ensures Shaped(c.(tree := p))
  {
    TwinWF(c.tree, p);
  }

  lemma ActLeaked(cfg: Config, s: Sys, p: Tree, a: Act, n: NodeId, u: Tier)
    requires Shaped(s.cache) && Quiet(a) && Step(cfg, s, a).Some? && Leaked(s.cache.tree, p, n, u)
    ensures Shaped(WithTree(s, p).cache)
    ensures var r := Step(cfg, WithTree(s, p), a);
            && r.Some? && r.value == WithTree(Step(cfg, s, a).value, r.value.cache.tree)
            && Leaked(Step(cfg, s, a).value.cache.tree, r.value.cache.tree, n, u)
  {
    hide WF, InsertPages, Leaked;
    var c := s.cache;
    LeakShaped(c, p, n, u);
    match a
    case Match(q) => WalkLeaked(c.tree, p, c.next, q, n, u);
    case Insert(v, q, i) =>
      if i < |s.hands| && s.hands[i].tier == v && |s.hands[i].ids| == |q| {
        InsertLeaked(c.tree, p, c.next, v, q, s.hands[i].ids, n, u);
      }
    case _ =>
  }

  /** Without a cut the pinned run is the other run with the pin carried over. */
  lemma {:induction false} SpanPinned(cfg: Config, s: Sys, acts: seq<Act>, n: NodeId, u: Tier)
    requires Shaped(s.cache) && n in s.cache.tree && (forall k :: 0 <= k < |acts| ==> Quiet(acts[k]))
    requires Run(cfg, s, acts).Some? && !EverCuts(cfg, s, acts, n, u)
    ensures Shaped(WithTree(s, Pinned(s.cache.tree, n, u)).cache)
    ensures var r := Run(cfg, s, acts).value;
            && n in r.cache.tree
            && Run(cfg, WithTree(s, Pinned(s.cache.tree, n, u)), acts) == Some(WithTree(r, Pinned(r.cache.tree, n, u)))
    decreases |acts|
  {
    hide Step, Shaped, Pinned, Cuts;
    PinShaped(s.cache, n, u);
    if acts != [] {
      StepShaped(cfg, s, acts[0]);
      ActPinned(cfg, s, acts[0], n, u);
      SpanPinned(cfg, Step(cfg, s, acts[0]).value, acts[1..], n, u);
    }
  }

  /** Once there is a leak, it stays to the end. */
  lemma {:induction false} SpanLeaked(cfg: Config, s: Sys, p: Tree, acts: seq<Act>, n: NodeId, u: Tier)
    requires Shaped(s.cache) && Leaked(s.cache.tree, p, n, u) && (forall k :: 0 <= k < |acts| ==> Quiet(acts[k]))
    requires Run(cfg, s, acts).Some?
    ensures Shaped(WithTree(s, p).cache)
    ensures var r := Run(cfg, WithTree(s, p), acts);
            r.Some? && Leaked(Run(cfg, s, acts).value.cache.tree, r.value.cache.tree, n, u)
    decreases |acts|
  {
    hide Step, Shaped, Leaked;
    LeakShaped(s.cache, p, n, u);
    if acts != [] {
      StepShaped(cfg, s, acts[0]);
      ActLeaked(cfg, s, p, acts[0], n, u);
      SpanLeaked(cfg, Step(cfg, s, acts[0]).value, Step(cfg, WithTree(s, p), acts[0]).value.cache.tree, acts[1..], n, u);
    }
  }

  lemma {:induction false} SpanCuts(cfg: Config, s: Sys, acts: seq<Act>, n: NodeId, u: Tier)
    requires Shaped(s.cache) && n in s.cache.tree && (forall k :: 0 <= k < |acts| ==> Quiet(acts[k]))
    requires Run(cfg, s, acts).Some? && EverCuts(cfg, s, acts, n, u)
    ensures Shaped(WithTree(s, Pinned(s.cache.tree, n, u)).cache)
    ensures var r := Run(cfg, WithTree(s, Pinned(s.cache.tree, n, u)), acts);
            r.Some? && Leaked(Run(cfg, s, acts).value.cache.tree, r.value.cache.tree, n, u)
    decreases |acts|
  {
    hide Step, Shaped, Pinned, Cuts, Leaked;
    var p := Pinned(s.cache.tree, n, u);
    PinShaped(s.cache, n, u);
    StepShaped(cfg, s, acts[0]);
    if Cuts(cfg, s, acts[0], n, u) {
      ActCuts(cfg, s, acts[0], n, u);
      SpanLeaked(cfg, Step(cfg, s, acts[0]).value, Step(cfg, WithTree(s, p), acts[0]).value.cache.tree, acts[1..], n, u);
    } else {
      ActPinned(cfg, s, acts[0], n, u);
      SpanCuts(cfg, Step(cfg, s, acts[0]).value, acts[1..], n, u);
    }
  }

  /** Pinning a node, making any defined matches, inserts, allocations and handle calls, and releasing the pin
      comes to the same as making those calls alone, if and only if none of their walks leaves the pinned
      node itself part-way while it holds the tier. Splits further up or down the chain do no harm. */
  lemma PinSpanIff(cfg: Config, s: Sys, acts: seq<Act>, n: NodeId, u: Tier)
    requires Shaped(s.cache) && n in s.cache.tree && (forall k :: 0 <= k < |acts| ==> Quiet(acts[k]))
    requires Run(cfg, s, acts).Some?
    ensures Run(cfg, s, [Pin(n, u)] + acts + [Unpin(n, u)]) == Run(cfg, s, acts) <==> !EverCuts(cfg, s, acts, n, u)
  {
    hide Shaped, Pinned, Unpinned, EverCuts, Leaked, Run;
    var p := WithTree(s, Pinned(s.cache.tree, n, u));
    var r := Run(cfg, s, acts).value;
    if EverCuts(cfg, s, acts, n, u) { SpanCuts(cfg, s, acts, n, u); } else { SpanPinned(cfg, s, acts, n, u); }
    RunOne(cfg, s, Pin(n, u));
    RunAppend(cfg, s, [Pin(n, u)], acts);
    RunThen(cfg, s, [Pin(n, u)] + acts, Unpin(n, u));
    var t := Run(cfg, p, acts).value.cache.tree;
    if EverCuts(cfg, s, acts, n, u) {
      LeakStays(r.cache.tree, t, n, u);
    } else {
      UnpinPin(r.cache.tree, n, u);
      PinTwin(r.cache.tree, n, u);
    }
  }
}
