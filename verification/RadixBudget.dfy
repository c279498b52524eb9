/** The pending budget between threads: the check, the handle and the table entry of a start are separate
    steps, and completions come in between. A start whose allocation fails is abandoned after its check. */
module RadixBudget {
  import opened RadixTree
  import opened RadixUnits
  import opened RadixCache
  import opened RadixInflight

  /** Where a starting thread is. */
  datatype Phase = Idle | Checked(op: PendingOp) | Numbered(op: PendingOp, h: Handle)

  datatype State = State(table: map<Handle, PendingOp>, pending: PerTier<int>, nextHandle: Handle, threads: map<nat, Phase>)

  datatype Event =
    | Check(i: nat, op: PendingOp)
    | Abandon(i: nat)
    | Number(i: nat)
    | Enter(i: nat)
    | Finish(h: Handle)

  const INITIAL := State(map[], PerTier(0, 0, 0, 0), 1, map[])

  function PhaseOf(s: State, i: nat): Phase {
    if i in s.threads then s.threads[i] else Idle
  }

  predicate Fits(cap: PerTier<int>, s: State, op: PendingOp) {
    cap.At(op.dst) <= 0 || s.pending.At(op.dst) + op.count <= cap.At(op.dst)
  }

  /** One atomic step; a step that does not apply, or a check that fails, changes nothing. */
  function Next(cap: PerTier<int>, s: State, e: Event): State {
    match e
    case Check(i, op) =>
      if PhaseOf(s, i).Idle? && Fits(cap, s, op) then s.(threads := s.threads[i := Checked(op)]) else s
    case Abandon(i) =>
      if PhaseOf(s, i).Checked? then s.(threads := s.threads[i := Idle]) else s
    case Number(i) =>
      if PhaseOf(s, i).Checked?
      then s.(threads := s.threads[i := Numbered(PhaseOf(s, i).op, s.nextHandle)], nextHandle := s.nextHandle + 1)
      else s
    case Enter(i) =>
      if PhaseOf(s, i).Numbered? then
        var p := PhaseOf(s, i);
        s.(table := s.table[p.h := p.op], pending := s.pending.With(p.op.dst, s.pending.At(p.op.dst) + p.op.count),
           threads := s.threads[i := Idle])
      else s
    case Finish(h) =>
      if h in s.table then
        var p := s.table[h];
        s.(table := s.table - {h}, pending := s.pending.With(p.dst, s.pending.At(p.dst) - p.count))
      else s
  }

  function Run(cap: PerTier<int>, s: State, es: seq<Event>): State
    decreases |es|
  {
    if es == [] then s else Run(cap, Next(cap, s, es[0]), es[1..])
  }

  // ---- the counters are exact whoever starts -----------------------------------------------------

  ghost predicate Summed(s: State) {
    forall u: Tier :: s.pending.At(u) == PendingSum(s.table, s.table.Keys, u)
  }

  /** Handles handed out are distinct, so entering never overwrites an entry. */
  ghost predicate HandlesApart(s: State) {
    && (forall h :: h in s.table ==> h < s.nextHandle)
    && (forall i :: PhaseOf(s, i).Numbered? ==> PhaseOf(s, i).h < s.nextHandle && PhaseOf(s, i).h !in s.table)
    && (forall i, j :: i != j && PhaseOf(s, i).Numbered? && PhaseOf(s, j).Numbered? ==> PhaseOf(s, i).h != PhaseOf(s, j).h)
  }

  lemma EnterSummed(s: State, h: Handle, op: PendingOp)
    requires Summed(s) && h !in s.table
    ensures var t := s.table[h := op]; var n := s.pending.With(op.dst, s.pending.At(op.dst) + op.count);
            forall u: Tier :: n.At(u) == PendingSum(t, t.Keys, u)
  {
    var t := s.table[h := op];
    forall u: Tier
      ensures s.pending.With(op.dst, s.pending.At(op.dst) + op.count).At(u) == PendingSum(t, t.Keys, u)
    {
      PendingSumAt(t, t.Keys, u, h);
      assert t.Keys - {h} == s.table.Keys;
      PendingSumSame(t, s.table, s.table.Keys, u);
    }
  }

  lemma FinishSummed(s: State, h: Handle)
    requires Summed(s) && h in s.table
    ensures var p := s.table[h]; var t := s.table - {h}; var n := s.pending.With(p.dst, s.pending.At(p.dst) - p.count);
            forall u: Tier :: n.At(u) == PendingSum(t, t.Keys, u)
  {
    var p, t := s.table[h], s.table - {h};
    forall u: Tier ensures s.pending.With(p.dst, s.pending.At(p.dst) - p.count).At(u) == PendingSum(t, t.Keys, u) {
      PendingSumAt(s.table, s.table.Keys, u, h);
      assert t.Keys == s.table.Keys - {h};
      PendingSumSame(s.table, t, t.Keys, u);
    }
  }

  lemma NextSummed(cap: PerTier<int>, s: State, e: Event)
    requires Summed(s) && HandlesApart(s)
    ensures Summed(Next(cap, s, e)) && HandlesApart(Next(cap, s, e))
  {
    var r := Next(cap, s, e);
    if e.Enter? && PhaseOf(s, e.i).Numbered? { EnterSummed(s, PhaseOf(s, e.i).h, PhaseOf(s, e.i).op); }
    if e.Finish? && e.h in s.table { FinishSummed(s, e.h); }
    forall i ensures PhaseOf(r, i) == (if !e.Finish? && i == e.i then PhaseOf(r, e.i) else PhaseOf(s, i)) {}
  }

  lemma {:induction false} RunSummed(cap: PerTier<int>, s: State, es: seq<Event>)
    requires Summed(s) && HandlesApart(s)
    ensures Summed(Run(cap, s, es)) && HandlesApart(Run(cap, s, es))
    decreases |es|
  {
    if es != [] {
      NextSummed(cap, s, es[0]);
      RunSummed(cap, Next(cap, s, es[0]), es[1..]);
    }
  }

  // ---- when the cap can be exceeded --------------------------------------------------------------

  /** What thread `i` has been cleared for and not entered yet. */
  function Owed(s: State, i: nat, u: Tier): nat {
    if PhaseOf(s, i).Idle? || PhaseOf(s, i).op.dst != u then 0 else PhaseOf(s, i).op.count
  }

  ghost function OwedSum(s: State, ts: set<nat>, u: Tier): nat {
    if ts == {} then 0 else Owed(s, Any(ts), u) + OwedSum(s, ts - {Any(ts)}, u)
  }

  /** What all threads together have been cleared for on tier `u`. */
  ghost function TotalOwed(s: State, u: Tier): nat {
    OwedSum(s, s.threads.Keys, u)
  }

  lemma {:induction false} OwedAt(s: State, ts: set<nat>, u: Tier, i: nat)
    requires i in ts
    ensures OwedSum(s, ts, u) == Owed(s, i, u) + OwedSum(s, ts - {i}, u)
    decreases |ts|
  {
    var m := Any(ts);
    if m != i {
      OwedAt(s, ts - {m}, u, i);
      OwedAt(s, ts - {i}, u, m);
      assert ts - {m} - {i} == ts - {i} - {m};
    }
  }

  lemma {:induction false} OwedSame(s: State, r: State, ts: set<nat>, u: Tier)
    requires forall i :: i in ts ==> Owed(s, i, u) == Owed(r, i, u)
    ensures OwedSum(s, ts, u) == OwedSum(r, ts, u)
    decreases |ts|
  {
    if ts != {} { OwedSame(s, r, ts - {Any(ts)}, u); }
  }

  lemma {:induction false} OwedNone(s: State, ts: set<nat>, u: Tier)
    requires forall i :: i in ts ==> Owed(s, i, u) == 0
    ensures OwedSum(s, ts, u) == 0
    decreases |ts|
  {
    if ts != {} { OwedNone(s, ts - {Any(ts)}, u); }
  }

  /** A change of one thread's phase changes the total by that thread's difference. */
  lemma OwedPut(s: State, r: State, i: nat, u: Tier)
    requires r.threads.Keys == s.threads.Keys + {i} && forall j :: j != i ==> PhaseOf(r, j) == PhaseOf(s, j)
    ensures TotalOwed(r, u) + Owed(s, i, u) == TotalOwed(s, u) + Owed(r, i, u)
  {
    var rest := s.threads.Keys - {i};
    OwedAt(r, r.threads.Keys, u, i);
    assert r.threads.Keys - {i} == rest;
    OwedSame(s, r, rest, u);
    if i in s.threads.Keys {
      OwedAt(s, s.threads.Keys, u, i);
    } else {
      assert rest == s.threads.Keys;
    }
  }

  predicate NoChecks(es: seq<Event>) {
    forall k :: 0 <= k < |es| ==> !es[k].Check?
  }

  /** Without further checks, what is pending and what is owed together never grow. */
  lemma NextOwed(cap: PerTier<int>, s: State, e: Event, u: Tier)
    requires !e.Check?
    ensures var r := Next(cap, s, e); r.pending.At(u) + TotalOwed(r, u) <= s.pending.At(u) + TotalOwed(s, u)
  {
    var r := Next(cap, s, e);
    if e.Finish? {
      OwedSame(s, r, s.threads.Keys, u);
    } else if !PhaseOf(s, e.i).Idle? {
      OwedPut(s, r, e.i, u);
    }
  }

  lemma {:induction false} RunOwed(cap: PerTier<int>, s: State, es: seq<Event>, u: Tier)
    requires NoChecks(es)
    ensures Run(cap, s, es).pending.At(u) <= s.pending.At(u) + TotalOwed(s, u)
    decreases |es|
  {
    if es != [] {
      NextOwed(cap, s, es[0], u);
      RunOwed(cap, Next(cap, s, es[0]), es[1..], u);
    }
  }

  /** Thread `i` goes through with what it was cleared for. */
  lemma GoesThrough(cap: PerTier<int>, s: State, i: nat, u: Tier)
    requires i in s.threads
    ensures var r := Next(cap, Next(cap, s, Number(i)), Enter(i));
            && r.pending.At(u) == s.pending.At(u) + Owed(s, i, u)
            && r.threads.Keys == s.threads.Keys && forall j :: j != i ==> PhaseOf(r, j) == PhaseOf(s, j)
  {}

  /** When every thread of `ts` goes through, the counter grows by all they were cleared for. */
  lemma {:induction false} EnterAll(cap: PerTier<int>, s: State, ts: set<nat>, u: Tier) returns (es: seq<Event>)
    requires ts <= s.threads.Keys
    ensures NoChecks(es) && Run(cap, s, es).pending.At(u) == s.pending.At(u) + OwedSum(s, ts, u)
    decreases |ts|
  {
    es := [];
    if ts != {} {
      var i := Any(ts);
      var n := Next(cap, s, Number(i));
      var r := Next(cap, n, Enter(i));
      GoesThrough(cap, s, i, u);
      OwedSame(s, r, ts - {i}, u);
      var rest := EnterAll(cap, r, ts - {i}, u);
      es := [Number(i)] + ([Enter(i)] + rest);
      assert es[1..] == [Enter(i)] + rest && ([Enter(i)] + rest)[1..] == rest;
      assert Run(cap, n, [Enter(i)] + rest) == Run(cap, r, rest);
    }
  }

  /** Exactly when a tier's counter can exceed its cap without a further check: when what is pending and what
      the threads past their check were cleared for exceed it together. */
  lemma CanExceedIff(cap: PerTier<int>, s: State, u: Tier)
    ensures (exists es :: NoChecks(es) && Run(cap, s, es).pending.At(u) > cap.At(u))
       <==> s.pending.At(u) + TotalOwed(s, u) > cap.At(u)
  {
    if es :| NoChecks(es) && Run(cap, s, es).pending.At(u) > cap.At(u) { RunOwed(cap, s, es, u); }
    var all := EnterAll(cap, s, s.threads.Keys, u);
  }

  lemma {:induction false} RunAppend(cap: PerTier<int>, s: State, a: seq<Event>, b: seq<Event>)
    ensures Run(cap, s, a + b) == Run(cap, Run(cap, s, a), b)
    decreases |a|
  {
    if a == [] {
      assert a + b == b;
    } else {
      assert (a + b)[1..] == a[1..] + b;
      RunAppend(cap, Next(cap, s, a[0]), a[1..], b);
    }
  }

  /** Any two operations on one tier that fit alone and not together: when two threads check before either
      enters, both checks pass and some continuation exceeds the cap. */
  lemma TwoStartersExceed(cap: PerTier<int>, first: PendingOp, second: PendingOp, i: nat, j: nat)
    requires i != j && first.dst == second.dst
    requires var c := cap.At(first.dst); 0 < c && first.count <= c && second.count <= c && first.count + second.count > c
    ensures exists es :: Run(cap, INITIAL, [Check(i, first), Check(j, second)] + es).pending.At(first.dst) > cap.At(first.dst)
  {
    var u := first.dst;
    var checks := [Check(i, first), Check(j, second)];
    var s1 := Next(cap, INITIAL, checks[0]);
    var s2 := Next(cap, s1, checks[1]);
    assert checks[1..][1..] == [] && checks[1..][0] == checks[1];
    assert Run(cap, s2, []) == s2;
    assert Run(cap, s1, checks[1..]) == s2;
    assert Run(cap, INITIAL, checks) == s2;
    OwedPut(INITIAL, s1, i, u);
    OwedPut(s1, s2, j, u);
    CanExceedIff(cap, s2, u);
    var es :| NoChecks(es) && Run(cap, s2, es).pending.At(u) > cap.At(u);
    RunAppend(cap, INITIAL, checks, es);
  }

  // ---- the steps of one thread, undisturbed ------------------------------------------------------

  /** The same table, counters and next handle, and every thread where it was. */
  ghost predicate Same(s: State, r: State) {
    r.table == s.table && r.pending == s.pending && r.nextHandle == s.nextHandle && forall j :: PhaseOf(r, j) == PhaseOf(s, j)
  }

  /** Check, handle and entry in sequence are the one step of RadixDemote.StartOkIff: with budget for the operation it
      is in the table under the next handle and its units are pending; without, nothing happens. */
  lemma StartAlone(cap: PerTier<int>, s: State, i: nat, op: PendingOp)
    requires PhaseOf(s, i).Idle?
    ensures var r := Next(cap, Next(cap, Next(cap, s, Check(i, op)), Number(i)), Enter(i));
            var u := op.dst;
            if cap.At(u) <= 0 || s.pending.At(u) + op.count <= cap.At(u) then
              Same(s.(table := s.table[s.nextHandle := op], pending := s.pending.With(u, s.pending.At(u) + op.count),
                      nextHandle := s.nextHandle + 1), r)
            else r == s
  {}

  /** A start given up after its check leaves nothing behind, and neither does one that went in and finished, but for
      the handle. */
  lemma UndoneAlone(cap: PerTier<int>, s: State, i: nat, op: PendingOp)
    requires PhaseOf(s, i).Idle? && s.nextHandle !in s.table
    ensures Same(s, Next(cap, Next(cap, s, Check(i, op)), Abandon(i)))
    ensures Fits(cap, s, op) ==>
              var r := Next(cap, Next(cap, Next(cap, s, Check(i, op)), Number(i)), Enter(i));
              Same(s.(nextHandle := s.nextHandle + 1), Next(cap, r, Finish(s.nextHandle)))
  {
    StartAlone(cap, s, i, op);
    assert s.table[s.nextHandle := op] - {s.nextHandle} == s.table;
    BackAgain(s.pending, op.dst, op.count);
  }

  lemma BackAgain(p: PerTier<int>, u: Tier, k: nat)
    ensures p.With(u, p.At(u) + k).With(u, p.With(u, p.At(u) + k).At(u) - k) == p
  {
    match u case Device => case Host => case Disk => case Remote =>
  }

  // ---- one thread past its check per tier is enough ----------------------------------------------

  /** No two threads past their check aim at the same tier. */
  ghost predicate Solo(s: State) {
    forall i, j :: i != j && !PhaseOf(s, i).Idle? && !PhaseOf(s, j).Idle? ==> PhaseOf(s, i).op.dst != PhaseOf(s, j).op.dst
  }

  ghost predicate SoloRun(cap: PerTier<int>, s: State, es: seq<Event>)
    decreases |es|
  {
    Solo(s) && (es != [] ==> SoloRun(cap, Next(cap, s, es[0]), es[1..]))
  }

  /** No continuation without a check exceeds a positive cap. */
  ghost predicate Covered(cap: PerTier<int>, s: State) {
    forall u: Tier :: cap.At(u) > 0 ==> s.pending.At(u) + TotalOwed(s, u) <= cap.At(u)
  }

  lemma SoloOwed(s: State, i: nat, u: Tier)
    requires Solo(s) && !PhaseOf(s, i).Idle? && PhaseOf(s, i).op.dst == u
    ensures TotalOwed(s, u) == Owed(s, i, u)
  {
    OwedAt(s, s.threads.Keys, u, i);
    OwedNone(s, s.threads.Keys - {i}, u);
  }

  lemma NextCovered(cap: PerTier<int>, s: State, e: Event)
    requires Covered(cap, s) && Solo(Next(cap, s, e))
    ensures Covered(cap, Next(cap, s, e))
  {
    var r := Next(cap, s, e);
    forall u: Tier | cap.At(u) > 0 ensures r.pending.At(u) + TotalOwed(r, u) <= cap.At(u) {
      if !e.Check? {
        NextOwed(cap, s, e, u);
      } else if r != s {
        OwedPut(s, r, e.i, u);
        if e.op.dst == u { SoloOwed(r, e.i, u); }
      }
    }
  }

  /** As long as no two threads past their check aim at the same tier, every counter is the sum of the table and
      within its positive cap, though check and increment are apart. */
  lemma {:induction false} SoloBounded(cap: PerTier<int>, s: State, es: seq<Event>, u: Tier)
    requires Summed(s) && HandlesApart(s) && Covered(cap, s) && SoloRun(cap, s, es)
    ensures var r := Run(cap, s, es);
            && r.pending.At(u) == PendingSum(r.table, r.table.Keys, u)
            && (cap.At(u) > 0 ==> r.pending.At(u) <= cap.At(u))
    decreases |es|
  {
    if es != [] {
      NextSummed(cap, s, es[0]);
      NextCovered(cap, s, es[0]);
      SoloBounded(cap, Next(cap, s, es[0]), es[1..], u);
    }
  }

  predicate StartsOnly(es: seq<Event>, i: nat) {
    forall k :: 0 <= k < |es| ==> es[k].Finish? || es[k].i == i
  }

  ghost predicate OthersIdle(s: State, i: nat) {
    forall j :: j != i ==> PhaseOf(s, j).Idle?
  }

  /** With one starting thread and any number of completing ones that is so in every state of every run. */
  lemma {:induction false} OneStarterSolo(cap: PerTier<int>, s: State, es: seq<Event>, i: nat)
    requires OthersIdle(s, i) && StartsOnly(es, i)
    ensures SoloRun(cap, s, es)
    decreases |es|
  {
    if es != [] {
      var r := Next(cap, s, es[0]);
      forall j | j != i ensures PhaseOf(r, j).Idle? { assert PhaseOf(s, j).Idle?; }
      OneStarterSolo(cap, r, es[1..], i);
    }
  }

  /** The initial state is exact, within any caps, and no thread is starting. */
  lemma InitialCovered(cap: PerTier<int>, i: nat)
    ensures Summed(INITIAL) && HandlesApart(INITIAL) && Covered(cap, INITIAL) && OthersIdle(INITIAL, i)
  {}

  /** So with one starting thread no counter ever exceeds its positive cap. */
  lemma OneStarterBounded(cap: PerTier<int>, es: seq<Event>, i: nat, u: Tier)
    requires StartsOnly(es, i)
    ensures var r := Run(cap, INITIAL, es);
            && r.pending.At(u) == PendingSum(r.table, r.table.Keys, u)
            && (cap.At(u) > 0 ==> r.pending.At(u) <= cap.At(u))
  {
    InitialCovered(cap, i);
    OneStarterSolo(cap, INITIAL, es, i);
    SoloBounded(cap, INITIAL, es, u);
  }
}
