/** How `acquire_server` spreads requests over the replicas of a model. */
module RegistryBalance {
  import opened Basics
  import opened Registry
  import opened RegistryRuns

  // ---- the choice --------------------------------------------------------------------------------

  /** Entry `i` carries the least load among the eligible, and is the first to do so. */
  ghost predicate IsChoice(s: Servers, model: string, now: real, n: nat, i: nat)
    requires n <= |s|
  {
    && i < n && Eligible(s[i], model, now)
    && forall j :: 0 <= j < n && Eligible(s[j], model, now) ==>
         s[i].inFlight <= s[j].inFlight && (j < i ==> s[i].inFlight < s[j].inFlight)
  }

  /** The loop finds the earliest inserted minimum, or nothing exactly when nothing is eligible. */
  lemma {:induction false} BestIsChoice(s: Servers, model: string, now: real, n: nat)
    requires n <= |s|
    ensures var b := Best(s, model, now, n);
            && (b.Some? ==> IsChoice(s, model, now, n, b.value))
            && (b.None? ==> forall j :: 0 <= j < n ==> !Eligible(s[j], model, now))
    decreases n
  {
    if n > 0 { BestIsChoice(s, model, now, n - 1); }
  }

  ghost predicate Within(s: Servers, model: string, now: real, d: nat) {
    forall x, y :: x in s && y in s && Eligible(x, model, now) && Eligible(y, model, now) ==> x.inFlight <= y.inFlight + d
  }

  /** From any loads, one more acquisition keeps the spread within the larger of 1 and what it was. */
  lemma AcquireSpread(s: Servers, model: string, now: real, d: nat)
    requires Within(s, model, now, d)
    ensures Within(Acquired(s, model, now), model, now, if d > 1 then d else 1)
  {
    var t := Swept(s, now);
    var r := Acquired(s, model, now);
    BestIsChoice(t, model, now, |t|);
    var b := Choice(t, model, now);
    forall x, y | x in r && y in r && Eligible(x, model, now) && Eligible(y, model, now)
      ensures x.inFlight <= y.inFlight + (if d > 1 then d else 1)
    {
      if b.None? {
        SweptHas(s, now, x);
        SweptHas(s, now, y);
      } else {
        var i := b.value;
        SweptHas(s, now, t[i]);
        RaisedFrom(s, t, now, i, x);
        RaisedFrom(s, t, now, i, y);
      }
    }
  }

  function Raised(x: Entry): Entry {
    x.(inFlight := x.inFlight + 1)
  }

  lemma RaisedFrom(s: Servers, t: Servers, now: real, i: nat, x: Entry)
    requires t == Swept(s, now) && i < |t| && x in t[i := Raised(t[i])]
    ensures x == Raised(t[i])
            || (x in s && exists j :: 0 <= j < |t| && t[j] == x)
  {
    PutHas(t, i, Raised(t[i]), x);
    SweptHas(s, now, x);
  }

  // ---- many acquisitions -------------------------------------------------------------------------

  /** The loads of the model's eligible replicas, in insertion order. */
  function Loads(s: Servers, model: string, now: real): seq<nat> {
    if s == [] then [] else (if Eligible(s[0], model, now) then [s[0].inFlight] else []) + Loads(s[1..], model, now)
  }

  function Sum(loads: seq<nat>): nat {
    if loads == [] then 0 else loads[0] + Sum(loads[1..])
  }

  lemma {:induction false} LoadsAppend(a: Servers, b: Servers, model: string, now: real)
    ensures Loads(a + b, model, now) == Loads(a, model, now) + Loads(b, model, now)
  {
    hide Eligible;
    var c := a + b;
    if a == [] {
      assert c == b;
    } else {
      assert c[0] == a[0] && c[1..] == a[1..] + b;
      LoadsAppend(a[1..], b, model, now);
      var first := if Eligible(a[0], model, now) then [a[0].inFlight] else [];
      Associates(first, Loads(a[1..], model, now), Loads(b, model, now));
    }
  }

  lemma {:induction false} SumAppend(a: seq<nat>, b: seq<nat>)
    ensures Sum(a + b) == Sum(a) + Sum(b)
  {
    if a == [] {
      assert a + b == b;
    } else {
      assert (a + b)[1..] == a[1..] + b;
      SumAppend(a[1..], b);
    }
  }

  /** Sweeping deletes no eligible entry. */
  lemma {:induction false} SweptLoads(s: Servers, model: string, now: real, later: real)
    requires forall x :: x in s && Eligible(x, model, now) ==> Eligible(x, model, later)
    ensures Loads(Swept(s, later), model, now) == Loads(s, model, now)
  {
    if s != [] {
      SweptLoads(s[1..], model, now, later);
      assert s[0] in s;
      if Expired(s[0], later) {
        assert Swept(s, later) == Swept(s[1..], later);
      } else {
        assert Swept(s, later)[1..] == Swept(s[1..], later);
      }
    }
  }

  /** Raising one eligible entry raises one load. */
  lemma RaisedLoads(s: Servers, i: nat, model: string, now: real)
    requires i < |s| && Eligible(s[i], model, now)
    ensures var r := s[i := Raised(s[i])];
            && |Loads(r, model, now)| == |Loads(s, model, now)|
            && Sum(Loads(r, model, now)) == Sum(Loads(s, model, now)) + 1
  {
    var y := Raised(s[i]);
    assert s == s[..i] + [s[i]] + s[i + 1..];
    assert s[i := y] == s[..i] + [y] + s[i + 1..];
    Around(s[..i], s[i], s[i + 1..], model, now);
    Around(s[..i], y, s[i + 1..], model, now);
  }

  lemma Around(a: Servers, x: Entry, b: Servers, model: string, now: real)
    requires Eligible(x, model, now)
    ensures |Loads(a + [x] + b, model, now)| == |Loads(a, model, now)| + 1 + |Loads(b, model, now)|
    ensures Sum(Loads(a + [x] + b, model, now)) == Sum(Loads(a, model, now)) + x.inFlight + Sum(Loads(b, model, now))
  {
    LoadsAppend(a + [x], b, model, now);
    LoadsAppend(a, [x], model, now);
    assert Loads([x], model, now) == [x.inFlight];
    SumAppend(Loads(a, model, now) + [x.inFlight], Loads(b, model, now));
    SumAppend(Loads(a, model, now), [x.inFlight]);
  }

  /** Acquisitions of one model at the given times. */
  function Acquires(s: Servers, model: string, nows: seq<real>): Servers
    decreases |nows|
  {
    if nows == [] then s else Acquires(Acquired(s, model, nows[0]), model, nows[1..])
  }

  /** The replicas stay as they are: whoever is eligible at `now` is eligible at every one of the times, and conversely. */
  ghost predicate Fixed(s: Servers, model: string, now: real, nows: seq<real>) {
    forall x, k :: x in s && 0 <= k < |nows| ==> (Eligible(x, model, nows[k]) <==> Eligible(x, model, now))
  }

  lemma {:induction false} LoadsEmpty(s: Servers, model: string, now: real)
    ensures Loads(s, model, now) == [] <==> forall x :: x in s ==> !Eligible(x, model, now)
  {
    if s != [] {
      LoadsEmpty(s[1..], model, now);
      assert s == [s[0]] + s[1..];
    }
  }

  lemma AcquireStep(s: Servers, model: string, now: real, at: real)
    requires forall x :: x in s ==> (Eligible(x, model, at) <==> Eligible(x, model, now))
    requires Within(s, model, now, 1) && Loads(s, model, now) != []
    ensures var r := Acquired(s, model, at);
            && Within(r, model, now, 1)
            && |Loads(r, model, now)| == |Loads(s, model, now)| && Sum(Loads(r, model, now)) == Sum(Loads(s, model, now)) + 1
            && forall y :: y in r ==> y in s || exists x :: x in s && y == Raised(x)
  {
    hide Loads, Sum, Swept, Eligible, Within;
    var t := Swept(s, at);
    var r := Acquired(s, model, at);
    BestIsChoice(t, model, at, |t|);
    SweptLoads(s, model, now, at);
    LoadsEmpty(t, model, now);
    forall x | x in t ensures x in s { SweptHas(s, at, x); }
    var i := Choice(t, model, at).value;
    RaisedLoads(t, i, model, now);
    forall y | y in r ensures y in s || exists x :: x in s && y == Raised(x) {
      RaisedFrom(s, t, at, i, y);
      assert t[i] in s;
    }
    RaisedWithin(s, t, model, now, at, i);
  }

  lemma RaisedWithin(s: Servers, t: Servers, model: string, now: real, at: real, i: nat)
    requires t == Swept(s, at) && IsChoice(t, model, at, |t|, i) && Within(s, model, now, 1)
    requires forall x :: x in s ==> (Eligible(x, model, at) <==> Eligible(x, model, now))
    ensures Within(t[i := Raised(t[i])], model, now, 1)
  {
    var r := t[i := Raised(t[i])];
    SweptHas(s, at, t[i]);
    forall x, y | x in r && y in r && Eligible(x, model, now) && Eligible(y, model, now)
      ensures x.inFlight <= y.inFlight + 1
    {
      RaisedFrom(s, t, at, i, x);
      RaisedFrom(s, t, at, i, y);
    }
  }

  lemma {:induction false} AcquiresBalance(s: Servers, model: string, now: real, nows: seq<real>)
    requires Fixed(s, model, now, nows) && Within(s, model, now, 1) && Loads(s, model, now) != []
    ensures var r := Acquires(s, model, nows);
            && Within(r, model, now, 1)
            && |Loads(r, model, now)| == |Loads(s, model, now)|
            && Sum(Loads(r, model, now)) == Sum(Loads(s, model, now)) + |nows|
    decreases |nows|
  {
    hide Loads, Sum, Within, Acquired;
    if nows != [] {
      AcquireStep(s, model, now, nows[0]);
      var r := Acquired(s, model, nows[0]);
      forall x, k | x in r && 0 <= k < |nows[1..]| ensures Eligible(x, model, nows[1..][k]) <==> Eligible(x, model, now) {
        var y :| y in s && (y == x || x == Raised(y));
        assert Eligible(y, model, nows[k + 1]) <==> Eligible(y, model, now);
      }
      AcquiresBalance(r, model, now, nows[1..]);
    }
  }

  lemma {:induction false} LoadsHas(s: Servers, model: string, now: real, load: nat)
    ensures load in Loads(s, model, now) <==> exists x :: x in s && Eligible(x, model, now) && x.inFlight == load
  {
    if s != [] {
      LoadsHas(s[1..], model, now, load);
      assert s == [s[0]] + s[1..];
    }
  }

  lemma {:induction false} SumBounds(loads: seq<nat>, lo: int, hi: int)
    requires forall x :: x in loads ==> lo <= x <= hi
    ensures |loads| * lo <= Sum(loads) <= |loads| * hi
  {
    if loads != [] {
      assert loads[0] in loads;
      forall x | x in loads[1..] ensures lo <= x <= hi { assert x in loads; }
      SumBounds(loads[1..], lo, hi);
      MulStep(|loads|, lo);
      MulStep(|loads|, hi);
    }
  }

  lemma {:induction false} SumAround(loads: seq<nat>, i: nat)
    requires i < |loads|
    ensures Sum(loads) == loads[i] + Sum(loads[..i] + loads[i + 1..])
  {
    var rest := loads[..i] + loads[i + 1..];
    if i == 0 {
      assert rest == loads[1..];
    } else {
      SumAround(loads[1..], i - 1);
      assert rest[0] == loads[0] && rest[1..] == loads[1..][..i - 1] + loads[1..][i..];
    }
  }

  /** If loads differ by at most one, each is within one of the mean. */
  lemma NearMean(loads: seq<nat>, x: nat)
    requires x in loads && forall a, b :: a in loads && b in loads ==> a <= b + 1
    ensures |loads| * (x - 1) < Sum(loads) < |loads| * (x + 1)
  {
    hide Sum;
    var i :| 0 <= i < |loads| && loads[i] == x;
    var rest := loads[..i] + loads[i + 1..];
    SumAround(loads, i);
    forall y | y in rest ensures x - 1 <= y <= x + 1 { assert y in loads; }
    SumBounds(rest, x - 1, x + 1);
    MulStep(|rest| + 1, x - 1);
    MulStep(|rest| + 1, x + 1);
    assert |loads| == |rest| + 1;
  }

  lemma FloorOrCeil(n: nat, k: nat, x: int)
    requires n > 0 && n * (x - 1) < k < n * (x + 1)
    ensures x == k / n || x == (k + n - 1) / n
  {
    var q := k / n;
    assert n * q <= k < n * (q + 1);
    if x - 1 >= q + 1 { MulLe(q + 1, x - 1, n); }
    if q >= x + 1 { MulLe(x + 1, q, n); }
    if x == q + 1 {
      assert n * (q + 1) == n * q + n && n * (q + 2) == n * (q + 1) + n;
      DivIs(k + n - 1, n, q + 1);
    }
  }

  /** From idle, `k` acquisitions over `n` fixed eligible replicas leave each with the rounded-down or the
      rounded-up share of k/n. */
  lemma FairShares(s: Servers, model: string, now: real, nows: seq<real>, x: Entry)
    requires Fixed(s, model, now, nows) && Loads(s, model, now) != []
    requires forall y :: y in s && Eligible(y, model, now) ==> y.inFlight == 0
    requires x in Acquires(s, model, nows) && Eligible(x, model, now)
    ensures var n, k := |Loads(s, model, now)|, |nows|;
            x.inFlight == k / n || x.inFlight == (k + n - 1) / n
  {
    hide Sum, Acquires, Fixed, Loads;
    AcquiresBalance(s, model, now, nows);
    var r := Acquires(s, model, nows);
    var loads := Loads(r, model, now);
    LoadsHas(r, model, now, x.inFlight);
    forall a, b | a in loads && b in loads ensures a <= b + 1 {
      LoadsHas(r, model, now, a);
      LoadsHas(r, model, now, b);
    }
    NearMean(loads, x.inFlight);
    forall y | y in Loads(s, model, now) ensures 0 <= y <= 0 { LoadsHas(s, model, now, y); }
    SumBounds(Loads(s, model, now), 0, 0);
    FloorOrCeil(|loads|, |nows|, x.inFlight);
  }
}
