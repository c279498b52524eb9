/** What each registry call makes of every entry, exactly, and what a server that keeps beating can rely on. */
module RegistryLaws {
  import opened Basics
  import opened Registry
  import opened RegistryRuns

  // ---- sweeping ----------------------------------------------------------------------------------

  /** At `now` nothing keeps the entry: it was removed, or is unmanaged and has not beaten for more than 15 seconds,
      and no request is in flight on it. */
  predicate Idle(x: Entry, now: real) {
    (x.removed || (!x.managed && now - x.lastHeartbeat > 15.0)) && x.inFlight == 0
  }

  /** A sweep deletes exactly the idle entries. */
  lemma {:induction false} SweptIff(s: Servers, now: real)
    ensures forall x :: x in Swept(s, now) <==> x in s && !Idle(x, now)
  {
    if s != [] {
      SweptIff(s[1..], now);
      assert s == [s[0]] + s[1..];
    }
  }

  lemma {:induction false} SweptJoin(a: Servers, b: Servers, now: real)
    ensures Swept(a + b, now) == Swept(a, now) + Swept(b, now)
  {
    if a == [] {
      assert a + b == b;
    } else {
      assert (a + b)[1..] == a[1..] + b;
      SweptJoin(a[1..], b, now);
    }
  }

  /** It keeps the others in order. */
  lemma SweptInOrder(s: Servers, now: real, i: nat, j: nat)
    requires i < j < |s| && !Idle(s[i], now) && !Idle(s[j], now)
    ensures exists a, b :: 0 <= a < b < |Swept(s, now)| && Swept(s, now)[a] == s[i] && Swept(s, now)[b] == s[j]
  {
    var left, right := s[..j], s[j..];
    assert s == left + right && left[i] == s[i] && right[0] == s[j];
    SweptJoin(left, right, now);
    SweptIff(left, now);
    SweptIff(right, now);
    assert s[i] in Swept(left, now) && s[j] in Swept(right, now);
    var a :| 0 <= a < |Swept(left, now)| && Swept(left, now)[a] == s[i];
    var b :| 0 <= b < |Swept(right, now)| && Swept(right, now)[b] == s[j];
    assert Swept(s, now)[a] == s[i] && Swept(s, now)[|Swept(left, now)| + b] == s[j];
  }

  // ---- one entry is replaced ---------------------------------------------------------------------

  /** The first entry with an id is the only one. */
  lemma FindIdIs(s: Servers, id: ServerId, x: Entry)
    requires SameId(s) && x in s && x.id == id
    ensures FindId(s, id, 0).Some? && s[FindId(s, id, 0).value] == x
  {}

  lemma PutIff(s: Servers, i: nat, y: Entry)
    requires SameId(s) && i < |s| && y.id == s[i].id
    ensures SameId(s[i := y])
    ensures forall z :: z in s[i := y] <==> z == y || (z in s && z.id != y.id)
  {
    var r := s[i := y];
    forall z ensures z in r <==> z == y || (z in s && z.id != y.id) {
      if z in r { PutHas(s, i, y, z); }
      if z == y { assert r[i] == y; }
      if z in s && z.id != y.id {
        var j :| 0 <= j < |s| && s[j] == z;
        assert r[j] == z;
      }
      if z in r && z != y {
        var j :| 0 <= j < |r| && r[j] == z;
        assert s[j] == z;
      }
    }
  }

  lemma SweptSame(s: Servers, now: real)
    requires AllApart(s)
    ensures AllApart(Swept(s, now)) && SameId(Swept(s, now)) && SameId(s)
  {
    SweptApart(s, now);
    ApartSame(s);
    ApartSame(Swept(s, now));
  }

  lemma ApartSame(s: Servers)
    requires AllApart(s)
    ensures SameId(s)
  {
    forall i, j | 0 <= i < |s| && 0 <= j < |s| && i != j ensures s[i].id != s[j].id {
      if i < j { assert Apart(s[i], s[j]); } else { assert Apart(s[j], s[i]); }
    }
  }

  // ---- heartbeats --------------------------------------------------------------------------------

  /** Whose heartbeat is accepted. */
  predicate MayBeat(x: Entry, now: real) {
    !x.removed && (x.managed || now - x.lastHeartbeat <= 15.0)
  }

  /** A heartbeat is accepted exactly from a known entry that was not removed and, unless managed, has not lapsed;
      that entry then has the new heartbeat, and every other is swept as ever. */
  lemma HeartbeatLaw(s: Servers, id: ServerId, now: real)
    requires AllApart(s)
    ensures Beats(Swept(s, now), id, now) <==> exists x :: x in s && x.id == id && MayBeat(x, now)
    ensures forall y :: y in HeartBeaten(s, id, now) <==>
              || (y in s && !Idle(y, now) && !(y.id == id && MayBeat(y, now)))
              || (exists x :: x in s && x.id == id && MayBeat(x, now) && y == x.(lastHeartbeat := now))
  {
    SweptIff(s, now);
    SweptSame(s, now);
    var t := Swept(s, now);
    if x :| x in s && x.id == id && MayBeat(x, now) {
      assert x in t;
      FindIdIs(t, id, x);
      PutIff(t, FindId(t, id, 0).value, x.(lastHeartbeat := now));
      forall z | z in s && z.id == id ensures z == x { Unique(s, x, z); }
    } else {
      var i := FindId(t, id, 0);
      if i.Some? { assert t[i.value] in t; }
    }
  }

  lemma Unique(s: Servers, x: Entry, z: Entry)
    requires SameId(s) && x in s && z in s && x.id == z.id
    ensures x == z
  {}

  /** After an accepted heartbeat the entry is there; if unmanaged it can be chosen, and no sweep deletes it, at any
      time within the timeout of the heartbeat. */
  lemma HeartbeatRenews(s: Servers, id: ServerId, now: real, later: real)
    requires AllApart(s) && Beats(Swept(s, now), id, now)
    ensures exists y :: y in HeartBeaten(s, id, now) && y.id == id && !y.removed && y.lastHeartbeat == now
              && (later - now <= 15.0 || y.managed ==> y in Swept(HeartBeaten(s, id, now), later))
              && (!y.managed && later - now <= 15.0 ==> Selectable(y, later))
  {
    HeartbeatLaw(s, id, now);
    var x :| x in s && x.id == id && MayBeat(x, now);
    var y := x.(lastHeartbeat := now);
    assert y in HeartBeaten(s, id, now);
    SweptIff(HeartBeaten(s, id, now), later);
  }

  // ---- removal -----------------------------------------------------------------------------------

  /** Removing an entry marks it and sweeps; otherwise nothing changes. */
  lemma RemoveLaw(s: Servers, id: ServerId, now: real)
    requires AllApart(s)
    ensures if exists x :: x in s && x.id == id && !x.removed
            then forall y :: y in Removed(s, id, now) <==>
                   !Idle(y, now) && ((y in s && y.id != id) || exists x :: x in s && x.id == id && y == x.(removed := true))
            else Removed(s, id, now) == s
  {
    ApartSame(s);
    if x :| x in s && x.id == id && !x.removed {
      FindIdIs(s, id, x);
      var y := x.(removed := true);
      var i := FindId(s, id, 0).value;
      PutIff(s, i, y);
      SweptIff(s[i := y], now);
      forall z | z in s && z.id == id ensures z == x { Unique(s, x, z); }
    } else {
      var i := FindId(s, id, 0);
      if i.Some? { assert s[i.value] in s; }
    }
  }

  /** After it no entry with that id can be chosen, at any time: it is gone, or marked until its requests end. */
  lemma RemovedNotSelectable(s: Servers, id: ServerId, now: real, later: real)
    requires AllApart(s)
    ensures forall y :: y in Removed(s, id, now) && y.id == id ==> y.removed && !Selectable(y, later)
  {
    RemoveLaw(s, id, now);
  }

  // ---- health ------------------------------------------------------------------------------------

  /** A check changes exactly the managed entry it is about. */
  lemma RecordLaw(s: Servers, id: ServerId, ok: bool, threshold: int)
    requires AllApart(s)
    ensures forall y :: y in Recorded(s, id, ok, threshold) <==>
              || (y in s && !(y.id == id && y.managed && !y.removed))
              || (exists x :: x in s && x.id == id && x.managed && !x.removed
                    && y == x.(failures := if ok then 0 else x.failures + 1,
                               healthy := ok || (x.healthy && x.failures + 1 < threshold)))
  {
    ApartSame(s);
    var i := FindId(s, id, 0);
    if i.Some? {
      var x := s[i.value];
      assert x in s;
      forall z | z in s && z.id == id ensures z == x { Unique(s, x, z); }
      if x.managed && !x.removed { PutIff(s, i.value, Checked(x, ok, threshold)); }
    }
  }

  // ---- acquiring and releasing -------------------------------------------------------------------

  /** Who may be chosen. */
  predicate MayServe(x: Entry, model: string, now: real) {
    x.model == model && !x.removed && (if x.managed then x.healthy else now - x.lastHeartbeat <= 15.0)
  }

  /** A server is chosen exactly when one may be; it is the earliest of the least loaded, and it
      alone changes: one request more. */
  lemma AcquireLaw(s: Servers, model: string, now: real)
    requires AllApart(s)
    ensures var i := Choice(Swept(s, now), model, now);
            && (i.Some? <==> exists x :: x in s && MayServe(x, model, now))
            && if i.None? then forall y :: y in Acquired(s, model, now) <==> y in s && !Idle(y, now)
               else
                 var x := Swept(s, now)[i.value];
                 && x in s && MayServe(x, model, now)
                 && (forall z :: z in s && MayServe(z, model, now) ==> x.inFlight <= z.inFlight)
                 && (forall k :: 0 <= k < i.value && MayServe(Swept(s, now)[k], model, now) ==> x.inFlight < Swept(s, now)[k].inFlight)
                 && forall y :: y in Acquired(s, model, now) <==>
                      (y in s && !Idle(y, now) && y.id != x.id) || y == x.(inFlight := x.inFlight + 1)
  {
    SweptIff(s, now);
    SweptSame(s, now);
    var t := Swept(s, now);
    forall z | z in s && MayServe(z, model, now) ensures z in t {}
    var i := Choice(t, model, now);
    BestIff(t, model, now, |t|);
    if i.Some? {
      assert t[i.value] in t;
      PutIff(t, i.value, t[i.value].(inFlight := t[i.value].inFlight + 1));
    }
  }

  /** The earliest of the least loaded servers that may be chosen. */
  lemma {:induction false} BestIff(s: Servers, model: string, now: real, n: nat)
    requires n <= |s|
    ensures var b := Best(s, model, now, n);
            && (b.None? ==> forall k :: 0 <= k < n ==> !MayServe(s[k], model, now))
            && (b.Some? ==> b.value < n && MayServe(s[b.value], model, now)
                            && forall k :: 0 <= k < n && MayServe(s[k], model, now) ==>
                                 s[b.value].inFlight <= s[k].inFlight && (k < b.value ==> s[b.value].inFlight < s[k].inFlight))
  {
    if n > 0 { BestIff(s, model, now, n - 1); }
  }

  /** A release takes one request off its server, if it has any, and sweeps. */
  lemma ReleaseLaw(s: Servers, id: ServerId, now: real)
    requires AllApart(s)
    ensures forall y :: y in Released(s, id, now) <==>
              !Idle(y, now) && ((y in s && (y.id != id || y.inFlight == 0))
                                || exists x :: x in s && x.id == id && x.inFlight > 0 && y == x.(inFlight := x.inFlight - 1))
  {
    ApartSame(s);
    SweptIff(s, now);
    var i := FindId(s, id, 0);
    if i.Some? {
      var x := s[i.value];
      assert x in s;
      forall z | z in s && z.id == id ensures z == x { Unique(s, x, z); }
      if x.inFlight > 0 {
        var y := x.(inFlight := x.inFlight - 1);
        PutIff(s, i.value, y);
        SweptIff(s[i.value := y], now);
        if y in s { Unique(s, x, y); }
      }
    }
  }

  // ---- registering -------------------------------------------------------------------------------

  /** Whom a registration refreshes. */
  predicate Pairs(x: Entry, endpoint: string, model: string, now: real) {
    !x.removed && !Idle(x, now) && x.endpoint == endpoint && x.model == model
  }

  /** Registering refreshes the one entry of that endpoint and model that was neither removed nor swept: it becomes
      managed, but unhealthy, if it is now managed and was not. */
  lemma RegisterRefreshes(s: Servers, model: string, endpoint: string, managed: bool, id: ServerId, now: real, x: Entry)
    requires Inv(s) && x in s && Pairs(x, endpoint, model, now)
    ensures var z := x.(lastHeartbeat := now, managed := x.managed || managed, healthy := x.healthy && (x.managed || !managed));
            forall y :: y in Registered(s, model, endpoint, managed, id, now) <==>
              y == z || (y in s && !Idle(y, now) && y.id != x.id)
  {
    SweptIff(s, now);
    SweptSame(s, now);
    var t := Swept(s, now);
    assert x in t;
    var i := FindPair(t, endpoint, model, 0);
    PairIs(t, endpoint, model, x, i.value);
    var e := x.(lastHeartbeat := now);
    PutIff(t, i.value, if managed && !e.managed then e.(managed := true, healthy := false) else e);
  }

  lemma PairIs(t: Servers, endpoint: string, model: string, x: Entry, i: nat)
    requires AllApart(t) && x in t && IsPair(x, endpoint, model) && i < |t| && IsPair(t[i], endpoint, model)
    ensures t[i] == x
  {
    var j :| 0 <= j < |t| && t[j] == x;
  }

  /** Where there is none it adds one, under the new id. */
  lemma RegisterAdds(s: Servers, model: string, endpoint: string, managed: bool, id: ServerId, now: real)
    requires forall x :: x in s ==> !Pairs(x, endpoint, model, now)
    ensures Registered(s, model, endpoint, managed, id, now)
         == Swept(s, now) + [Entry(id, endpoint, model, now, 0, managed, !managed, 0, false)]
  {
    SweptIff(s, now);
    var i := FindPair(Swept(s, now), endpoint, model, 0);
    if i.Some? { assert Swept(s, now)[i.value] in Swept(s, now); }
  }

  // ---- a server that keeps beating ---------------------------------------------------------------

  /** The registration is accepted, and for the entry's endpoint and model. */
  predicate ForPair(x: Entry, e: Event) {
    e.Register? && Strip(e.model) == x.model != "" && Strip(e.endpoint) == x.endpoint != ""
  }

  /** The time of the entry's last heartbeat after the call: its own heartbeats and registrations renew it. */
  function NextBeat(x: Entry, e: Event, last: real): real {
    if ForPair(x, e) || (e.Heartbeat? && e.id == x.id) then e.now else last
  }

  function LastBeat(x: Entry, es: seq<Event>, last: real): real {
    if es == [] then last else LastBeat(x, es[1..], NextBeat(x, es[0], last))
  }

  /** The call neither removes the entry nor makes it managed, and comes within the timeout of its last heartbeat. */
  predicate Harmless(x: Entry, e: Event, last: real) {
    && !(e.Remove? && e.id == x.id) && !(ForPair(x, e) && e.managed)
    && (!e.Record? ==> e.now - last <= 15.0)
  }

  ghost predicate Beating(x: Entry, es: seq<Event>, last: real) {
    es == [] || (Harmless(x, es[0], last) && Beating(x, es[1..], NextBeat(x, es[0], last)))
  }

  /** `y` is the entry with its last heartbeat at `last`, however many requests it has. */
  predicate IsNow(x: Entry, last: real, y: Entry) {
    y == x.(lastHeartbeat := last, inFlight := y.inFlight)
  }

  ghost predicate Alive(s: Servers, x: Entry, last: real) {
    exists y :: y in s && IsNow(x, last, y)
  }

  lemma RegisterAlive(s: Servers, e: Event, x: Entry, last: real, y: Entry)
    requires Inv(s) && e.Register? && !x.managed && !x.removed && Harmless(x, e, last) && y in s && IsNow(x, last, y)
    ensures Alive(Apply(s, e), x, NextBeat(x, e, last))
  {
    hide Registered, Strip;
    var model, endpoint, now := Strip(e.model), Strip(e.endpoint), e.now;
    var r := Apply(s, e);
    SweptIff(s, now);
    if model == "" || endpoint == "" {
      assert y in r;
    } else if ForPair(x, e) {
      RegisterRefreshes(s, model, endpoint, false, e.id, now, y);
      assert y.(lastHeartbeat := now) in r;
    } else if z :| z in s && Pairs(z, endpoint, model, now) {
      RegisterRefreshes(s, model, endpoint, e.managed, e.id, now, z);
      ApartSame(s);
      if y.id == z.id { Unique(s, y, z); }
      assert y in r;
    } else {
      RegisterAdds(s, model, endpoint, e.managed, e.id, now);
      assert y in r;
    }
  }

  lemma ApplyAlive(s: Servers, e: Event, x: Entry, last: real)
    requires Inv(s) && !x.managed && !x.removed && Alive(s, x, last) && Harmless(x, e, last)
    ensures Alive(Apply(s, e), x, NextBeat(x, e, last))
  {
    hide Strip, Swept, Registered, HeartBeaten, Removed, Recorded, Acquired, Released, Choice;
    var y :| y in s && IsNow(x, last, y);
    var r := Apply(s, e);
    match e
    case Register(_, _, _, _, _) => RegisterAlive(s, e, x, last, y);
    case Heartbeat(id, now) =>
      HeartbeatLaw(s, id, now);
      assert (if y.id == id then y.(lastHeartbeat := now) else y) in r;
    case Remove(id, now) =>
      RemoveLaw(s, id, now);
      assert y in r;
    case Record(id, ok, threshold) =>
      RecordLaw(s, id, ok, threshold);
      assert y in r;
    case Acquire(model, now) =>
      AcquireLaw(s, model, now);
      AcquireAlive(s, model, now, y);
      assert y in r || y.(inFlight := y.inFlight + 1) in r;
    case Release(id, now) =>
      ReleaseLaw(s, id, now);
      assert y in r || y.(inFlight := y.inFlight - 1) in r;
    case Sweep(now) =>
      SweptIff(s, now);
      assert y in r;
  }

  lemma AcquireAlive(s: Servers, model: string, now: real, y: Entry)
    requires AllApart(s) && y in s && !Idle(y, now)
    ensures y in Acquired(s, model, now) || y.(inFlight := y.inFlight + 1) in Acquired(s, model, now)
  {
    hide Swept, Acquired;
    AcquireLaw(s, model, now);
    ApartSame(s);
    var i := Choice(Swept(s, now), model, now);
    if i.Some? && Swept(s, now)[i.value].id == y.id { Unique(s, y, Swept(s, now)[i.value]); }
  }

  /** Over every run of calls that never removes it and never makes it managed, a server whose heartbeats and
      registrations are never further apart than the timeout stays registered, can be chosen at any time within the
      timeout of the last one, and has its next heartbeat accepted then. */
  lemma {:induction false} RunAlive(s: Servers, es: seq<Event>, x: Entry, last: real, later: real)
    requires Inv(s) && FreshIds(s, es) && !x.managed && !x.removed && Alive(s, x, last) && Beating(x, es, last)
    requires later - LastBeat(x, es, last) <= 15.0
    ensures exists y :: y in Run(s, es) && IsNow(x, LastBeat(x, es, last), y) && Selectable(y, later) && MayServe(y, x.model, later)
    ensures Beats(Swept(Run(s, es), later), x.id, later)
    decreases |es|
  {
    hide Apply, Inv, Harmless, NextBeat;
    if es == [] {
      var y :| y in s && IsNow(x, last, y);
      AllApartOf(s);
      HeartbeatLaw(s, x.id, later);
    } else {
      ApplyInv(s, es[0]);
      ApplyAlive(s, es[0], x, last);
      RunAlive(Apply(s, es[0]), es[1..], x, NextBeat(x, es[0], last), later);
    }
  }

  lemma AllApartOf(s: Servers)
    requires Inv(s)
    ensures AllApart(s)
  {}
}
