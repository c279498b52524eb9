/** What holds of the registry over every run of its calls. */
module RegistryRuns {
  import opened Basics
  import opened Registry

  datatype Event =
    | Register(model: string, endpoint: string, managed: bool, id: ServerId, now: real)
    | Heartbeat(id: ServerId, now: real)
    | Remove(id: ServerId, now: real)
    | Record(id: ServerId, ok: bool, threshold: int)
    | Acquire(model: string, now: real)
    | Release(id: ServerId, now: real)
    | Sweep(now: real)

  function Apply(s: Servers, e: Event): Servers {
    match e
    case Register(rawModel, rawEndpoint, managed, id, now) =>
      var model, endpoint := Strip(rawModel), Strip(rawEndpoint);
      if model == "" || endpoint == "" then s else Registered(s, model, endpoint, managed, id, now)
    case Heartbeat(id, now) => HeartBeaten(s, id, now)
    case Remove(id, now) => Removed(s, id, now)
    case Record(id, ok, threshold) => Recorded(s, id, ok, threshold)
    case Acquire(model, now) => Acquired(s, model, now)
    case Release(id, now) => Released(s, id, now)
    case Sweep(now) => Swept(s, now)
  }

  function Run(s: Servers, es: seq<Event>): Servers
    decreases |es|
  {
    if es == [] then s else Run(Apply(s, es[0]), es[1..])
  }

  // ---- sweeping ----------------------------------------------------------------------------------

  lemma {:induction false} SweptHas(s: Servers, now: real, x: Entry)
    ensures x in Swept(s, now) <==> x in s && !Expired(x, now)
  {
    if s != [] {
      assert s == [s[0]] + s[1..];
      SweptHas(s[1..], now, x);
    }
  }

  /** Different servers, and different pairs unless one was removed. */
  predicate Apart(a: Entry, b: Entry) {
    a.id != b.id && (a.removed || b.removed || a.endpoint != b.endpoint || a.model != b.model)
  }

  ghost predicate AllApart(s: Servers) {
    forall i, j :: 0 <= i < j < |s| ==> Apart(s[i], s[j])
  }

  lemma {:induction false} SweptApart(s: Servers, now: real)
    requires AllApart(s)
    ensures AllApart(Swept(s, now))
  {
    if s != [] {
      SweptApart(s[1..], now);
      var t := Swept(s[1..], now);
      forall x | x in t ensures Apart(s[0], x) {
        SweptHas(s[1..], now, x);
        var j :| 0 <= j < |s[1..]| && s[1..][j] == x;
        assert x == s[j + 1];
      }
    }
  }

  // ---- the invariant -----------------------------------------------------------------------------

  /** A removed entry has requests in flight; an unmanaged one has no health record. */
  predicate EntryOk(x: Entry) {
    (x.removed ==> x.inFlight > 0) && (!x.managed ==> x.failures == 0)
  }

  ghost predicate Inv(s: Servers) {
    AllApart(s) && forall x :: x in s ==> EntryOk(x)
  }

  /** Ids are never issued twice. */
  ghost predicate FreshId(s: Servers, e: Event) {
    e.Register? ==> forall x :: x in s ==> x.id != e.id
  }

  lemma SweptInv(s: Servers, now: real)
    requires AllApart(s) && forall x :: x in s ==> EntryOk(x) || Expired(x, now)
    ensures Inv(Swept(s, now))
  {
    SweptApart(s, now);
    forall x | x in Swept(s, now) ensures EntryOk(x) { SweptHas(s, now, x); }
  }

  /** Replacing an entry by one with the same identity, removed if the old one was. */
  lemma UpdateApart(s: Servers, i: nat, y: Entry)
    requires AllApart(s) && i < |s| && y.id == s[i].id && y.endpoint == s[i].endpoint && y.model == s[i].model
    requires s[i].removed ==> y.removed
    ensures AllApart(s[i := y])
  {
    var r := s[i := y];
    forall a, b | 0 <= a < b < |r| ensures Apart(r[a], r[b]) { assert Apart(s[a], s[b]); }
  }

  lemma UpdateOk(s: Servers, i: nat, y: Entry)
    requires i < |s| && forall x :: x in s ==> EntryOk(x)
    ensures forall x :: x in s[i := y] ==> x == y || EntryOk(x)
  {
    forall x | x in s[i := y] && x != y ensures EntryOk(x) {
      var j :| 0 <= j < |s| && s[i := y][j] == x;
      assert x == s[j];
    }
  }

  lemma RegisteredInv(s: Servers, model: string, endpoint: string, managed: bool, id: ServerId, now: real)
    requires Inv(s) && forall x :: x in s ==> x.id != id
    ensures Inv(Registered(s, model, endpoint, managed, id, now))
  {
    SweptInv(s, now);
    var t := Swept(s, now);
    var i := FindPair(t, endpoint, model, 0);
    if i.None? {
      var y := Entry(id, endpoint, model, now, 0, managed, !managed, 0, false);
      forall a | 0 <= a < |t| ensures Apart(t[a], y) {
        assert t[a] in t;
        SweptHas(s, now, t[a]);
        assert !IsPair(t[a], endpoint, model);
      }
      assert AllApart(t + [y]);
    } else {
      var e := t[i.value].(lastHeartbeat := now);
      var y := if managed && !e.managed then e.(managed := true, healthy := false) else e;
      assert t[i.value] in t && EntryOk(t[i.value]);
      UpdateApart(t, i.value, y);
      UpdateOk(t, i.value, y);
    }
  }

  lemma PutInv(s: Servers, i: nat, y: Entry)
    requires Inv(s) && i < |s| && EntryOk(y) && y.id == s[i].id && y.endpoint == s[i].endpoint && y.model == s[i].model
    requires s[i].removed ==> y.removed
    ensures Inv(s[i := y])
  {
    UpdateApart(s, i, y);
    UpdateOk(s, i, y);
  }

  lemma PutSweptInv(s: Servers, i: nat, y: Entry, now: real)
    requires Inv(s) && i < |s| && y.id == s[i].id && y.endpoint == s[i].endpoint && y.model == s[i].model
    requires (s[i].removed ==> y.removed) && (EntryOk(y) || Expired(y, now))
    ensures Inv(Swept(s[i := y], now))
  {
    UpdateApart(s, i, y);
    UpdateOk(s, i, y);
    SweptInv(s[i := y], now);
  }

  /** After every call no two entries that were not removed share endpoint and model, and a removed entry
      is kept only while it has requests in flight. */
  lemma ApplyInv(s: Servers, e: Event)
    requires Inv(s) && FreshId(s, e)
    ensures Inv(Apply(s, e))
  {
    match e
    case Register(rawModel, rawEndpoint, managed, id, now) =>
      var model, endpoint := Strip(rawModel), Strip(rawEndpoint);
      if model != "" && endpoint != "" { RegisteredInv(s, model, endpoint, managed, id, now); }
    case Heartbeat(id, now) =>
      SweptInv(s, now);
      var t := Swept(s, now);
      if Beats(t, id, now) {
        var i := FindId(t, id, 0).value;
        assert t[i] in t;
        PutInv(t, i, t[i].(lastHeartbeat := now));
      }
    case Remove(id, now) =>
      var i := FindId(s, id, 0);
      if i.Some? && !s[i.value].removed {
        assert s[i.value] in s;
        PutSweptInv(s, i.value, s[i.value].(removed := true), now);
      }
    case Record(id, ok, threshold) =>
      var i := FindId(s, id, 0);
      if i.Some? {
        assert s[i.value] in s;
        if s[i.value].managed { PutInv(s, i.value, Checked(s[i.value], ok, threshold)); }
      }
    case Acquire(model, now) =>
      SweptInv(s, now);
      var t := Swept(s, now);
      var i := Choice(t, model, now);
      if i.Some? {
        assert t[i.value] in t;
        PutInv(t, i.value, t[i.value].(inFlight := t[i.value].inFlight + 1));
      }
    case Release(id, now) =>
      var i := FindId(s, id, 0);
      if i.Some? && s[i.value].inFlight > 0 {
        assert s[i.value] in s;
        PutSweptInv(s, i.value, s[i.value].(inFlight := s[i.value].inFlight - 1), now);
      } else {
        SweptInv(s, now);
      }
    case Sweep(now) => SweptInv(s, now);
  }

  ghost predicate FreshIds(s: Servers, es: seq<Event>)
    decreases |es|
  {
    es == [] || (FreshId(s, es[0]) && FreshIds(Apply(s, es[0]), es[1..]))
  }

  lemma {:induction false} RunInv(s: Servers, es: seq<Event>)
    requires Inv(s) && FreshIds(s, es)
    ensures Inv(Run(s, es))
    decreases |es|
  {
    if es != [] {
      ApplyInv(s, es[0]);
      RunInv(Apply(s, es[0]), es[1..]);
    }
  }

  // ---- one entry through one call ----------------------------------------------------------------

  /** How an entry with id `id` after the call relates to one before it: the call kept it, changed it in
      the one way it can, or created it. */
  ghost predicate Comes(s: Servers, e: Event, y: Entry) {
    || y in s
    || (exists x :: x in s && x.id == y.id && Becomes(x, e, y))
    || (e.Register? && y == Entry(e.id, Strip(e.endpoint), Strip(e.model), e.now, 0, e.managed, !e.managed, 0, false))
  }

  predicate Becomes(x: Entry, e: Event, y: Entry) {
    match e
    case Register(model, endpoint, managed, _, now) =>
      && IsPair(x, Strip(endpoint), Strip(model))
      && y == if managed && !x.managed then x.(lastHeartbeat := now, managed := true, healthy := false) else x.(lastHeartbeat := now)
    case Heartbeat(id, now) => x.id == id && !x.removed && (x.managed || Healthy(x, now)) && y == x.(lastHeartbeat := now)
    case Remove(id, _) => x.id == id && y == x.(removed := true)
    case Record(id, ok, threshold) => x.id == id && !x.removed && x.managed && y == Checked(x, ok, threshold)
    case Acquire(model, now) => Eligible(x, model, now) && y == x.(inFlight := x.inFlight + 1)
    case Release(id, _) => x.id == id && x.inFlight > 0 && y == x.(inFlight := x.inFlight - 1)
    case Sweep(_) => false
  }

  lemma PutHas(s: Servers, i: nat, y: Entry, z: Entry)
    requires i < |s| && z in s[i := y]
    ensures z in s || z == y
  {
    var j :| 0 <= j < |s| && s[i := y][j] == z;
    if j != i { assert s[j] == z; }
  }

  lemma RegisterComes(s: Servers, e: Event, y: Entry)
    requires e.Register? && y in Apply(s, e)
    ensures Comes(s, e, y)
  {
    hide Strip;
    var model, endpoint, managed, id, now := Strip(e.model), Strip(e.endpoint), e.managed, e.id, e.now;
    if model != "" && endpoint != "" {
      var t := Swept(s, now);
      var i := FindPair(t, endpoint, model, 0);
      if i.None? {
        SweptHas(s, now, y);
      } else {
        var x := t[i.value];
        SweptHas(s, now, x);
        SweptHas(s, now, y);
        var e' := x.(lastHeartbeat := now);
        PutHas(t, i.value, if managed && !e'.managed then e'.(managed := true, healthy := false) else e', y);
      }
    }
  }

  lemma ApplyComes(s: Servers, e: Event, y: Entry)
    requires y in Apply(s, e)
    ensures Comes(s, e, y)
  {
    hide Strip, Expired, Swept, FindPair, Best, Registered;
    match e
    case Register(_, _, _, _, _) => RegisterComes(s, e, y);
    case Heartbeat(id, now) =>
      var t := Swept(s, now);
      SweptHas(s, now, y);
      if Beats(t, id, now) {
        var i := FindId(t, id, 0).value;
        SweptHas(s, now, t[i]);
        PutHas(t, i, t[i].(lastHeartbeat := now), y);
      }
    case Remove(id, now) =>
      var i := FindId(s, id, 0);
      if i.Some? && !s[i.value].removed {
        SweptHas(s[i.value := s[i.value].(removed := true)], now, y);
        PutHas(s, i.value, s[i.value].(removed := true), y);
        assert s[i.value] in s;
      }
    case Record(id, ok, threshold) =>
      var i := FindId(s, id, 0);
      if i.Some? && !s[i.value].removed && s[i.value].managed {
        PutHas(s, i.value, Checked(s[i.value], ok, threshold), y);
        assert s[i.value] in s;
      }
    case Acquire(model, now) =>
      var t := Swept(s, now);
      SweptHas(s, now, y);
      var i := Choice(t, model, now);
      if i.Some? {
        SweptHas(s, now, t[i.value]);
        PutHas(t, i.value, t[i.value].(inFlight := t[i.value].inFlight + 1), y);
      }
    case Release(id, now) =>
      var i := FindId(s, id, 0);
      if i.Some? && s[i.value].inFlight > 0 {
        SweptHas(s[i.value := s[i.value].(inFlight := s[i.value].inFlight - 1)], now, y);
        PutHas(s, i.value, s[i.value].(inFlight := s[i.value].inFlight - 1), y);
        assert s[i.value] in s;
      } else {
        SweptHas(s, now, y);
      }
    case Sweep(now) => SweptHas(s, now, y);
  }

  // ---- expiry is undone by registration alone ----------------------------------------------------

  /** At time `t` the unmanaged entry has been silent for too long. */
  predicate Lapsed(x: Entry, t: real) {
    !x.managed && t - x.lastHeartbeat > HEARTBEAT_TIMEOUT_SECONDS
  }

  /** The call happens no earlier than `t`, and is not a registration that renews the entry or takes its id. */
  predicate Leaves(e: Event, x: Entry, t: real) {
    && (!e.Record? ==> e.now >= t)
    && (e.Register? ==> e.id != x.id && (Strip(e.endpoint) != x.endpoint || Strip(e.model) != x.model))
  }

  ghost predicate AllLapsed(s: Servers, x: Entry, t: real) {
    forall y :: y in s && y.id == x.id ==> Lapsed(y, t) && y.endpoint == x.endpoint && y.model == x.model
  }

  lemma ApplyLapsed(s: Servers, e: Event, x: Entry, t: real)
    requires AllLapsed(s, x, t) && Leaves(e, x, t)
    ensures AllLapsed(Apply(s, e), x, t)
  {
    forall y | y in Apply(s, e) && y.id == x.id ensures Lapsed(y, t) && y.endpoint == x.endpoint && y.model == x.model {
      ApplyComes(s, e, y);
    }
  }

  /** Once lapsed, an entry is not selectable again at any later time, whatever the calls, heartbeats
      included, until its own endpoint and model are registered again. */
  lemma {:induction false} RunLapsed(s: Servers, es: seq<Event>, x: Entry, t: real, later: real)
    requires AllLapsed(s, x, t) && later >= t && forall k :: 0 <= k < |es| ==> Leaves(es[k], x, t)
    ensures forall y :: y in Run(s, es) && y.id == x.id ==> Lapsed(y, t) && !Selectable(y, later)
    ensures !Beats(Swept(Run(s, es), later), x.id, later)
    decreases |es|
  {
    if es == [] {
      var u := Swept(s, later);
      var i := FindId(u, x.id, 0);
      if i.Some? { SweptHas(s, later, u[i.value]); }
    } else {
      ApplyLapsed(s, es[0], x, t);
      RunLapsed(Apply(s, es[0]), es[1..], x, t, later);
    }
  }

  /** Registration makes an unmanaged pair selectable at once. */
  lemma RegisterRevives(s: Servers, model: string, endpoint: string, id: ServerId, now: real)
    requires forall x :: x in s && IsPair(x, endpoint, model) ==> !x.managed
    ensures exists y :: y in Registered(s, model, endpoint, false, id, now) && IsPair(y, endpoint, model) && Selectable(y, now)
  {
    var t := Swept(s, now);
    var r := Registered(s, model, endpoint, false, id, now);
    var i := FindPair(t, endpoint, model, 0);
    if i.None? {
      assert r[|t|] in r;
    } else {
      SweptHas(s, now, t[i.value]);
      assert r[i.value] in r;
    }
  }

  // ---- removal is final --------------------------------------------------------------------------

  ghost predicate AllRemoved(s: Servers, id: ServerId, load: nat) {
    forall y :: y in s && y.id == id ==> y.removed && y.inFlight <= load
  }

  /** A removed entry stays removed and never gains a request: it is not selected again. */
  lemma {:induction false} RunRemoved(s: Servers, es: seq<Event>, id: ServerId, load: nat)
    requires AllRemoved(s, id, load) && forall k :: 0 <= k < |es| ==> es[k].Register? ==> es[k].id != id
    ensures AllRemoved(Run(s, es), id, load)
    decreases |es|
  {
    if es != [] {
      forall y | y in Apply(s, es[0]) && y.id == id ensures y.removed && y.inFlight <= load {
        ApplyComes(s, es[0], y);
      }
      RunRemoved(Apply(s, es[0]), es[1..], id, load);
    }
  }

  // ---- health ------------------------------------------------------------------------------------

  /** The results recorded for one server. */
  function Results(es: seq<Event>, id: ServerId): seq<bool> {
    if es == [] then []
    else (if es[0].Record? && es[0].id == id then [es[0].ok] else []) + Results(es[1..], id)
  }

  /** The failures after the last success. */
  function Streak(hist: seq<bool>): nat {
    if hist == [] || hist[|hist| - 1] then 0 else Streak(hist[..|hist| - 1]) + 1
  }

  predicate HealthyAfter(hist: seq<bool>, threshold: int) {
    true in hist && Streak(hist) < threshold
  }

  /** The entry's health is the one its recorded history says. */
  predicate Tracks(x: Entry, hist: seq<bool>, threshold: int) {
    x.managed && x.failures == Streak(hist) && (x.healthy <==> HealthyAfter(hist, threshold))
  }

  ghost predicate AllTrack(s: Servers, id: ServerId, hist: seq<bool>, threshold: int) {
    forall x :: x in s && x.id == id && !x.removed ==> Tracks(x, hist, threshold)
  }

  lemma CheckedTracks(x: Entry, hist: seq<bool>, ok: bool, threshold: int)
    requires Tracks(x, hist, threshold) && threshold >= 1
    ensures Tracks(Checked(x, ok, threshold), hist + [ok], threshold)
  {
    assert (hist + [ok])[..|hist|] == hist;
    assert true in hist + [ok] <==> true in hist || ok;
  }

  ghost predicate SameId(s: Servers) {
    forall i, j :: 0 <= i < |s| && 0 <= j < |s| && s[i].id == s[j].id ==> i == j
  }

  lemma RecordedTracks(s: Servers, id: ServerId, ok: bool, threshold: int, hist: seq<bool>)
    requires SameId(s) && AllTrack(s, id, hist, threshold) && threshold >= 1
    ensures AllTrack(Recorded(s, id, ok, threshold), id, hist + [ok], threshold)
  {
    var r := Recorded(s, id, ok, threshold);
    var i := FindId(s, id, 0);
    forall y | y in r && y.id == id && !y.removed ensures Tracks(y, hist + [ok], threshold) {
      var j :| 0 <= j < |r| && r[j] == y;
      assert s[j].id == id && s[j] in s && i.value == j;
      CheckedTracks(s[j], hist, ok, threshold);
    }
  }

  lemma ApplyTracks(s: Servers, e: Event, id: ServerId, hist: seq<bool>, threshold: int)
    requires Inv(s) && AllTrack(s, id, hist, threshold) && threshold >= 1
    requires (e.Record? && e.id == id ==> e.threshold == threshold) && (e.Register? ==> e.id != id)
    ensures AllTrack(Apply(s, e), id, hist + Results([e], id), threshold)
  {
    assert Results([e], id) == if e.Record? && e.id == id then [e.ok] else [] by { assert [e][1..] == []; }
    if e.Record? && e.id == id {
      assert SameId(s) by {
        forall i, j | 0 <= i < |s| && 0 <= j < |s| && i != j ensures s[i].id != s[j].id {
          if i < j { assert Apart(s[i], s[j]); } else { assert Apart(s[j], s[i]); }
        }
      }
      RecordedTracks(s, id, e.ok, threshold, hist);
    } else {
      assert hist + [] == hist;
      forall y | y in Apply(s, e) && y.id == id && !y.removed ensures Tracks(y, hist, threshold) {
        ApplyComes(s, e, y);
      }
    }
  }

  lemma ResultsSplit(es: seq<Event>, id: ServerId, hist: seq<bool>)
    requires es != []
    ensures hist + Results([es[0]], id) + Results(es[1..], id) == hist + Results(es, id)
  {
    assert [es[0]][1..] == [];
    assert Results(es, id) == Results([es[0]], id) + Results(es[1..], id);
    Associates(hist, Results([es[0]], id), Results(es[1..], id));
  }

  /** For every history with a fixed threshold, among any other calls, a managed entry is healthy exactly
      when a check has succeeded since it became managed and fewer than `threshold` have failed after that. */
  lemma {:induction false} RunTracks(s: Servers, es: seq<Event>, id: ServerId, hist: seq<bool>, threshold: int)
    requires Inv(s) && FreshIds(s, es) && AllTrack(s, id, hist, threshold) && threshold >= 1
    requires forall k :: 0 <= k < |es| ==>
               (es[k].Record? && es[k].id == id ==> es[k].threshold == threshold) && (es[k].Register? ==> es[k].id != id)
    ensures AllTrack(Run(s, es), id, hist + Results(es, id), threshold)
    decreases |es|
  {
    hide Inv, Apply, AllTrack;
    if es == [] {
      assert hist + [] == hist;
    } else {
      ApplyInv(s, es[0]);
      ApplyTracks(s, es[0], id, hist, threshold);
      ResultsSplit(es, id, hist);
      RunTracks(Apply(s, es[0]), es[1..], id, hist + Results([es[0]], id), threshold);
    }
  }

  /** The history starts empty when an entry becomes managed. */
  lemma BecomesManaged(s: Servers, model: string, endpoint: string, id: ServerId, now: real, threshold: int, y: Entry)
    requires Inv(s) && threshold >= 1 && forall x :: x in s ==> x.id != id
    requires y in Registered(s, model, endpoint, true, id, now) && IsPair(y, endpoint, model)
    requires forall x :: x in s && IsPair(x, endpoint, model) ==> !x.managed
    ensures Tracks(y, [], threshold)
  {
    RegisteredInv(s, model, endpoint, true, id, now);
    var t := Swept(s, now);
    var r := Registered(s, model, endpoint, true, id, now);
    var i := FindPair(t, endpoint, model, 0);
    var k := if i.None? then |t| else i.value;
    if i.Some? { SweptHas(s, now, t[i.value]); }
    var j :| 0 <= j < |r| && r[j] == y;
    assert j < k ==> Apart(r[j], r[k]);
    assert k < j ==> Apart(r[k], r[j]);
  }
}
