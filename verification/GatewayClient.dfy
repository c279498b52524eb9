/** `ModelInferenceClient.infer` as interleaved steps of many requests: acquire, find stale channels, close
    them one by one, look up or open a channel, finish; with every other registry call in between. */
module GatewayClient {
  import opened Basics
  import opened Registry
  import R = RegistryRuns

  type RequestId = nat
  type ChannelId = nat

  /** Where a request is: it has a server; it holds the client's lock with channels left to close; it is
      calling on a channel. */
  datatype Phase =
    | Got(id: ServerId, endpoint: string)
    | Pruning(id: ServerId, endpoint: string, stale: set<string>)
    | Using(id: ServerId, endpoint: string, channel: ChannelId)

  datatype Client = Client(servers: Servers, channels: map<string, ChannelId>, nextChannel: ChannelId,
                           closed: set<ChannelId>, requests: map<RequestId, Phase>, lock: Option<RequestId>)

  const INITIAL := Client([], map[], 0, {}, map[], None)

  datatype Event =
    | Acquire(r: RequestId, model: string, now: real)
    | Snapshot(r: RequestId, now: real)
    | Close(r: RequestId, endpoint: string)
    | Open(r: RequestId)
    | Finish(r: RequestId, now: real)
    | Other(call: R.Event)

  function EndpointsOf(s: Servers): set<string> { set e | e in s :: e.endpoint }

  /** One atomic step; a step that does not apply changes nothing. */
  function Next(c: Client, e: Event): Client {
    match e
    case Acquire(r, model, now) =>
      if r in c.requests then c else
        var t := Swept(c.servers, now);
        var i := Choice(t, model, now);
        if i.None? then c.(servers := t)
        else c.(servers := Acquired(c.servers, model, now), requests := c.requests[r := Got(t[i.value].id, t[i.value].endpoint)])
    case Snapshot(r, now) =>
      if r !in c.requests || !c.requests[r].Got? || c.lock.Some? then c else
        var t := Swept(c.servers, now);
        c.(servers := t, lock := Some(r),
           requests := c.requests[r := Pruning(c.requests[r].id, c.requests[r].endpoint, c.channels.Keys - EndpointsOf(t))])
    case Close(r, endpoint) =>
      if r !in c.requests || !c.requests[r].Pruning? || endpoint !in c.requests[r].stale || endpoint !in c.channels then c else
        c.(channels := c.channels - {endpoint}, closed := c.closed + {c.channels[endpoint]},
           requests := c.requests[r := c.requests[r].(stale := c.requests[r].stale - {endpoint})])
    case Open(r) =>
      if r !in c.requests || !c.requests[r].Pruning? || c.requests[r].stale != {} then c else
        var p := c.requests[r];
        if p.endpoint in c.channels
        then c.(lock := None, requests := c.requests[r := Using(p.id, p.endpoint, c.channels[p.endpoint])])
        else c.(lock := None, channels := c.channels[p.endpoint := c.nextChannel], nextChannel := c.nextChannel + 1,
                requests := c.requests[r := Using(p.id, p.endpoint, c.nextChannel)])
    case Finish(r, now) =>
      if r !in c.requests then c else
        c.(servers := Released(c.servers, c.requests[r].id, now), requests := c.requests - {r},
           lock := if c.lock == Some(r) then None else c.lock)
    case Other(call) => if call.Acquire? || call.Release? then c else c.(servers := R.Apply(c.servers, call))
  }

  function Run(c: Client, es: seq<Event>): Client
    decreases |es|
  {
    if es == [] then c else Run(Next(c, es[0]), es[1..])
  }

  // ---- the invariant -----------------------------------------------------------------------------

  /** The requests that acquired server `id` and have not released it. */
  function Holders(requests: map<RequestId, Phase>, id: ServerId): set<RequestId> {
    set r | r in requests && requests[r].id == id
  }

  ghost predicate Holds(s: Servers, p: Phase) {
    exists x :: x in s && x.id == p.id && x.endpoint == p.endpoint
  }

  /** Each entry's in-flight count is its outstanding acquisitions, and whatever is acquired is registered. */
  ghost predicate Counted(s: Servers, requests: map<RequestId, Phase>) {
    && (forall x :: x in s ==> x.inFlight == |Holders(requests, x.id)|)
    && (forall r :: r in requests ==> Holds(s, requests[r]))
  }

  /** Channels in use are open, under the endpoint of their server, and not among those being closed. */
  ghost predicate ChannelsOk(c: Client) {
    && (forall e :: e in c.channels ==> c.channels[e] < c.nextChannel && c.channels[e] !in c.closed)
    && (forall n :: n in c.closed ==> n < c.nextChannel)
    && (forall e, f :: e in c.channels && f in c.channels && e != f ==> c.channels[e] != c.channels[f])
    && (forall r :: r in c.requests && c.requests[r].Pruning? ==> c.lock == Some(r))
    && (forall r :: r in c.requests && c.requests[r].Using? ==>
          c.requests[r].endpoint in c.channels && c.channels[c.requests[r].endpoint] == c.requests[r].channel)
    && (forall p, r :: p in c.requests && c.requests[p].Pruning? && r in c.requests && c.requests[r].Using? ==>
          c.requests[r].endpoint !in c.requests[p].stale)
  }

  ghost predicate Inv(c: Client) {
    R.Inv(c.servers) && Counted(c.servers, c.requests) && ChannelsOk(c)
  }

  ghost predicate FreshId(c: Client, e: Event) {
    e.Other? ==> R.FreshId(c.servers, e.call)
  }

  // ---- entries with requests outstanding stay ----------------------------------------------------

  lemma PutKeeps(s: Servers, i: nat, y: Entry, x: Entry)
    requires i < |s| && x in s && y.id == s[i].id && y.endpoint == s[i].endpoint
    ensures exists z :: z in s[i := y] && z.id == x.id && z.endpoint == x.endpoint && (z == x || (x == s[i] && z == y))
  {
    var j :| 0 <= j < |s| && s[j] == x;
    assert s[i := y][j] in s[i := y];
  }

  lemma SweptKeeps(s: Servers, now: real, x: Entry)
    requires x in s && x.inFlight > 0
    ensures x in Swept(s, now)
  {
    R.SweptHas(s, now, x);
  }

  /** Only the last release of an entry can let it go. */
  lemma ApplyPersists(s: Servers, e: R.Event, x: Entry)
    requires x in s && x.inFlight > 0 && (e.Release? && e.id == x.id ==> x.inFlight > 1)
    ensures exists y :: y in R.Apply(s, e) && y.id == x.id && y.endpoint == x.endpoint
  {
    match e
    case Register(rawModel, rawEndpoint, managed, id, now) =>
      var model, endpoint := Strip(rawModel), Strip(rawEndpoint);
      if model != "" && endpoint != "" {
        var t := Swept(s, now);
        SweptKeeps(s, now, x);
        var i := FindPair(t, endpoint, model, 0);
        if i.None? {
          assert x in R.Apply(s, e);
        } else {
          var e' := t[i.value].(lastHeartbeat := now);
          PutKeeps(t, i.value, if managed && !e'.managed then e'.(managed := true, healthy := false) else e', x);
        }
      }
    case Heartbeat(id, now) =>
      var t := Swept(s, now);
      SweptKeeps(s, now, x);
      if Beats(t, id, now) {
        var i := FindId(t, id, 0).value;
        PutKeeps(t, i, t[i].(lastHeartbeat := now), x);
      }
    case Remove(id, now) =>
      var i := FindId(s, id, 0);
      if i.Some? && !s[i.value].removed { PutSweptKeeps(s, i.value, s[i.value].(removed := true), now, x); }
    case Record(id, ok, threshold) =>
      var i := FindId(s, id, 0);
      if i.Some? && !s[i.value].removed && s[i.value].managed { PutKeeps(s, i.value, Checked(s[i.value], ok, threshold), x); }
    case Acquire(model, now) =>
      var t := Swept(s, now);
      SweptKeeps(s, now, x);
      var i := Choice(t, model, now);
      if i.Some? { PutKeeps(t, i.value, t[i.value].(inFlight := t[i.value].inFlight + 1), x); }
    case Release(id, now) =>
      var i := FindId(s, id, 0);
      if i.Some? && s[i.value].inFlight > 0 {
        PutSweptKeeps(s, i.value, s[i.value].(inFlight := s[i.value].inFlight - 1), now, x);
      } else {
        SweptKeeps(s, now, x);
      }
    case Sweep(now) => SweptKeeps(s, now, x);
  }

  lemma PutSweptKeeps(s: Servers, i: nat, y: Entry, now: real, x: Entry)
    requires i < |s| && x in s && y.id == s[i].id && y.endpoint == s[i].endpoint && x.inFlight > 0
    requires x == s[i] ==> y.inFlight > 0
    ensures exists z :: z in Swept(s[i := y], now) && z.id == x.id && z.endpoint == x.endpoint
  {
    PutKeeps(s, i, y, x);
    var z :| z in s[i := y] && z.id == x.id && z.endpoint == x.endpoint && (z == x || (x == s[i] && z == y));
    SweptKeeps(s[i := y], now, z);
  }

  // ---- counts ------------------------------------------------------------------------------------

  lemma HolderCounts(s: Servers, requests: map<RequestId, Phase>, r: RequestId)
    requires Counted(s, requests) && r in requests
    ensures exists x :: x in s && x.id == requests[r].id && x.endpoint == requests[r].endpoint && x.inFlight > 0
  {
    var x :| x in s && x.id == requests[r].id && x.endpoint == requests[r].endpoint;
    assert r in Holders(requests, x.id);
    assert |Holders(requests, x.id)| > 0;
  }

  lemma NobodyHolds(s: Servers, requests: map<RequestId, Phase>, id: ServerId)
    requires Counted(s, requests) && forall x :: x in s ==> x.id != id
    ensures |Holders(requests, id)| == 0
  {
    forall r ensures r !in Holders(requests, id) { assert r in requests ==> Holds(s, requests[r]); }
    assert Holders(requests, id) == {};
  }

  /** Calls that neither acquire nor release leave every count and every held entry. */
  lemma OtherCounted(s: Servers, requests: map<RequestId, Phase>, e: R.Event)
    requires Counted(s, requests) && R.FreshId(s, e) && !e.Acquire? && !e.Release?
    ensures Counted(R.Apply(s, e), requests)
  {
    forall y | y in R.Apply(s, e) ensures y.inFlight == |Holders(requests, y.id)| {
      R.ApplyComes(s, e, y);
      if y !in s && !(exists x :: x in s && x.id == y.id && R.Becomes(x, e, y)) { NobodyHolds(s, requests, y.id); }
    }
    forall r | r in requests ensures Holds(R.Apply(s, e), requests[r]) {
      HolderCounts(s, requests, r);
      var x :| x in s && x.id == requests[r].id && x.endpoint == requests[r].endpoint && x.inFlight > 0;
      ApplyPersists(s, e, x);
    }
  }

  /** After an update in place, the updated entry is the only one with its id. */
  lemma OnlyOne(s: Servers, i: nat, y: Entry, z: Entry)
    requires R.AllApart(s) && i < |s| && y.id == s[i].id && z in s[i := y] && z.id == y.id
    ensures z == y
  {
    var j :| 0 <= j < |s| && s[i := y][j] == z;
    assert j < i ==> R.Apart(s[j], s[i]);
    assert i < j ==> R.Apart(s[i], s[j]);
  }

  lemma HoldersAdd(requests: map<RequestId, Phase>, r: RequestId, p: Phase, id: ServerId)
    requires r !in requests
    ensures |Holders(requests[r := p], id)| == |Holders(requests, id)| + if p.id == id then 1 else 0
  {
    assert Holders(requests[r := p], id) == Holders(requests, id) + if p.id == id then {r} else {};
  }

  lemma HoldersDrop(requests: map<RequestId, Phase>, r: RequestId, id: ServerId)
    requires r in requests
    ensures |Holders(requests, id)| == |Holders(requests - {r}, id)| + if requests[r].id == id then 1 else 0
  {
    assert Holders(requests, id) == Holders(requests - {r}, id) + if requests[r].id == id then {r} else {};
    assert r !in Holders(requests - {r}, id);
  }

  /** A change of phase keeps the server. */
  lemma HoldersSame(requests: map<RequestId, Phase>, r: RequestId, p: Phase)
    requires r in requests && p.id == requests[r].id && p.endpoint == requests[r].endpoint
    ensures forall id :: Holders(requests[r := p], id) == Holders(requests, id)
  {
    forall id ensures Holders(requests[r := p], id) == Holders(requests, id) {}
  }

  lemma PhaseCounted(s: Servers, requests: map<RequestId, Phase>, r: RequestId, p: Phase)
    requires Counted(s, requests) && r in requests && p.id == requests[r].id && p.endpoint == requests[r].endpoint
    ensures Counted(s, requests[r := p])
  {
    HoldersSame(requests, r, p);
    var m := requests[r := p];
    forall q | q in m ensures Holds(s, m[q]) { assert Holds(s, requests[q]); }
  }

  lemma AcquireCounted(s: Servers, requests: map<RequestId, Phase>, r: RequestId, model: string, now: real)
    requires R.Inv(s) && Counted(s, requests) && r !in requests && Choice(Swept(s, now), model, now).Some?
    ensures var t := Swept(s, now); var i := Choice(t, model, now).value;
            Counted(Acquired(s, model, now), requests[r := Got(t[i].id, t[i].endpoint)])
  {
    hide R.EntryOk, Swept, Holders, Best;
    var t := Swept(s, now);
    var i := Choice(t, model, now).value;
    var p := Got(t[i].id, t[i].endpoint);
    var a := Acquired(s, model, now);
    R.SweptApart(s, now);
    R.SweptHas(s, now, t[i]);
    var raised := t[i].(inFlight := t[i].inFlight + 1);
    assert a[i] == raised && raised in a;
    forall y | y in a ensures y.inFlight == |Holders(requests[r := p], y.id)| {
      HoldersAdd(requests, r, p, y.id);
      R.PutHas(t, i, raised, y);
      R.SweptHas(s, now, y);
      if y.id == p.id { OnlyOne(t, i, raised, y); }
    }
    var m := requests[r := p];
    forall q | q in m ensures Holds(a, m[q]) {
      if q != r {
        HolderCounts(s, requests, q);
        var x :| x in s && x.id == requests[q].id && x.endpoint == requests[q].endpoint && x.inFlight > 0;
        ApplyPersists(s, R.Acquire(model, now), x);
      }
    }
  }

  lemma ReleaseCounted(s: Servers, requests: map<RequestId, Phase>, r: RequestId, now: real)
    requires R.Inv(s) && Counted(s, requests) && r in requests
    ensures Counted(Released(s, requests[r].id, now), requests - {r})
  {
    hide R.EntryOk, Swept;
    var id := requests[r].id;
    HolderCounts(s, requests, r);
    var i := FindId(s, id, 0).value;
    assert s[i] in s && s[i].inFlight > 0 by { HoldersDrop(requests, r, id); }
    var lowered := s[i].(inFlight := s[i].inFlight - 1);
    var a := Released(s, id, now);
    forall y | y in a ensures y.inFlight == |Holders(requests - {r}, y.id)| {
      HoldersDrop(requests, r, y.id);
      R.SweptHas(s[i := lowered], now, y);
      R.PutHas(s, i, lowered, y);
      if y.id == id { OnlyOne(s, i, lowered, y); }
    }
    forall q | q in requests - {r} ensures Holds(a, requests[q]) {
      HolderCounts(s, requests, q);
      var x :| x in s && x.id == requests[q].id && x.endpoint == requests[q].endpoint && x.inFlight > 0;
      if x.id == id {
        HoldersDrop(requests, r, id);
        assert q in Holders(requests - {r}, id);
      }
      ApplyPersists(s, R.Release(id, now), x);
    }
  }

  // ---- every step keeps the invariant ------------------------------------------------------------

  lemma NextCounted(c: Client, e: Event)
    requires Inv(c) && FreshId(c, e)
    ensures R.Inv(Next(c, e).servers) && Counted(Next(c, e).servers, Next(c, e).requests)
  {
    hide ChannelsOk, Counted, R.Inv, Swept, Acquired, Released;
    match e
    case Acquire(r, model, now) =>
      R.ApplyInv(c.servers, R.Acquire(model, now));
      if r !in c.requests {
        if Choice(Swept(c.servers, now), model, now).Some? {
          AcquireCounted(c.servers, c.requests, r, model, now);
        } else {
          R.ApplyInv(c.servers, R.Sweep(now));
          OtherCounted(c.servers, c.requests, R.Sweep(now));
        }
      }
    case Snapshot(r, now) =>
      R.ApplyInv(c.servers, R.Sweep(now));
      OtherCounted(c.servers, c.requests, R.Sweep(now));
      if r in c.requests && c.requests[r].Got? && c.lock.None? {
        PhaseCounted(Swept(c.servers, now), c.requests, r, Next(c, e).requests[r]);
      }
    case Close(r, endpoint) => if Next(c, e) != c { PhaseCounted(c.servers, c.requests, r, Next(c, e).requests[r]); }
    case Open(r) => if Next(c, e) != c { PhaseCounted(c.servers, c.requests, r, Next(c, e).requests[r]); }
    case Finish(r, now) =>
      if r in c.requests {
        R.ApplyInv(c.servers, R.Release(c.requests[r].id, now));
        ReleaseCounted(c.servers, c.requests, r, now);
      }
    case Other(call) =>
      if !call.Acquire? && !call.Release? {
        R.ApplyInv(c.servers, call);
        OtherCounted(c.servers, c.requests, call);
      }
  }

  /** A channel in use belongs to an endpoint the registry still lists. */
  lemma UsedIsListed(s: Servers, requests: map<RequestId, Phase>, r: RequestId)
    requires Counted(s, requests) && r in requests
    ensures requests[r].endpoint in EndpointsOf(s)
  {
    assert Holds(s, requests[r]);
  }

  lemma SnapshotChannels(c: Client, r: RequestId, now: real)
    requires Inv(c) && r in c.requests && c.requests[r].Got? && c.lock.None?
    ensures ChannelsOk(Next(c, Snapshot(r, now)))
  {
    hide Counted, R.Inv, EndpointsOf, Swept;
    var t := Swept(c.servers, now);
    OtherCounted(c.servers, c.requests, R.Sweep(now));
    forall q | q in c.requests ensures c.requests[q].endpoint in EndpointsOf(t) { UsedIsListed(t, c.requests, q); }
  }

  lemma OpenChannels(c: Client, r: RequestId)
    requires ChannelsOk(c)
    ensures ChannelsOk(Next(c, Open(r)))
  {}

  lemma CloseChannels(c: Client, r: RequestId, endpoint: string)
    requires ChannelsOk(c)
    ensures ChannelsOk(Next(c, Close(r, endpoint)))
  {}

  lemma FinishChannels(c: Client, r: RequestId, now: real)
    requires ChannelsOk(c)
    ensures ChannelsOk(Next(c, Finish(r, now)))
  {}

  lemma NextChannels(c: Client, e: Event)
    requires Inv(c)
    ensures ChannelsOk(Next(c, e))
  {
    hide Counted, R.Inv;
    match e
    case Acquire(_, _, _) =>
    case Snapshot(r, now) => if r in c.requests && c.requests[r].Got? && c.lock.None? { SnapshotChannels(c, r, now); }
    case Close(r, endpoint) => CloseChannels(c, r, endpoint);
    case Open(r) => OpenChannels(c, r);
    case Finish(r, now) => FinishChannels(c, r, now);
    case Other(_) =>
  }

  /** Over all interleavings of request steps with registrations, heartbeats, removals, expiry and health
      results: each entry's in-flight count is the number of its outstanding requests, every server acquired
      and not released is still registered, and no request is on a channel that was closed. */
  lemma {:induction false} RunSafe(c: Client, es: seq<Event>)
    requires Inv(c) && FreshIds(c, es)
    ensures var d := Run(c, es);
            && Inv(d)
            && (forall x :: x in d.servers ==> x.inFlight == |Holders(d.requests, x.id)|)
            && (forall r :: r in d.requests ==> Holds(d.servers, d.requests[r]))
            && (forall r :: r in d.requests && d.requests[r].Using? ==> d.requests[r].channel !in d.closed)
    decreases |es|
  {
    if es != [] {
      NextCounted(c, es[0]);
      NextChannels(c, es[0]);
      RunSafe(Next(c, es[0]), es[1..]);
    }
  }

  ghost predicate FreshIds(c: Client, es: seq<Event>)
    decreases |es|
  {
    es == [] || (FreshId(c, es[0]) && FreshIds(Next(c, es[0]), es[1..]))
  }

  /** The same from a new client and a new registry on. */
  lemma AlwaysSafe(es: seq<Event>)
    ensures FreshIds(INITIAL, es) ==>
              var d := Run(INITIAL, es);
              && (forall x :: x in d.servers ==> x.inFlight == |Holders(d.requests, x.id)|)
              && (forall r :: r in d.requests ==> Holds(d.servers, d.requests[r]))
              && (forall r :: r in d.requests && d.requests[r].Using? ==> d.requests[r].channel !in d.closed)
  {
    assert Inv(INITIAL);
    if FreshIds(INITIAL, es) { RunSafe(INITIAL, es); }
  }

  // ---- the section under the client's lock, as one method ----------------------------------------

  /** The channels of `ModelInferenceClient`, with the registry it reads. */
  class ChannelTable {
    const registry: ModelRegistryService
    var channels: map<string, ChannelId>
    var nextChannel: ChannelId
    var closed: set<ChannelId>

    constructor (registry: ModelRegistryService)
      ensures this.registry == registry && channels == map[] && closed == {}
    {
      this.registry, channels, nextChannel, closed := registry, map[], 0, {};
    }

    /** Closes every channel whose endpoint the registry no longer lists, and no other; then returns the
        channel of the endpoint, opening one if there is none. */
    method ChannelFor(endpoint: string, now: real) returns (channel: ChannelId)
      modifies this, registry
      ensures registry.servers == Swept(old(registry.servers), now)
      ensures endpoint in channels && channels[endpoint] == channel
      ensures var listed := EndpointsOf(registry.servers);
              && closed == old(closed) + ChannelsOf(old(channels), old(channels).Keys - listed)
              && channels.Keys == (old(channels).Keys * listed) + {endpoint}
              && (forall e :: e in old(channels) && e in listed ==> channels[e] == old(channels)[e])
              && (endpoint !in old(channels) || endpoint !in listed ==> channel == old(nextChannel) && nextChannel == channel + 1)
    {
      hide Swept;
      var listed := registry.Endpoints(now);
      CloseStale(listed);
      if endpoint !in channels {
        channels := channels[endpoint := nextChannel];
        nextChannel := nextChannel + 1;
      }
      channel := channels[endpoint];
    }

    method CloseStale(listed: set<string>)
      modifies `channels, `closed
      ensures closed == old(closed) + ChannelsOf(old(channels), old(channels).Keys - listed)
      ensures channels == old(channels) - (old(channels).Keys - listed)
    {
      hide ChannelsOf;
      var stale := channels.Keys - listed;
      ghost var m, all, done := channels, stale, {};
      ChannelsNone(m);
      while stale != {}
        invariant all == m.Keys - listed && done <= all && stale + done == all && stale !! done
        invariant channels == m - done && closed == old(closed) + ChannelsOf(m, done)
        decreases stale
      {
        var e :| e in stale;
        CloseStep(m, all, done, e, old(closed));
        closed := closed + {channels[e]};
        channels := channels - {e};
        stale := stale - {e};
        done := done + {e};
        assert stale + done == all;
      }
      assert done == all;
    }
  }

  function ChannelsOf(m: map<string, ChannelId>, keys: set<string>): set<ChannelId>
    requires keys <= m.Keys
  {
    set e | e in keys :: m[e]
  }

  lemma CloseStep(m: map<string, ChannelId>, all: set<string>, done: set<string>, e: string, closed: set<ChannelId>)
    requires all <= m.Keys && done <= all && e in all && e !in done
    ensures (m - done)[e] == m[e] && m - done - {e} == m - (done + {e})
    ensures closed + ChannelsOf(m, done) + {m[e]} == closed + ChannelsOf(m, done + {e})
  {
    hide ChannelsOf;
    ChannelsAdd(m, done, e);
    assert closed + ChannelsOf(m, done) + {m[e]} == closed + (ChannelsOf(m, done) + {m[e]});
  }

  lemma ChannelsNone(m: map<string, ChannelId>)
    ensures ChannelsOf(m, {}) == {}
  {}

  lemma ChannelsAdd(m: map<string, ChannelId>, keys: set<string>, e: string)
    requires keys <= m.Keys && e in m
    ensures ChannelsOf(m, keys + {e}) == ChannelsOf(m, keys) + {m[e]}
    ensures m - (keys + {e}) == m - keys - {e}
  {
    forall n ensures n in ChannelsOf(m, keys + {e}) <==> n in ChannelsOf(m, keys) + {m[e]} {
      if n in ChannelsOf(m, keys) {
        var k :| k in keys && m[k] == n;
        assert k in keys + {e};
      }
      if n == m[e] { assert e in keys + {e}; }
    }
  }
}
