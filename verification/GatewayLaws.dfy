/** What each step of a request does, and what the section under the client's lock amounts to whatever comes in
    between. */
module GatewayLaws {
  import opened Basics
  import opened Registry
  import opened GatewayClient
  import R = RegistryRuns
  import L = RegistryLaws

  // ---- single steps ------------------------------------------------------------------------------

  /** A request gets a server exactly when the registry has one that may serve its model; it gets the one the
      registry chooses, and its channels are not touched. */
  lemma AcquireLaw(c: Client, r: RequestId, model: string, now: real)
    requires R.AllApart(c.servers) && r !in c.requests
    ensures var d := Next(c, Acquire(r, model, now)); var i := Choice(Swept(c.servers, now), model, now);
            && (r in d.requests <==> exists x :: x in c.servers && L.MayServe(x, model, now))
            && (r in d.requests <==> i.Some?)
            && (i.Some? ==> var x := Swept(c.servers, now)[i.value];
                            d == c.(servers := Acquired(c.servers, model, now), requests := c.requests[r := Got(x.id, x.endpoint)]))
            && (i.None? ==> d == c.(servers := Swept(c.servers, now)))
  {
    hide Swept, Acquired;
    L.AcquireLaw(c.servers, model, now);
  }

  /** A request that finishes, at whatever point, takes its one request off its server and, if it has the lock,
      gives it back; its server had a request to take off. */
  lemma FinishLaw(c: Client, r: RequestId, now: real)
    requires Counted(c.servers, c.requests) && r in c.requests
    ensures var d := Next(c, Finish(r, now));
            && d == c.(servers := Released(c.servers, c.requests[r].id, now), requests := c.requests - {r}, lock := d.lock)
            && d.lock != Some(r) && (c.lock != Some(r) ==> d.lock == c.lock)
    ensures exists x :: x in c.servers && x.id == c.requests[r].id && x.inFlight > 0
  {
    HolderCounts(c.servers, c.requests, r);
  }

  /** With the lock free a request takes it, and finds stale exactly the channels to endpoints no server that stays
      is registered under. */
  lemma SnapshotLaw(c: Client, r: RequestId, now: real)
    requires r in c.requests && c.requests[r].Got? && c.lock.None?
    ensures var d, p := Next(c, Snapshot(r, now)), c.requests[r];
            && r in d.requests && d.requests[r].Pruning? && d.requests[r].id == p.id && d.requests[r].endpoint == p.endpoint
            && (forall e :: e in d.requests[r].stale <==>
                  e in c.channels && forall x :: x in c.servers && !L.Idle(x, now) ==> x.endpoint != e)
            && d == c.(servers := Swept(c.servers, now), lock := Some(r), requests := c.requests[r := d.requests[r]])
  {
    L.SweptIff(c.servers, now);
    forall e ensures e in EndpointsOf(Swept(c.servers, now)) <==> exists x :: x in c.servers && !L.Idle(x, now) && x.endpoint == e {}
  }

  // ---- the section under the lock ----------------------------------------------------------------

  /** Request `r` has the lock since `c`, has found `all` stale, and has closed those it no longer lists. */
  ghost predicate Midway(c: Client, d: Client, r: RequestId, all: set<string>) {
    && all <= c.channels.Keys && d.lock == Some(r) && r in d.requests && d.requests[r].Pruning? && d.requests[r].stale <= all
    && d.channels == c.channels - (all - d.requests[r].stale) && d.nextChannel == c.nextChannel
    && d.closed == c.closed + ChannelsOf(c.channels, all - d.requests[r].stale)
  }

  /** The step neither opens the channel of request `r` nor finishes it. */
  predicate Within(e: Event, r: RequestId) {
    !(e.Open? && e.r == r) && !(e.Finish? && e.r == r)
  }

  lemma StepMidway(c: Client, d: Client, r: RequestId, all: set<string>, e: Event)
    requires Midway(c, d, r, all) && ChannelsOk(d) && Within(e, r)
    ensures Midway(c, Next(d, e), r, all)
    ensures r in Next(d, e).requests && r in d.requests && Next(d, e).requests[r].endpoint == d.requests[r].endpoint
         && Next(d, e).requests[r].id == d.requests[r].id
  {
    hide ChannelsOf;
    if e.Close? && e.r == r {
      var s := d.requests[r].stale;
      if e.endpoint in s && e.endpoint in d.channels {
        CloseStep(c.channels, all, all - s, e.endpoint, c.closed);
        assert all - (s - {e.endpoint}) == (all - s) + {e.endpoint};
      }
    }
  }

  lemma {:induction false} RunMidway(c: Client, d: Client, r: RequestId, all: set<string>, es: seq<Event>)
    requires Midway(c, d, r, all) && Inv(d) && FreshIds(d, es) && forall k :: 0 <= k < |es| ==> Within(es[k], r)
    ensures Midway(c, Run(d, es), r, all) && Inv(Run(d, es))
    ensures d.requests[r].endpoint == Run(d, es).requests[r].endpoint && d.requests[r].id == Run(d, es).requests[r].id
    decreases |es|
  {
    hide Midway, Inv, Next, Within;
    if es != [] {
      StepIn(c, d, r, all, es[0]);
      RunMidway(c, Next(d, es[0]), r, all, es[1..]);
    } else {
      MidwayHas(c, d, r, all);
    }
  }

  lemma MidwayHas(c: Client, d: Client, r: RequestId, all: set<string>)
    requires Midway(c, d, r, all)
    ensures r in d.requests
  {}

  lemma StepIn(c: Client, d: Client, r: RequestId, all: set<string>, e: Event)
    requires Midway(c, d, r, all) && Inv(d) && FreshId(d, e) && Within(e, r)
    ensures Midway(c, Next(d, e), r, all) && Inv(Next(d, e))
    ensures r in Next(d, e).requests && r in d.requests && Next(d, e).requests[r].endpoint == d.requests[r].endpoint
         && Next(d, e).requests[r].id == d.requests[r].id
  {
    StepMidway(c, d, r, all, e);
    NextCounted(d, e);
    NextChannels(d, e);
  }

  lemma SnapshotMidway(c: Client, r: RequestId, now: real)
    requires r in c.requests && c.requests[r].Got? && c.lock.None?
    ensures Midway(c, Next(c, Snapshot(r, now)), r, c.channels.Keys - EndpointsOf(Swept(c.servers, now)))
  {
    hide ChannelsOf, Swept, EndpointsOf;
    var d := Next(c, Snapshot(r, now));
    ChannelsNone(c.channels);
    var all := d.requests[r].stale;
    assert all - all == {} && c.channels - {} == c.channels;
  }

  /** From taking the lock to opening the channel, whatever steps of other requests and calls on the registry come in
      between, the section closes every channel whose endpoint was not listed when it took the lock, and no other; it
      ends once all are closed, with the request on the channel of its endpoint, opened if there was none left. It
      does what the method `ChannelFor` does in one go. */
  lemma SectionLaw(c: Client, r: RequestId, now: real, es: seq<Event>)
    requires Inv(c) && r in c.requests && c.requests[r].Got? && c.lock.None?
    requires FreshIds(Next(c, Snapshot(r, now)), es) && forall k :: 0 <= k < |es| ==> Within(es[k], r)
    ensures var listed, endpoint := EndpointsOf(Swept(c.servers, now)), c.requests[r].endpoint;
            var d := Run(Next(c, Snapshot(r, now)), es);
            var f := Next(d, Open(r));
            && d.lock == Some(r) && r in d.requests && d.requests[r].Pruning? && r in f.requests
            && (f.requests[r].Using? <==> d.channels.Keys <= listed)
            && (f.requests[r].Using? ==>
                  && f.lock.None? && endpoint in f.channels && f.requests[r] == Using(c.requests[r].id, endpoint, f.channels[endpoint])
                  && f.closed == c.closed + ChannelsOf(c.channels, c.channels.Keys - listed)
                  && f.channels.Keys == (c.channels.Keys * listed) + {endpoint}
                  && (forall e :: e in c.channels && e in listed ==> f.channels[e] == c.channels[e])
                  && (endpoint !in c.channels || endpoint !in listed ==>
                        f.channels[endpoint] == c.nextChannel && f.nextChannel == c.nextChannel + 1))
            && (!f.requests[r].Using? ==> f == d)
  {
    hide Inv, ChannelsOf, Swept, EndpointsOf, Within, Run;
    var listed := EndpointsOf(Swept(c.servers, now));
    var e := Next(c, Snapshot(r, now));
    SnapshotMidway(c, r, now);
    NextInv(c, Snapshot(r, now));
    RunMidway(c, e, r, c.channels.Keys - listed, es);
    OpenLaw(c, Run(e, es), r, listed);
  }

  lemma NextInv(c: Client, e: Event)
    requires Inv(c) && FreshId(c, e)
    ensures Inv(Next(c, e))
  {
    NextCounted(c, e);
    NextChannels(c, e);
  }

  lemma OpenLaw(c: Client, d: Client, r: RequestId, listed: set<string>)
    requires Midway(c, d, r, c.channels.Keys - listed)
    ensures var f, endpoint := Next(d, Open(r)), d.requests[r].endpoint;
            && r in f.requests
            && (f.requests[r].Using? <==> d.channels.Keys <= listed)
            && (f.requests[r].Using? ==>
                  && f.lock.None? && endpoint in f.channels && f.requests[r] == Using(d.requests[r].id, endpoint, f.channels[endpoint])
                  && f.closed == c.closed + ChannelsOf(c.channels, c.channels.Keys - listed)
                  && f.channels.Keys == (c.channels.Keys * listed) + {endpoint}
                  && (forall e :: e in c.channels && e in listed ==> f.channels[e] == c.channels[e])
                  && (endpoint !in c.channels || endpoint !in listed ==>
                        f.channels[endpoint] == c.nextChannel && f.nextChannel == c.nextChannel + 1))
            && (!f.requests[r].Using? ==> f == d)
  {
    hide ChannelsOf;
    var all, s := c.channels.Keys - listed, d.requests[r].stale;
    assert d.channels.Keys == c.channels.Keys - (all - s);
    assert s == d.channels.Keys - listed;
    if s == {} { assert all - s == all; }
  }

  // ---- the registry underneath -------------------------------------------------------------------

  /** The registry call a step makes, if it makes one. */
  function CallOf(c: Client, e: Event): seq<R.Event> {
    match e
    case Acquire(r, model, now) => if r in c.requests then [] else [R.Acquire(model, now)]
    case Snapshot(r, now) => if r in c.requests && c.requests[r].Got? && c.lock.None? then [R.Sweep(now)] else []
    case Finish(r, now) => if r in c.requests then [R.Release(c.requests[r].id, now)] else []
    case Other(call) => if call.Acquire? || call.Release? then [] else [call]
    case _ => []
  }

  function CallsOf(c: Client, es: seq<Event>): seq<R.Event>
    decreases |es|
  {
    if es == [] then [] else CallOf(c, es[0]) + CallsOf(Next(c, es[0]), es[1..])
  }

  lemma StepIsCalls(c: Client, e: Event, rest: seq<R.Event>)
    ensures R.Run(c.servers, CallOf(c, e) + rest) == R.Run(Next(c, e).servers, rest)
  {
    hide Swept, Released;
    var calls := CallOf(c, e);
    if calls == [] {
      assert calls + rest == rest;
    } else {
      assert Next(c, e).servers == R.Apply(c.servers, calls[0]);
      assert (calls + rest)[0] == calls[0] && (calls + rest)[1..] == rest;
    }
  }

  /** Under every interleaving of requests the registry goes through a run of its own calls, so whatever holds of its
      runs holds here. */
  lemma {:induction false} RegistryIsRun(c: Client, es: seq<Event>)
    ensures Run(c, es).servers == R.Run(c.servers, CallsOf(c, es))
    decreases |es|
  {
    hide Next, CallOf;
    if es != [] {
      StepIsCalls(c, es[0], CallsOf(Next(c, es[0]), es[1..]));
      RegistryIsRun(Next(c, es[0]), es[1..]);
    }
  }

  // ---- the lock comes free -----------------------------------------------------------------------

  /** Whoever has the lock is at work under it, and what is left to close is there. */
  ghost predicate LockOk(c: Client) {
    c.lock.Some? ==>
      c.lock.value in c.requests && c.requests[c.lock.value].Pruning? && c.requests[c.lock.value].stale <= c.channels.Keys
  }

  lemma StepLockOk(c: Client, e: Event)
    requires ChannelsOk(c) && LockOk(c)
    ensures LockOk(Next(c, e))
  {}

  lemma NextLockOk(c: Client, e: Event)
    requires Inv(c) && LockOk(c) && FreshId(c, e)
    ensures Inv(Next(c, e)) && LockOk(Next(c, e))
  {
    hide LockOk;
    NextInv(c, e);
    StepLockOk(c, e);
  }

  predicate OwnStep(e: Event, r: RequestId) {
    (e.Close? && e.r == r) || e == Open(r)
  }

  /** In every interleaving the request that has the lock can finish its section by its own steps alone. */
  lemma {:induction false} RunLockOk(c: Client, es: seq<Event>)
    requires Inv(c) && LockOk(c) && FreshIds(c, es)
    ensures LockOk(Run(c, es))
    ensures Run(c, es).lock.Some? ==> exists own :: Frees(Run(c, es), own, Run(c, es).lock.value)
    decreases |es|
  {
    hide Inv, LockOk, Next;
    if es == [] {
      if c.lock.Some? { HolderFrees(c, c.lock.value); }
    } else {
      NextLockOk(c, es[0]);
      RunLockOk(Next(c, es[0]), es[1..]);
    }
  }

  /** Steps of request `r` alone, after which it has a channel and the lock is free. */
  ghost predicate Frees(c: Client, own: seq<Event>, r: RequestId) {
    && (forall k :: 0 <= k < |own| ==> OwnStep(own[k], r))
    && Run(c, own).lock.None? && r in Run(c, own).requests && Run(c, own).requests[r].Using?
  }

  lemma {:induction false} HolderFrees(c: Client, r: RequestId)
    requires LockOk(c) && c.lock == Some(r)
    ensures exists own :: Frees(c, own, r)
    decreases |c.requests[r].stale|
  {
    var s := c.requests[r].stale;
    if s == {} {
      assert Run(c, [Open(r)]) == Run(Next(c, Open(r)), []);
      assert Frees(c, [Open(r)], r);
    } else {
      var e :| e in s;
      var d := Next(c, Close(r, e));
      HolderFrees(d, r);
      var own :| Frees(d, own, r);
      OwnFirst(c, d, r, Close(r, e), own);
    }
  }

  lemma OwnFirst(c: Client, d: Client, r: RequestId, e: Event, own: seq<Event>)
    requires OwnStep(e, r) && d == Next(c, e) && Frees(d, own, r)
    ensures Frees(c, [e] + own, r)
  {
    hide Next;
    assert ([e] + own)[1..] == own;
    assert Run(c, [e] + own) == Run(d, own);
  }
}
