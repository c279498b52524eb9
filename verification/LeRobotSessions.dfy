/** LeRobot sessions: any number of calls interleaved at the points where they take a lock.

    A log records what happened; an observation is named by the position of its acceptance in the log. */
module LeRobotSessions {

  import opened Basics

  type ClientId = nat
  type SessionId = nat
  type SetupId = nat
  type CallId = nat
  type Observation = nat

  /** `_SessionState`. Setups are compared by identity. */
  datatype Session = Session(pending: Option<Observation>, setup: Option<SetupId>, closed: bool)

  datatype Entry =
    | Reset(session: SessionId)
    | Installed(session: SessionId, setup: SetupId)
    | Accepted(session: SessionId, setup: SetupId)
    | Consumed(obs: Observation)
    | Returned(obs: Observation)

  /** Where a call is: it has looked its session up; it is sending an observation for a setup; it has taken
      an observation and is inferring. */
  datatype Phase = Looked(session: SessionId) | Sending(session: SessionId, setup: SetupId) | Acting(session: SessionId, obs: Observation)

  datatype State = State(sessions: map<ClientId, SessionId>, objects: seq<Session>, calls: map<CallId, Phase>,
                         nextSetup: SetupId, log: seq<Entry>)

  const INITIAL := State(map[], [], map[], 0, [])

  datatype Event =
    | Ready(client: ClientId)
    | Look(call: CallId, client: ClientId)
    | CommitSetup(call: CallId)
    | ReadSetup(call: CallId)
    | CommitObservation(call: CallId)
    | Take(call: CallId)
    | Return(call: CallId)
    | Abort(call: CallId)

  function Without(s: State, call: CallId): State { s.(calls := s.calls - {call}) }

  function Put(s: State, id: SessionId, x: Session): State
    requires id < |s.objects|
  {
    s.(objects := s.objects[id := x])
  }

  function Logged(s: State, e: Entry): State { s.(log := s.log + [e]) }

  predicate HasSession(s: State, call: CallId) {
    call in s.calls && s.calls[call].session < |s.objects|
  }

  /** One section under a lock. A call that aborts is gone; a step that does not apply changes nothing. */
  function Next(s: State, e: Event): State {
    match e
    case Ready(client) =>
      var reset := if client in s.sessions && s.sessions[client] < |s.objects|
                   then Logged(Put(s, s.sessions[client], Session(None, None, true)), Reset(s.sessions[client]))
                   else s;
      reset.(sessions := s.sessions[client := |s.objects|], objects := reset.objects + [Session(None, None, false)])
    case Look(call, client) =>
      if call in s.calls || client !in s.sessions then s else s.(calls := s.calls[call := Looked(s.sessions[client])])
    case CommitSetup(call) =>
      if !HasSession(s, call) || !s.calls[call].Looked? then s else
        var id := s.calls[call].session;
        if s.objects[id].closed then Without(s, call)
        else Logged(Put(Without(s, call), id, Session(None, Some(s.nextSetup), false)), Installed(id, s.nextSetup)).(nextSetup := s.nextSetup + 1)
    case ReadSetup(call) =>
      if !HasSession(s, call) || !s.calls[call].Looked? then s else
        var id := s.calls[call].session;
        if s.objects[id].setup.None? then Without(s, call)
        else s.(calls := s.calls[call := Sending(id, s.objects[id].setup.value)])
    case CommitObservation(call) =>
      if !HasSession(s, call) || !s.calls[call].Sending? then s else
        var id, setup := s.calls[call].session, s.calls[call].setup;
        if s.objects[id].closed || s.objects[id].setup != Some(setup) then Without(s, call)
        else Logged(Put(Without(s, call), id, s.objects[id].(pending := Some(|s.log|))), Accepted(id, setup))
    case Take(call) =>
      if !HasSession(s, call) || !s.calls[call].Looked? then s else
        var id := s.calls[call].session;
        if s.objects[id].closed || s.objects[id].pending.None? then Without(s, call)
        else
          var o := s.objects[id].pending.value;
          Logged(Put(s, id, s.objects[id].(pending := None)), Consumed(o)).(calls := s.calls[call := Acting(id, o)])
    case Return(call) =>
      if !HasSession(s, call) || !s.calls[call].Acting? then s else
        var id, o := s.calls[call].session, s.calls[call].obs;
        if o < |s.log| && s.log[o].Accepted? && !s.objects[id].closed && s.objects[id].setup == Some(s.log[o].setup)
        then Logged(Without(s, call), Returned(o))
        else Without(s, call)
    case Abort(call) => Without(s, call)
  }

  function Run(s: State, es: seq<Event>): State
    decreases |es|
  {
    if es == [] then s else Run(Next(s, es[0]), es[1..])
  }

  // ---- the invariant -----------------------------------------------------------------------------

  /** The entry replaces the session or its setup. */
  predicate Changes(e: Entry, id: SessionId) {
    e == Reset(id) || (e.Installed? && e.session == id)
  }

  /** Nothing replaced session `id` or its setup between two positions of the log. */
  ghost predicate Quiet(log: seq<Entry>, id: SessionId, from: nat, to: nat) {
    to <= |log| && forall j :: from <= j < to ==> !Changes(log[j], id)
  }

  /** No observation was accepted on the session between two positions. */
  ghost predicate Latest(log: seq<Entry>, id: SessionId, from: nat, to: nat) {
    to <= |log| && forall j :: from < j < to ==> !(log[j].Accepted? && log[j].session == id)
  }

  ghost predicate AcceptedAt(log: seq<Entry>, o: Observation, id: SessionId) {
    o < |log| && log[o].Accepted? && log[o].session == id
  }

  /** A waiting observation belongs to the open session's current setup, is the last one accepted, was not
      consumed, and nothing changed since. */
  ghost predicate PendingOk(s: State, id: SessionId)
    requires id < |s.objects|
  {
    var x := s.objects[id];
    x.pending.Some? ==>
      && AcceptedAt(s.log, x.pending.value, id)
      && !x.closed && x.setup == Some(s.log[x.pending.value].setup)
      && Quiet(s.log, id, x.pending.value, |s.log|) && Latest(s.log, id, x.pending.value, |s.log|)
      && Consumed(x.pending.value) !in s.log
  }

  /** An observation being worked on: unless the setup it came with was replaced, nothing changed since. */
  ghost predicate ActingOk(s: State, p: Phase) {
    p.Acting? && p.session < |s.objects| ==>
      && AcceptedAt(s.log, p.obs, p.session) && Consumed(p.obs) in s.log
      && (s.objects[p.session].setup == Some(s.log[p.obs].setup) ==> Quiet(s.log, p.session, p.obs, |s.log|))
  }

  /** The entry consumes an accepted observation, the latest of its session, that no earlier entry consumed. */
  ghost predicate ConsumesLatest(log: seq<Entry>, k: nat)
    requires k < |log|
  {
    log[k].Consumed? ==>
      var o := log[k].obs;
      && o < k && log[o].Accepted? && Quiet(log, log[o].session, o, k) && Latest(log, log[o].session, o, k)
      && forall j :: 0 <= j < k ==> log[j] != log[k]
  }

  /** The entry returns actions for an accepted and consumed observation since whose acceptance neither a
      Ready nor a new setup came. */
  ghost predicate ReturnsCurrent(log: seq<Entry>, k: nat)
    requires k < |log|
  {
    log[k].Returned? ==>
      var o := log[k].obs;
      && o < k && log[o].Accepted? && Quiet(log, log[o].session, o, k)
      && exists j :: o < j < k && log[j] == Consumed(o)
  }

  ghost predicate EntryOk(log: seq<Entry>, k: nat)
    requires k < |log|
  {
    ConsumesLatest(log, k) && ReturnsCurrent(log, k)
  }

  /** Setups are issued once: a current one was issued, and so was every accepted one. */
  ghost predicate SetupsOk(s: State) {
    && (forall id :: 0 <= id < |s.objects| ==>
          (s.objects[id].setup.Some? ==> s.objects[id].setup.value < s.nextSetup) && (s.objects[id].closed ==> s.objects[id].setup.None?))
    && (forall k :: 0 <= k < |s.log| && s.log[k].Accepted? ==> s.log[k].setup < s.nextSetup)
  }

  ghost predicate Inv(s: State) {
    && SetupsOk(s)
    && (forall id :: 0 <= id < |s.objects| ==> PendingOk(s, id))
    && (forall call :: call in s.calls ==> ActingOk(s, s.calls[call]))
    && (forall k :: 0 <= k < |s.log| ==> EntryOk(s.log, k))
    && (forall client :: client in s.sessions ==> s.sessions[client] < |s.objects|)
    && (forall call :: call in s.calls ==> s.calls[call].session < |s.objects|)
  }

  // ---- appending to the log ----------------------------------------------------------------------

  lemma EntriesKept(log: seq<Entry>, e: Entry)
    requires forall k :: 0 <= k < |log| ==> EntryOk(log, k)
    ensures forall k :: 0 <= k < |log| ==> EntryOk(log + [e], k)
  {
    forall k | 0 <= k < |log| ensures EntryOk(log + [e], k) {
      var r := log + [e];
      assert EntryOk(log, k);
      if log[k].Returned? {
        var j :| log[k].obs < j < k && log[j] == Consumed(log[k].obs);
        assert r[j] == Consumed(log[k].obs);
      }
    }
  }

  /** An entry that changes nothing on session `id` and accepts nothing there leaves a waiting observation
      as it was, unless it consumes it. */
  lemma PendingKept(s: State, id: SessionId, e: Entry, r: State)
    requires id < |s.objects| && PendingOk(s, id) && id < |r.objects| && r.objects[id] == s.objects[id] && r.log == s.log + [e]
    requires !Changes(e, id) && !(e.Accepted? && e.session == id)
    requires s.objects[id].pending.Some? ==> e != Consumed(s.objects[id].pending.value)
    ensures PendingOk(r, id)
  {}

  /** Two sessions wait for different observations. */
  lemma OthersWait(s: State, id: SessionId, k: SessionId)
    requires id < |s.objects| && k < |s.objects| && id != k && PendingOk(s, id) && PendingOk(s, k)
    ensures s.objects[id].pending.Some? && s.objects[k].pending.Some? ==> s.objects[id].pending.value != s.objects[k].pending.value
  {}

  lemma ActingKept(s: State, p: Phase, e: Entry, r: State)
    requires ActingOk(s, p) && SetupsOk(s) && |s.objects| <= |r.objects| && r.log == s.log + [e]
    requires p.session < |s.objects|
    requires Changes(e, p.session) ==> r.objects[p.session].setup.None? || r.objects[p.session].setup == Some(s.nextSetup)
    requires !Changes(e, p.session) ==> r.objects[p.session].setup == s.objects[p.session].setup
    ensures ActingOk(r, p)
  {}

  /** A step that only moves calls. */
  lemma CallsOnly(s: State, r: State)
    requires Inv(s) && r == s.(calls := r.calls)
    requires forall q :: q in r.calls ==> (q in s.calls && r.calls[q] == s.calls[q]) || (!r.calls[q].Acting? && r.calls[q].session < |s.objects|)
    ensures Inv(r)
  {
    forall id | 0 <= id < |r.objects| ensures PendingOk(r, id) { assert PendingOk(s, id); }
    forall q | q in r.calls ensures ActingOk(r, r.calls[q]) { if r.calls[q].Acting? { assert ActingOk(s, s.calls[q]); } }
    forall k | 0 <= k < |r.log| ensures EntryOk(r.log, k) { assert EntryOk(s.log, k); }
  }

  lemma NextReady(s: State, client: ClientId)
    requires Inv(s)
    ensures Inv(Next(s, Ready(client)))
  {
    var r := Next(s, Ready(client));
    if client in s.sessions {
      var previous := s.sessions[client];
      EntriesKept(s.log, Reset(previous));
      forall id | 0 <= id < |r.objects| ensures PendingOk(r, id) {
        if id < |s.objects| && id != previous {
          PendingKept(s, id, Reset(previous), r);
        }
      }
      forall call | call in r.calls ensures ActingOk(r, r.calls[call]) { ActingKept(s, s.calls[call], Reset(previous), r); }
    } else {
      forall id | 0 <= id < |r.objects| ensures PendingOk(r, id) { if id < |s.objects| { assert PendingOk(s, id); } }
      forall call | call in r.calls ensures ActingOk(r, r.calls[call]) { assert ActingOk(s, s.calls[call]); }
    }
  }

  lemma NextSetup(s: State, call: CallId)
    requires Inv(s)
    ensures Inv(Next(s, CommitSetup(call)))
  {
    var r := Next(s, CommitSetup(call));
    if call in s.calls && s.calls[call].Looked? && !s.objects[s.calls[call].session].closed {
      var id := s.calls[call].session;
      var e := Installed(id, s.nextSetup);
      EntriesKept(s.log, e);
      forall k | 0 <= k < |r.objects| ensures PendingOk(r, k) { if k != id { PendingKept(s, k, e, r); } }
      forall q | q in r.calls ensures ActingOk(r, r.calls[q]) { ActingKept(s, s.calls[q], e, r); }
    } else {
      CallsOnly(s, r);
    }
  }

  lemma NextObservation(s: State, call: CallId)
    requires Inv(s)
    ensures Inv(Next(s, CommitObservation(call)))
  {
    var r := Next(s, CommitObservation(call));
    if r.log != s.log {
      var id, setup := s.calls[call].session, s.calls[call].setup;
      var e := Accepted(id, setup);
      EntriesKept(s.log, e);
      ConsumedInPast(s);
      forall k | 0 <= k < |r.objects| ensures PendingOk(r, k) { if k != id { PendingKept(s, k, e, r); } }
      forall q | q in r.calls ensures ActingOk(r, r.calls[q]) { ActingKept(s, s.calls[q], e, r); }
    } else {
      CallsOnly(s, r);
    }
  }

  /** Consumed observations were accepted before, so a new one is not among them. */
  lemma ConsumedInPast(s: State)
    requires Inv(s)
    ensures Consumed(|s.log|) !in s.log
  {
    forall k | 0 <= k < |s.log| ensures s.log[k] != Consumed(|s.log|) { assert EntryOk(s.log, k); }
  }

  /** Taking the waiting observation consumes the latest one, and leaves it acted on under its setup. */
  lemma TakenOk(s: State, id: SessionId, r: State)
    requires id < |s.objects| && id < |r.objects| && PendingOk(s, id) && s.objects[id].pending.Some?
    requires r.log == s.log + [Consumed(s.objects[id].pending.value)] && r.objects[id] == s.objects[id].(pending := None)
    ensures EntryOk(r.log, |s.log|) && PendingOk(r, id) && ActingOk(r, Acting(id, s.objects[id].pending.value))
  {
    var o := s.objects[id].pending.value;
    assert r.log[|s.log|] == Consumed(o);
    forall j | 0 <= j < |s.log| ensures r.log[j] == s.log[j] && r.log[j] != Consumed(o) {}
  }

  lemma NextTake(s: State, call: CallId)
    requires Inv(s)
    ensures Inv(Next(s, Take(call)))
  {
    hide PendingOk, ActingOk, EntryOk;
    var r := Next(s, Take(call));
    if r.log != s.log {
      var id := s.calls[call].session;
      var o := s.objects[id].pending.value;
      assert PendingOk(s, id);
      var e := Consumed(o);
      EntriesKept(s.log, e);
      TakenOk(s, id, r);
      forall k | 0 <= k < |r.objects| ensures PendingOk(r, k) {
        if k != id {
          assert PendingOk(s, k);
          OthersWait(s, id, k);
          PendingKept(s, k, e, r);
        }
      }
      forall q | q in r.calls ensures ActingOk(r, r.calls[q]) { if q != call { ActingKept(s, s.calls[q], e, r); } }
    } else {
      CallsOnly(s, r);
    }
  }

  lemma NextReturn(s: State, call: CallId)
    requires Inv(s)
    ensures Inv(Next(s, Return(call)))
  {
    var r := Next(s, Return(call));
    if r.log != s.log {
      var o := s.calls[call].obs;
      assert ActingOk(s, s.calls[call]);
      var e := Returned(o);
      EntriesKept(s.log, e);
      var j :| 0 <= j < |s.log| && s.log[j] == Consumed(o);
      assert EntryOk(s.log, j) && r.log[j] == Consumed(o);
      forall k | 0 <= k < |r.objects| ensures PendingOk(r, k) { PendingKept(s, k, e, r); }
      forall q | q in r.calls ensures ActingOk(r, r.calls[q]) { ActingKept(s, s.calls[q], e, r); }
    } else {
      CallsOnly(s, r);
    }
  }

  lemma NextInv(s: State, e: Event)
    requires Inv(s)
    ensures Inv(Next(s, e))
  {
    match e
    case Ready(client) => NextReady(s, client);
    case CommitSetup(call) => NextSetup(s, call);
    case CommitObservation(call) => NextObservation(s, call);
    case Take(call) => NextTake(s, call);
    case Return(call) => NextReturn(s, call);
    case _ => CallsOnly(s, Next(s, e));
  }

  lemma {:induction false} RunInv(s: State, es: seq<Event>)
    requires Inv(s)
    ensures Inv(Run(s, es))
    decreases |es|
  {
    if es != [] {
      NextInv(s, es[0]);
      RunInv(Next(s, es[0]), es[1..]);
    }
  }

  // ---- what callers can rely on ------------------------------------------------------------------

  /** In every interleaving: an observation that waits belongs to its open session's current setup. */
  lemma WaitingIsCurrent(es: seq<Event>)
    ensures var s := Run(INITIAL, es); forall id :: 0 <= id < |s.objects| ==> PendingOk(s, id)
  {
    RunInv(INITIAL, es);
  }

  /** Each accepted observation is consumed at most once, and only while it is the latest. */
  lemma ConsumedOnce(es: seq<Event>)
    ensures var log := Run(INITIAL, es).log; forall k :: 0 <= k < |log| ==> ConsumesLatest(log, k)
  {
    RunInv(INITIAL, es);
    var log := Run(INITIAL, es).log;
    forall k | 0 <= k < |log| ensures ConsumesLatest(log, k) { assert EntryOk(log, k); }
  }

  /** Actions are returned only for an accepted and consumed observation since whose acceptance neither a
      Ready nor a new setup came. */
  lemma ReturnedIsCurrent(es: seq<Event>)
    ensures var log := Run(INITIAL, es).log; forall k :: 0 <= k < |log| ==> ReturnsCurrent(log, k)
  {
    RunInv(INITIAL, es);
    var log := Run(INITIAL, es).log;
    forall k | 0 <= k < |log| ensures ReturnsCurrent(log, k) { assert EntryOk(log, k); }
  }
}
