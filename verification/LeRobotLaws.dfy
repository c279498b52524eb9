/** The log decides: in every interleaving, what has happened on a session determines what each step does to it. */
module LeRobotLaws {
  import opened Basics
  import opened LeRobotSessions

  // ---- a session, read off the log ---------------------------------------------------------------

  /** The setup last installed on the session since it was last reset. */
  function SetupIn(log: seq<Entry>, id: SessionId): Option<SetupId> {
    if log == [] then None else
      var e := log[|log| - 1];
      if e == Reset(id) then None
      else if e.Installed? && e.session == id then Some(e.setup)
      else SetupIn(log[..|log| - 1], id)
  }

  /** The last observation accepted on the session, if neither a reset nor a setup nor its consumption came after. */
  ghost predicate Waits(log: seq<Entry>, id: SessionId, o: Observation) {
    AcceptedAt(log, o, id) && Quiet(log, id, o, |log|) && Latest(log, id, o, |log|) && Consumed(o) !in log
  }

  ghost predicate Shown(s: State, id: SessionId)
    requires id < |s.objects|
  {
    && (s.objects[id].closed <==> Reset(id) in s.log)
    && s.objects[id].setup == SetupIn(s.log, id)
    && (forall o: Observation :: Waits(s.log, id, o) ==> s.objects[id].pending == Some(o))
  }

  predicate Known(e: Entry, n: nat) {
    (e.Reset? || e.Installed? || e.Accepted?) ==> e.session < n
  }

  /** The session is open and the setup is its current one. */
  ghost predicate Current(log: seq<Entry>, id: SessionId, setup: SetupId) {
    Reset(id) !in log && SetupIn(log, id) == Some(setup)
  }

  /** What was accepted came with the setup of that moment. */
  ghost predicate InTime(log: seq<Entry>, k: nat)
    requires k < |log|
  {
    log[k].Accepted? ==> Current(log[..k], log[k].session, log[k].setup)
  }

  ghost predicate Determined(s: State) {
    && Inv(s)
    && (forall id :: 0 <= id < |s.objects| ==> Shown(s, id))
    && (forall k :: 0 <= k < |s.log| ==> Known(s.log[k], |s.objects|) && InTime(s.log, k))
  }

  // ---- one more entry ----------------------------------------------------------------------------

  lemma SetupAfter(log: seq<Entry>, e: Entry, id: SessionId)
    ensures SetupIn(log + [e], id)
         == if e == Reset(id) then None else if e.Installed? && e.session == id then Some(e.setup) else SetupIn(log, id)
  {
    assert (log + [e])[..|log|] == log;
  }

  /** An observation that still waits after an entry waited before it or was accepted by it. */
  lemma WaitsBefore(log: seq<Entry>, e: Entry, id: SessionId)
    ensures forall o: Observation :: Waits(log + [e], id, o) ==>
              && !Changes(e, id) && e != Consumed(o)
              && (o < |log| ==> Waits(log, id, o) && !(e.Accepted? && e.session == id))
              && (o >= |log| ==> o == |log| && e.Accepted? && e.session == id)
  {
    forall o: Observation | Waits(log + [e], id, o)
      ensures !Changes(e, id) && e != Consumed(o)
      ensures o < |log| ==> Waits(log, id, o) && !(e.Accepted? && e.session == id)
      ensures o >= |log| ==> o == |log| && e.Accepted? && e.session == id
    {
      OneBefore(log, e, id, o);
    }
  }

  lemma OneBefore(log: seq<Entry>, e: Entry, id: SessionId, o: Observation)
    requires Waits(log + [e], id, o)
    ensures !Changes(e, id) && e != Consumed(o)
    ensures o < |log| ==> Waits(log, id, o) && !(e.Accepted? && e.session == id)
    ensures o >= |log| ==> o == |log| && e.Accepted? && e.session == id
  {
    var r := log + [e];
    assert r[|log|] == e;
    if o < |log| {
      assert r[o] == log[o];
      forall j | o <= j < |log| ensures !Changes(log[j], id) && (j > o ==> !(log[j].Accepted? && log[j].session == id)) {
        assert r[j] == log[j];
      }
    }
  }

  /** An entry leaves the sessions it is not about as they are. */
  lemma ShownKept(s: State, id: SessionId, e: Entry, r: State)
    requires id < |s.objects| && Shown(s, id) && id < |r.objects| && r.objects[id] == s.objects[id] && r.log == s.log + [e]
    requires !Changes(e, id) && !(e.Accepted? && e.session == id)
    ensures Shown(r, id)
  {
    SetupAfter(s.log, e, id);
    WaitsBefore(s.log, e, id);
  }

  lemma ShownReset(s: State, id: SessionId, r: State)
    requires id < |r.objects| && r.objects[id] == Session(None, None, true) && r.log == s.log + [Reset(id)]
    ensures Shown(r, id)
  {
    SetupAfter(s.log, Reset(id), id);
    assert r.log[|s.log|] == Reset(id);
    WaitsBefore(s.log, Reset(id), id);
  }

  lemma ShownInstalled(s: State, id: SessionId, setup: SetupId, r: State)
    requires id < |s.objects| && Shown(s, id) && !s.objects[id].closed && id < |r.objects|
    requires r.objects[id] == Session(None, Some(setup), false) && r.log == s.log + [Installed(id, setup)]
    ensures Shown(r, id)
  {
    var e := Installed(id, setup);
    SetupAfter(s.log, e, id);
    WaitsBefore(s.log, e, id);
  }

  lemma ShownAccepted(s: State, id: SessionId, setup: SetupId, r: State)
    requires id < |s.objects| && Shown(s, id) && id < |r.objects|
    requires r.objects[id] == s.objects[id].(pending := Some(|s.log|)) && r.log == s.log + [Accepted(id, setup)]
    ensures Shown(r, id)
  {
    var e := Accepted(id, setup);
    SetupAfter(s.log, e, id);
    WaitsBefore(s.log, e, id);
  }

  lemma ShownConsumed(s: State, id: SessionId, r: State)
    requires id < |s.objects| && Shown(s, id) && id < |r.objects| && s.objects[id].pending.Some?
    requires r.objects[id] == s.objects[id].(pending := None) && r.log == s.log + [Consumed(s.objects[id].pending.value)]
    ensures Shown(r, id)
  {
    var e := Consumed(s.objects[id].pending.value);
    SetupAfter(s.log, e, id);
    WaitsBefore(s.log, e, id);
  }

  lemma EntriesKnown(s: State, e: Entry, r: State)
    requires Determined(s) && r.log == s.log + [e] && |s.objects| <= |r.objects|
    requires Known(e, |r.objects|) && (e.Accepted? ==> Current(s.log, e.session, e.setup))
    ensures forall k :: 0 <= k < |r.log| ==> Known(r.log[k], |r.objects|) && InTime(r.log, k)
  {
    forall k | 0 <= k < |r.log| ensures Known(r.log[k], |r.objects|) && InTime(r.log, k) {
      if k < |s.log| {
        assert r.log[k] == s.log[k] && r.log[..k] == s.log[..k];
        assert InTime(s.log, k);
      } else {
        assert r.log[..k] == s.log;
      }
    }
  }

  /** A session that is not yet there appears nowhere in the log. */
  lemma ShownNew(s: State, id: SessionId, r: State)
    requires Determined(s) && id == |s.objects| && id < |r.objects| && r.objects[id] == Session(None, None, false)
    requires r.log == s.log || (r.log != [] && r.log == s.log + [r.log[|r.log| - 1]] && Known(r.log[|r.log| - 1], |s.objects|))
    ensures Shown(r, id)
  {
    forall k | 0 <= k < |r.log| ensures Known(r.log[k], id) { if k < |s.log| { assert r.log[k] == s.log[k]; } }
    NoneIn(r.log, id);
  }

  lemma {:induction false} NoneIn(log: seq<Entry>, id: SessionId)
    requires forall k :: 0 <= k < |log| ==> Known(log[k], id)
    ensures SetupIn(log, id) == None && Reset(id) !in log && forall o: Observation :: !AcceptedAt(log, o, id)
  {
    if log != [] { NoneIn(log[..|log| - 1], id); }
  }

  // ---- every step keeps it -----------------------------------------------------------------------

  /** A step that only moves calls. */
  lemma CallsDetermined(s: State, r: State)
    requires Determined(s) && Inv(r) && r == s.(calls := r.calls)
    ensures Determined(r)
  {
    hide Inv;
    forall id | 0 <= id < |r.objects| ensures Shown(r, id) { assert Shown(s, id); }
  }

  lemma ReadyDetermined(s: State, client: ClientId)
    requires Determined(s) && Inv(Next(s, Ready(client)))
    ensures Determined(Next(s, Ready(client)))
  {
    hide Waits, Inv, InTime, EntryOk;
    var r := Next(s, Ready(client));
    var born := |s.objects|;
    if client in s.sessions && s.sessions[client] < |s.objects| {
      var previous := s.sessions[client];
      EntriesKnown(s, Reset(previous), r);
      ShownReset(s, previous, r);
      forall id | 0 <= id < born && id != previous ensures Shown(r, id) { ShownKept(s, id, Reset(previous), r); }
    } else {
      forall id | 0 <= id < born ensures Shown(r, id) { assert Shown(s, id); }
      forall k | 0 <= k < |r.log| ensures Known(r.log[k], |r.objects|) && InTime(r.log, k) { assert Known(s.log[k], |s.objects|) && InTime(s.log, k); }
    }
    ShownNew(s, born, r);
  }

  /** A step that appends an entry about session `id` and leaves the other sessions. */
  lemma EntryDetermined(s: State, id: SessionId, e: Entry, r: State)
    requires Determined(s) && Inv(r) && id < |s.objects| && |r.objects| == |s.objects| && r.log == s.log + [e]
    requires forall k :: 0 <= k < |s.objects| && k != id ==> r.objects[k] == s.objects[k] && !Changes(e, k) && !(e.Accepted? && e.session == k)
    requires Known(e, |s.objects|) && (e.Accepted? ==> Current(s.log, e.session, e.setup)) && Shown(r, id)
    ensures Determined(r)
  {
    hide Waits, Inv, InTime, SetupIn;
    EntriesKnown(s, e, r);
    forall k | 0 <= k < |r.objects| ensures Shown(r, k) { if k != id { ShownKept(s, k, e, r); } }
  }

  lemma NextDetermined(s: State, e: Event)
    requires Determined(s)
    ensures Determined(Next(s, e))
  {
    hide Waits, InTime, SetupIn, PendingOk, ActingOk, EntryOk;
    NextInv(s, e);
    var r := Next(s, e);
    if e.Ready? {
      ReadyDetermined(s, e.client);
    } else if r.log == s.log {
      CallsDetermined(s, r);
    } else {
      var id := s.calls[e.call].session;
      assert Shown(s, id);
      match e
      case CommitSetup(_) => ShownInstalled(s, id, s.nextSetup, r);
        EntryDetermined(s, id, Installed(id, s.nextSetup), r);
      case CommitObservation(call) => ShownAccepted(s, id, s.calls[call].setup, r);
        EntryDetermined(s, id, Accepted(id, s.calls[call].setup), r);
      case Take(_) => ShownConsumed(s, id, r);
        EntryDetermined(s, id, Consumed(s.objects[id].pending.value), r);
      case Return(call) => ShownKept(s, id, Returned(s.calls[call].obs), r);
        EntryDetermined(s, id, Returned(s.calls[call].obs), r);
    }
  }

  /** In every interleaving the log determines every session: it is closed exactly when it was reset, has the setup
      last installed, and holds the observation that waits, if one does. */
  lemma {:induction false} RunDetermined(s: State, es: seq<Event>)
    requires Determined(s)
    ensures Determined(Run(s, es))
    decreases |es|
  {
    hide Determined;
    if es != [] {
      NextDetermined(s, es[0]);
      RunDetermined(Next(s, es[0]), es[1..]);
    }
  }

  lemma AlwaysDetermined(es: seq<Event>)
    ensures Determined(Run(INITIAL, es))
  {
    RunDetermined(INITIAL, es);
  }

  // ---- what each step does, from the call's phase and the log ------------------------------------

  /** A step of one call leaves the other calls and the other sessions alone. */
  ghost predicate OnlyCall(s: State, r: State, call: CallId, id: SessionId) {
    && r.sessions == s.sessions && |r.objects| == |s.objects|
    && (forall q :: q != call ==> (q in r.calls <==> q in s.calls) && (q in s.calls ==> r.calls[q] == s.calls[q]))
    && (forall k :: 0 <= k < |s.objects| && k != id ==> r.objects[k] == s.objects[k])
  }

  /** What waits in a session's slot is what waits by the log. */
  lemma WaitingIff(s: State, id: SessionId)
    requires Determined(s) && id < |s.objects|
    ensures forall o: Observation :: s.objects[id].pending == Some(o) <==> Waits(s.log, id, o)
    ensures s.objects[id].pending.Some? ==> Reset(id) !in s.log
  {
    assert Shown(s, id) && PendingOk(s, id);
  }

  /** A setup is installed exactly when the session was not reset, under an identity never used before; it
      discards what waited. */
  lemma SetupLaw(s: State, call: CallId)
    requires Determined(s) && call in s.calls && s.calls[call].Looked?
    ensures var r, id := Next(s, CommitSetup(call)), s.calls[call].session;
            && OnlyCall(s, r, call, id) && call !in r.calls
            && r.log == (if Reset(id) !in s.log then s.log + [Installed(id, s.nextSetup)] else s.log)
            && (r.log != s.log ==> r.nextSetup > s.nextSetup && (forall o: Observation :: !Waits(r.log, id, o)))
    ensures forall k :: 0 <= k < |s.log| && s.log[k].Accepted? ==> s.log[k].setup < s.nextSetup
  {
    hide Waits, PendingOk, ActingOk;
    assert Shown(s, s.calls[call].session);
    WaitsBefore(s.log, Installed(s.calls[call].session, s.nextSetup), s.calls[call].session);
  }

  /** An observation call goes on exactly under the setup that is current when it reads it. */
  lemma ReadLaw(s: State, call: CallId)
    requires Determined(s) && call in s.calls && s.calls[call].Looked?
    ensures var r, id := Next(s, ReadSetup(call)), s.calls[call].session;
            && OnlyCall(s, r, call, id) && r.log == s.log && r.objects == s.objects
            && (call in r.calls <==> SetupIn(s.log, id).Some?)
            && (call in r.calls ==> r.calls[call] == Sending(id, SetupIn(s.log, id).value))
  {
    hide Waits, PendingOk, ActingOk, SetupIn;
    assert Shown(s, s.calls[call].session);
  }

  /** An observation is accepted exactly when the session is open and its setup is the one the call read, whatever
      waits there; it is then what waits. */
  lemma ObservationLaw(s: State, call: CallId)
    requires Determined(s) && call in s.calls && s.calls[call].Sending?
    ensures var r, id, setup := Next(s, CommitObservation(call)), s.calls[call].session, s.calls[call].setup;
            && OnlyCall(s, r, call, id) && call !in r.calls
            && r.log == (if Current(s.log, id, setup) then s.log + [Accepted(id, setup)] else s.log)
            && (if Current(s.log, id, setup) then Waits(r.log, id, |s.log|) && r.objects[id].pending == Some(|s.log|)
                else r.objects == s.objects)
  {
    hide PendingOk, ActingOk, SetupIn, EntryOk;
    var id := s.calls[call].session;
    assert Shown(s, id);
    ConsumedInPast(s);
  }

  /** Actions are asked for exactly when an observation waits, and then for that one, which waits no longer. */
  lemma TakeLaw(s: State, call: CallId)
    requires Determined(s) && call in s.calls && s.calls[call].Looked?
    ensures var r, id := Next(s, Take(call)), s.calls[call].session;
            && OnlyCall(s, r, call, id)
            && (forall o: Observation :: Waits(s.log, id, o) ==>
                  r.log == s.log + [Consumed(o)] && call in r.calls && r.calls[call] == Acting(id, o) && r.objects[id].pending == None)
            && ((forall o: Observation :: !Waits(s.log, id, o)) ==> r.log == s.log && call !in r.calls && r.objects == s.objects)
  {
    hide ActingOk, SetupIn, EntryOk, Waits, PendingOk;
    WaitingIff(s, s.calls[call].session);
    assert Shown(s, s.calls[call].session);
  }

  /** Actions are returned exactly when neither a reset nor a setup came since their observation was accepted. */
  lemma ReturnLaw(s: State, call: CallId)
    requires Determined(s) && call in s.calls && s.calls[call].Acting?
    ensures var r, id, o := Next(s, Return(call)), s.calls[call].session, s.calls[call].obs;
            && OnlyCall(s, r, call, id) && call !in r.calls && r.objects == s.objects
            && r.log == if Quiet(s.log, id, o, |s.log|) then s.log + [Returned(o)] else s.log
  {
    var id, o := s.calls[call].session, s.calls[call].obs;
    assert Shown(s, id) && ActingOk(s, s.calls[call]);
    assert InTime(s.log, o);
    if Quiet(s.log, id, o, |s.log|) { QuietKeeps(s.log, id, o, |s.log|); }
    assert s.log[..|s.log|] == s.log;
  }

  /** Where nothing changes a session it keeps its setup, and stays open if it was. */
  lemma {:induction false} QuietKeeps(log: seq<Entry>, id: SessionId, from: nat, upto: nat)
    requires from <= upto <= |log| && Quiet(log, id, from, upto)
    ensures SetupIn(log[..upto], id) == SetupIn(log[..from], id)
    ensures Reset(id) in log[..upto] ==> Reset(id) in log[..from]
    decreases upto
  {
    if from < upto {
      QuietKeeps(log, id, from, upto - 1);
      assert log[..upto] == log[..upto - 1] + [log[upto - 1]];
      SetupAfter(log[..upto - 1], log[upto - 1], id);
    }
  }

  // ---- which sessions are open -------------------------------------------------------------------

  predicate Used(s: State, id: SessionId) {
    exists client :: client in s.sessions && s.sessions[client] == id
  }

  /** No two clients share a session, and the open sessions are those of the clients. */
  ghost predicate OpenIff(s: State) {
    && (forall c :: c in s.sessions ==> s.sessions[c] < |s.objects|)
    && (forall c, d :: c in s.sessions && d in s.sessions && s.sessions[c] == s.sessions[d] ==> c == d)
    && (forall id :: 0 <= id < |s.objects| ==> (!s.objects[id].closed <==> Used(s, id)))
  }

  /** A Ready gives its client a session of its own, without setup or observation, and resets the one it had. */
  lemma ReadyLaw(s: State, client: ClientId)
    requires OpenIff(s)
    ensures var r, born := Next(s, Ready(client)), |s.objects|;
            && r.calls == s.calls && r.sessions == s.sessions[client := born] && |r.objects| == born + 1
            && r.objects[born] == Session(None, None, false)
            && r.log == (if client in s.sessions then s.log + [Reset(s.sessions[client])] else s.log)
            && (forall id :: 0 <= id < born && (client in s.sessions ==> id != s.sessions[client]) ==> r.objects[id] == s.objects[id])
            && OpenIff(r)
  {
    var r, born := Next(s, Ready(client)), |s.objects|;
    assert r.sessions[client] == born && Used(r, born);
    forall id | 0 <= id < born ensures !r.objects[id].closed <==> Used(r, id) { UsedAfter(s, r, client, id); }
  }

  lemma UsedAfter(s: State, r: State, client: ClientId, id: SessionId)
    requires OpenIff(s) && id < |s.objects| && r.sessions == s.sessions[client := |s.objects|]
    ensures Used(r, id) <==> Used(s, id) && !(client in s.sessions && s.sessions[client] == id)
  {
    if c :| c in r.sessions && r.sessions[c] == id { assert s.sessions[c] == id && Used(s, id); }
    if c :| c in s.sessions && s.sessions[c] == id && c != client { assert r.sessions[c] == id; }
  }

  lemma StepOpen(s: State, e: Event)
    requires OpenIff(s) && !e.Ready?
    ensures OpenIff(Next(s, e))
  {
    var r := Next(s, e);
    assert r.sessions == s.sessions && |r.objects| == |s.objects|;
    forall id | 0 <= id < |r.objects| ensures !r.objects[id].closed <==> Used(r, id) { assert Used(s, id) <==> Used(r, id); }
  }

  /** In every interleaving the open sessions are exactly those the clients' last Readys made. */
  lemma {:induction false} RunOpen(s: State, es: seq<Event>)
    requires OpenIff(s)
    ensures OpenIff(Run(s, es))
    decreases |es|
  {
    hide OpenIff, Next;
    if es != [] {
      if es[0].Ready? { ReadyLaw(s, es[0].client); } else { StepOpen(s, es[0]); }
      RunOpen(Next(s, es[0]), es[1..]);
    }
  }

  /** A call that is let in works on its client's session, which is open. */
  lemma LookLaw(es: seq<Event>, call: CallId, client: ClientId)
    ensures var s := Run(INITIAL, es); var r := Next(s, Look(call, client));
            call !in s.calls ==>
              if client in s.sessions
              then r == s.(calls := s.calls[call := Looked(s.sessions[client])]) && Reset(s.sessions[client]) !in s.log
              else r == s
  {
    AlwaysDetermined(es);
    RunOpen(INITIAL, es);
    var s := Run(INITIAL, es);
    if client in s.sessions { assert Shown(s, s.sessions[client]) && Used(s, s.sessions[client]); }
  }
}
