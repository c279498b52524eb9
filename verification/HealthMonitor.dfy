/** `BackendHealthMonitor.check_once`: one probe per managed backend, then one recorded result each. */
module HealthMonitor {
  import opened Basics
  import opened Registry
  import R = RegistryRuns

  predicate IsTarget(e: Entry) { e.managed && !e.removed }

  /** `health_targets`. */
  function Targets(s: Servers): Servers {
    if s == [] then [] else (if IsTarget(s[0]) then [s[0]] else []) + Targets(s[1..])
  }

  /** What each probe answers; an RPC error answers false. */
  type Answers = ServerId -> bool

  /** Results recorded one by one, each looking its server up again. */
  function RecordAll(s: Servers, targets: Servers, answers: Answers, threshold: int): Servers
    decreases |targets|
  {
    if targets == [] then s
    else RecordAll(Recorded(s, targets[0].id, answers(targets[0].id), threshold), targets[1..], answers, threshold)
  }

  function After(e: Entry, answers: Answers, threshold: int): Entry {
    if IsTarget(e) then Checked(e, answers(e.id), threshold) else e
  }

  /** The round as one pass: every target entry takes its own answer, the others stay. */
  function Round(s: Servers, answers: Answers, threshold: int): (r: Servers)
    ensures |r| == |s|
  {
    if s == [] then [] else [After(s[0], answers, threshold)] + Round(s[1..], answers, threshold)
  }

  lemma {:induction false} RoundAt(s: Servers, answers: Answers, threshold: int, i: nat)
    requires i < |s|
    ensures Round(s, answers, threshold)[i] == After(s[i], answers, threshold)
  {
    if i > 0 { RoundAt(s[1..], answers, threshold, i - 1); }
  }

  ghost predicate DistinctIds(s: Servers) {
    forall i, j :: 0 <= i < j < |s| ==> s[i].id != s[j].id
  }

  lemma FindsIt(s: Servers, i: nat)
    requires DistinctIds(s) && i < |s|
    ensures FindId(s, s[i].id, 0) == Some(i)
  {
    forall k | 0 <= k < |s| && k != i ensures s[k].id != s[i].id {
      if k < i { assert s[k].id != s[i].id; } else { assert s[i].id != s[k].id; }
    }
  }

  /** Recording for the entry in the middle changes that entry. */
  lemma RecordOne(done: Servers, e: Entry, rest: Servers, ok: bool, threshold: int)
    requires DistinctIds(done + [e] + rest) && IsTarget(e)
    ensures Recorded(done + [e] + rest, e.id, ok, threshold) == done + [Checked(e, ok, threshold)] + rest
  {
    var s := done + [e] + rest;
    assert s[|done|] == e;
    FindsIt(s, |done|);
  }

  lemma SameIds(done: Servers, e: Entry, f: Entry, rest: Servers)
    requires DistinctIds(done + [e] + rest) && e.id == f.id
    ensures DistinctIds(done + [f] + rest)
  {
    var s, r := done + [e] + rest, done + [f] + rest;
    forall i, j | 0 <= i < j < |r| ensures r[i].id != r[j].id { assert r[i].id == s[i].id && r[j].id == s[j].id; }
  }

  /** With the first part of the dictionary done, recording the targets of the rest does the rest. */
  lemma {:induction false} RecordRest(done: Servers, rest: Servers, answers: Answers, threshold: int)
    requires DistinctIds(done + rest)
    ensures RecordAll(done + rest, Targets(rest), answers, threshold) == done + Round(rest, answers, threshold)
    decreases |rest|
  {
    hide DistinctIds, Recorded;
    if rest != [] {
      var e, tail := rest[0], rest[1..];
      var next := After(e, answers, threshold);
      Associates(done, [e], tail);
      assert rest == [e] + tail;
      SameIds(done, e, next, tail);
      if IsTarget(e) {
        RecordOne(done, e, tail, answers(e.id), threshold);
        assert Targets(rest)[1..] == Targets(tail);
      } else {
        assert Targets(rest) == Targets(tail);
      }
      RecordRest(done + [next], tail, answers, threshold);
      Associates(done, [next], Round(tail, answers, threshold));
    } else {
      assert done + rest == done;
    }
  }

  /** A round records exactly one result for every managed entry that was not removed, and nothing else. */
  lemma RoundRecords(s: Servers, answers: Answers, threshold: int)
    requires R.AllApart(s)
    ensures RecordAll(s, Targets(s), answers, threshold) == Round(s, answers, threshold)
  {
    assert [] + s == s;
    forall i, j | 0 <= i < j < |s| ensures s[i].id != s[j].id { assert R.Apart(s[i], s[j]); }
    RecordRest([], s, answers, threshold);
    assert [] + Round(s, answers, threshold) == Round(s, answers, threshold);
  }

  /** What a round leaves at each position. */
  lemma RoundIs(s: Servers, answers: Answers, threshold: int)
    ensures forall i :: 0 <= i < |s| ==>
              Round(s, answers, threshold)[i]
              == if s[i].managed && !s[i].removed
                 then s[i].(failures := if answers(s[i].id) then 0 else s[i].failures + 1,
                            healthy := answers(s[i].id) || (s[i].healthy && s[i].failures + 1 < threshold))
                 else s[i]
  {
    forall i | 0 <= i < |s| ensures Round(s, answers, threshold)[i] == After(s[i], answers, threshold) {
      RoundAt(s, answers, threshold, i);
    }
  }

  /** The targets are the managed entries that were not removed. */
  lemma {:induction false} TargetsAre(s: Servers)
    ensures forall e :: e in Targets(s) <==> e in s && e.managed && !e.removed
  {
    if s != [] {
      TargetsAre(s[1..]);
      assert s == [s[0]] + s[1..];
    }
  }

  class BackendHealthMonitor {
    const registry: ModelRegistryService
    const threshold: int
    var channels: map<string, nat>
    var nextChannel: nat

    /** The threshold is a positive integer. */
    constructor (registry: ModelRegistryService, threshold: int)
      requires threshold >= 1
      ensures this.registry == registry && this.threshold == threshold && channels == map[]
    {
      this.registry, this.threshold, channels, nextChannel := registry, threshold, map[], 0;
    }

    method HealthTargets() returns (targets: Servers)
      ensures targets == Targets(registry.servers)
    {
      targets := [];
      for i := 0 to |registry.servers|
        invariant targets + Targets(registry.servers[i..]) == Targets(registry.servers)
      {
        var e := registry.servers[i];
        assert registry.servers[i..][1..] == registry.servers[i + 1..];
        if IsTarget(e) {
          assert (targets + [e]) + Targets(registry.servers[i + 1..]) == targets + Targets(registry.servers[i..]);
          targets := targets + [e];
        }
      }
    }

    /** One undisturbed round: afterwards the monitor holds channels to exactly the targets' endpoints, those it had
        being the same, and the registry has one new result for each target. */
    method CheckOnce(answers: Answers)
      requires R.AllApart(registry.servers)
      modifies this, registry
      ensures |registry.servers| == |old(registry.servers)|
      ensures forall i :: 0 <= i < |registry.servers| ==>
                var e := old(registry.servers)[i];
                registry.servers[i] == if e.managed && !e.removed
                                       then e.(failures := if answers(e.id) then 0 else e.failures + 1,
                                               healthy := answers(e.id) || (e.healthy && e.failures + 1 < threshold))
                                       else e
      ensures forall x :: x in channels <==> exists e :: e in old(registry.servers) && e.managed && !e.removed && e.endpoint == x
      ensures forall x :: x in channels ==> if x in old(channels) then channels[x] == old(channels)[x] else channels[x] >= old(nextChannel)
    {
      RoundIs(registry.servers, answers, threshold);
      TargetsAre(registry.servers);
      RoundRecords(registry.servers, answers, threshold);
      var targets := HealthTargets();
      var pending := Probe(targets);
      Settle(pending, answers);
    }

    /** Closes the channels no target needs, opens the missing ones, and sends one probe per target. */
    method Probe(targets: Servers) returns (pending: Servers)
      modifies `channels, `nextChannel
      ensures pending == targets && channels.Keys == set e | e in targets :: e.endpoint
      ensures forall x :: x in channels ==> if x in old(channels) then channels[x] == old(channels)[x] else channels[x] >= old(nextChannel)
    {
      var endpoints := set e | e in targets :: e.endpoint;
      channels := channels - (channels.Keys - endpoints);
      pending := [];
      for i := 0 to |targets|
        invariant pending == targets[..i] && channels.Keys <= endpoints && nextChannel >= old(nextChannel)
        invariant forall k :: 0 <= k < i ==> targets[k].endpoint in channels
        invariant forall x :: x in channels ==> if x in old(channels) then channels[x] == old(channels)[x] else channels[x] >= old(nextChannel)
        invariant forall x :: x in old(channels) && x in endpoints ==> x in channels
      {
        assert targets[i] in targets;
        if targets[i].endpoint !in channels {
          channels := channels[targets[i].endpoint := nextChannel];
          nextChannel := nextChannel + 1;
        }
        pending := pending + [targets[i]];
      }
    }

    method Settle(pending: Servers, answers: Answers)
      modifies registry
      ensures registry.servers == RecordAll(old(registry.servers), pending, answers, threshold)
    {
      for i := 0 to |pending|
        invariant RecordAll(registry.servers, pending[i..], answers, threshold) == RecordAll(old(registry.servers), pending, answers, threshold)
      {
        assert pending[i..][1..] == pending[i + 1..];
        registry.RecordHealth(pending[i].id, answers(pending[i].id), threshold);
      }
    }
  }
}
