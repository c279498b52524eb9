/** The gateway's replica registry: a dictionary of servers in insertion order, under one lock. */
module Registry {

  import opened Basics

  type ServerId = nat

  const HEARTBEAT_TIMEOUT_SECONDS := 15.0

  /** `RegisteredModelServer`. */
  datatype Entry = Entry(id: ServerId, endpoint: string, model: string, lastHeartbeat: real,
                         inFlight: nat, managed: bool, healthy: bool, failures: nat, removed: bool)

  type Servers = seq<Entry>

  predicate Healthy(e: Entry, now: real) {
    if e.managed then e.healthy else now - e.lastHeartbeat <= HEARTBEAT_TIMEOUT_SECONDS
  }

  /** What `_remove_expired` deletes: never an entry with requests in flight. */
  predicate Expired(e: Entry, now: real) {
    (e.removed || (!e.managed && now - e.lastHeartbeat > HEARTBEAT_TIMEOUT_SECONDS)) && e.inFlight == 0
  }

  predicate Selectable(e: Entry, now: real) { !e.removed && Healthy(e, now) }

  predicate Eligible(e: Entry, model: string, now: real) { e.model == model && Selectable(e, now) }

  function Swept(s: Servers, now: real): Servers {
    if s == [] then [] else (if Expired(s[0], now) then [] else [s[0]]) + Swept(s[1..], now)
  }

  predicate IsPair(e: Entry, endpoint: string, model: string) {
    !e.removed && e.endpoint == endpoint && e.model == model
  }

  /** The first entry from `from` on for this endpoint and model that was not removed. */
  function FindPair(s: Servers, endpoint: string, model: string, from: nat): (r: Option<nat>)
    ensures r.Some? ==> from <= r.value < |s| && IsPair(s[r.value], endpoint, model)
    ensures r.None? ==> forall i :: from <= i < |s| ==> !IsPair(s[i], endpoint, model)
    decreases |s| - from
  {
    if from >= |s| then None
    else if IsPair(s[from], endpoint, model) then Some(from)
    else FindPair(s, endpoint, model, from + 1)
  }

  function FindId(s: Servers, id: ServerId, from: nat): (r: Option<nat>)
    ensures r.Some? ==> from <= r.value < |s| && s[r.value].id == id
    ensures r.None? ==> forall i :: from <= i < |s| ==> s[i].id != id
    decreases |s| - from
  {
    if from >= |s| then None else if s[from].id == id then Some(from) else FindId(s, id, from + 1)
  }

  /** Python's white space. */
  predicate IsSpace(c: char) {
    var n := c as int;
    9 <= n <= 13 || 28 <= n <= 32 || n == 0x85 || n == 0xA0 || n == 0x1680 || 0x2000 <= n <= 0x200A
    || n == 0x2028 || n == 0x2029 || n == 0x202F || n == 0x205F || n == 0x3000
  }

  function StripLeft(s: string): string {
    if s != [] && IsSpace(s[0]) then StripLeft(s[1..]) else s
  }

  function StripRight(s: string): string {
    if s != [] && IsSpace(s[|s| - 1]) then StripRight(s[..|s| - 1]) else s
  }

  function Strip(s: string): string { StripRight(StripLeft(s)) }

  lemma {:induction false} StripLeftEnds(s: string)
    ensures StripLeft(s) != [] ==> !IsSpace(StripLeft(s)[0])
  {
    if s != [] && IsSpace(s[0]) { StripLeftEnds(s[1..]); }
  }

  lemma {:induction false} StripRightEnds(s: string)
    ensures StripRight(s) <= s
    ensures StripRight(s) != [] ==> !IsSpace(StripRight(s)[|StripRight(s)| - 1])
  {
    if s != [] && IsSpace(s[|s| - 1]) { StripRightEnds(s[..|s| - 1]); }
  }

  /** A stripped name neither starts nor ends with white space, and stripping it again changes nothing. */
  lemma StripEnds(s: string)
    ensures var r := Strip(s); r != [] ==> !IsSpace(r[0]) && !IsSpace(r[|r| - 1])
    ensures Strip(Strip(s)) == Strip(s)
  {
    StripLeftEnds(s);
    StripRightEnds(StripLeft(s));
  }

  lemma {:induction false} StripLeftCuts(s: string) returns (k: nat)
    ensures k <= |s| && StripLeft(s) == s[k..] && forall j :: 0 <= j < k ==> IsSpace(s[j])
  {
    k := 0;
    if s != [] && IsSpace(s[0]) {
      var n := StripLeftCuts(s[1..]);
      k := n + 1;
      forall j | 0 <= j < k ensures IsSpace(s[j]) { if j > 0 { assert s[j] == s[1..][j - 1]; } }
    }
  }

  lemma {:induction false} StripRightCuts(s: string)
    ensures StripRight(s) <= s && forall j :: |StripRight(s)| <= j < |s| ==> IsSpace(s[j])
  {
    if s != [] && IsSpace(s[|s| - 1]) {
      var rest := s[..|s| - 1];
      StripRightCuts(rest);
      forall j | |StripRight(s)| <= j < |s| ensures IsSpace(s[j]) { if j < |rest| { assert s[j] == rest[j]; } }
    }
  }

  /** Stripping cuts off white space at the ends and nothing else. */
  lemma StripCuts(s: string)
    ensures exists i, j :: 0 <= i <= j <= |s| && Strip(s) == s[i..j] && forall k :: 0 <= k < |s| && !(i <= k < j) ==> IsSpace(s[k])
  {
    var i := StripLeftCuts(s);
    var left := s[i..];
    StripRightCuts(left);
    var j := i + |Strip(s)|;
    assert Strip(s) == left[..|Strip(s)|] == s[i..j];
    forall k | 0 <= k < |s| && !(i <= k < j) ensures IsSpace(s[k]) { if k >= j { assert s[k] == left[k - i]; } }
  }

  // ---- what each call makes of the servers -------------------------------------------------------

  /** `_register`: refresh the entry of this endpoint and model, or add one under a new id. Turning
      an entry managed makes it unhealthy until a check succeeds. */
  function Registered(s: Servers, model: string, endpoint: string, managed: bool, id: ServerId, now: real): Servers {
    var t := Swept(s, now);
    match FindPair(t, endpoint, model, 0)
    case None => t + [Entry(id, endpoint, model, now, 0, managed, !managed, 0, false)]
    case Some(i) =>
      var e := t[i].(lastHeartbeat := now);
      t[i := if managed && !e.managed then e.(managed := true, healthy := false) else e]
  }

  predicate Beats(t: Servers, id: ServerId, now: real) {
    var i := FindId(t, id, 0);
    i.Some? && !t[i.value].removed && (t[i.value].managed || Healthy(t[i.value], now))
  }

  /** `Heartbeat`: refused for an unknown or removed entry, and for an unmanaged one that has expired. */
  function HeartBeaten(s: Servers, id: ServerId, now: real): Servers {
    var t := Swept(s, now);
    if Beats(t, id, now) then
      var i := FindId(t, id, 0).value;
      t[i := t[i].(lastHeartbeat := now)]
    else t
  }

  /** `remove_backend`: an entry with requests in flight stays, marked, until they are released. */
  function Removed(s: Servers, id: ServerId, now: real): Servers {
    var i := FindId(s, id, 0);
    if i.None? || s[i.value].removed then s else Swept(s[i.value := s[i.value].(removed := true)], now)
  }

  function Checked(e: Entry, ok: bool, threshold: int): Entry {
    if ok then e.(failures := 0, healthy := true)
    else if e.failures + 1 >= threshold then e.(failures := e.failures + 1, healthy := false)
    else e.(failures := e.failures + 1)
  }

  /** `record_health`. */
  function Recorded(s: Servers, id: ServerId, ok: bool, threshold: int): Servers {
    var i := FindId(s, id, 0);
    if i.None? || s[i.value].removed || !s[i.value].managed then s
    else s[i.value := Checked(s[i.value], ok, threshold)]
  }

  /** The loop of `acquire_server` over the first `n` entries. */
  function Best(s: Servers, model: string, now: real, n: nat): (b: Option<nat>)
    requires n <= |s|
    ensures b.Some? ==> b.value < n && Eligible(s[b.value], model, now)
  {
    if n == 0 then None else
      var b := Best(s, model, now, n - 1);
      if Eligible(s[n - 1], model, now) && (b.None? || s[n - 1].inFlight < s[b.value].inFlight) then Some(n - 1) else b
  }

  function Choice(s: Servers, model: string, now: real): Option<nat> { Best(s, model, now, |s|) }

  function Acquired(s: Servers, model: string, now: real): Servers {
    var t := Swept(s, now);
    match Choice(t, model, now)
    case None => t
    case Some(i) => t[i := t[i].(inFlight := t[i].inFlight + 1)]
  }

  /** `release_server`. */
  function Released(s: Servers, id: ServerId, now: real): Servers {
    var i := FindId(s, id, 0);
    Swept(if i.Some? && s[i.value].inFlight > 0 then s[i.value := s[i.value].(inFlight := s[i.value].inFlight - 1)] else s, now)
  }

  // ---- the service object ------------------------------------------------------------------------

  class ModelRegistryService {
    var servers: Servers

    constructor ()
      ensures servers == []
    {
      servers := [];
    }

    method RemoveExpired(now: real)
      modifies this
      ensures servers == Swept(old(servers), now)
    {
      hide Expired;
      var kept: Servers := [];
      for i := 0 to |servers|
        invariant servers == old(servers)
        invariant kept + Swept(servers[i..], now) == Swept(servers, now)
      {
        assert servers[i..][1..] == servers[i + 1..];
        if !Expired(servers[i], now) {
          assert (kept + [servers[i]]) + Swept(servers[i + 1..], now) == kept + Swept(servers[i..], now);
          kept := kept + [servers[i]];
        }
      }
      servers := kept;
    }

    /** Strips the names and refuses blank ones. */
    method Register(rawModel: string, rawEndpoint: string, managed: bool, id: ServerId, now: real) returns (accepted: Option<ServerId>)
      modifies this
      ensures accepted.Some? <==> Strip(rawModel) != "" && Strip(rawEndpoint) != ""
      ensures accepted.None? ==> servers == old(servers)
      ensures accepted.Some? ==>
                && servers == Registered(old(servers), Strip(rawModel), Strip(rawEndpoint), managed, id, now)
                && exists i :: 0 <= i < |servers| && servers[i].id == accepted.value && IsPair(servers[i], Strip(rawEndpoint), Strip(rawModel))
    {
      var model, endpoint := Strip(rawModel), Strip(rawEndpoint);
      if model == "" || endpoint == "" { return None; }
      RemoveExpired(now);
      var i := Lookup(endpoint, model);
      if i.None? {
        servers := servers + [Entry(id, endpoint, model, now, 0, managed, !managed, 0, false)];
        assert servers[|servers| - 1].id == id;
        accepted := Some(id);
      } else {
        var e := servers[i.value].(lastHeartbeat := now);
        if managed && !e.managed { e := e.(managed := true, healthy := false); }
        servers := servers[i.value := e];
        assert servers[i.value].id == e.id;
        accepted := Some(e.id);
      }
    }

    method Lookup(endpoint: string, model: string) returns (r: Option<nat>)
      ensures r == FindPair(servers, endpoint, model, 0)
    {
      for i := 0 to |servers|
        invariant FindPair(servers, endpoint, model, 0) == FindPair(servers, endpoint, model, i)
      {
        if IsPair(servers[i], endpoint, model) { return Some(i); }
      }
      r := None;
    }

    method Get(id: ServerId) returns (r: Option<nat>)
      ensures r == FindId(servers, id, 0)
    {
      for i := 0 to |servers|
        invariant FindId(servers, id, 0) == FindId(servers, id, i)
      {
        if servers[i].id == id { return Some(i); }
      }
      r := None;
    }

    method Heartbeat(id: ServerId, now: real) returns (registered: bool)
      modifies this
      ensures servers == HeartBeaten(old(servers), id, now)
      ensures registered <==> Beats(Swept(old(servers), now), id, now)
      ensures registered ==> exists i :: 0 <= i < |servers| && servers[i].id == id && !servers[i].removed && servers[i].lastHeartbeat == now
    {
      RemoveExpired(now);
      var i := Get(id);
      if i.None? || servers[i.value].removed || (!servers[i.value].managed && !Healthy(servers[i.value], now)) { return false; }
      servers := servers[i.value := servers[i.value].(lastHeartbeat := now)];
      assert servers[i.value].id == id;
      registered := true;
    }

    method RemoveBackend(id: ServerId, now: real) returns (found: bool)
      modifies this
      ensures servers == Removed(old(servers), id, now)
      ensures found <==> exists i :: FindId(old(servers), id, 0) == Some(i) && !old(servers)[i].removed
    {
      var i := Get(id);
      if i.None? || servers[i.value].removed { return false; }
      servers := servers[i.value := servers[i.value].(removed := true)];
      RemoveExpired(now);
      found := true;
    }

    method RecordHealth(id: ServerId, ok: bool, threshold: int)
      modifies this
      ensures servers == Recorded(old(servers), id, ok, threshold)
    {
      var i := Get(id);
      if i.None? || servers[i.value].removed || !servers[i.value].managed { return; }
      var e := servers[i.value];
      if ok {
        e := e.(failures := 0, healthy := true);
      } else {
        e := e.(failures := e.failures + 1);
        if e.failures >= threshold { e := e.(healthy := false); }
      }
      servers := servers[i.value := e];
    }

    /** The chosen server, whose load has been raised. */
    method AcquireServer(model: string, now: real) returns (selected: Option<Entry>)
      modifies this
      ensures servers == Acquired(old(servers), model, now)
      ensures var t := Swept(old(servers), now);
              selected == match Choice(t, model, now) case None => None case Some(i) => Some(t[i])
    {
      RemoveExpired(now);
      var best: Option<nat> := None;
      for i := 0 to |servers|
        invariant best == Best(servers, model, now, i)
      {
        if servers[i].model == model && !servers[i].removed && Healthy(servers[i], now) {
          if best.None? || servers[i].inFlight < servers[best.value].inFlight { best := Some(i); }
        }
      }
      if best.None? { return None; }
      selected := Some(servers[best.value]);
      servers := servers[best.value := servers[best.value].(inFlight := servers[best.value].inFlight + 1)];
    }

    method ReleaseServer(id: ServerId, now: real)
      modifies this
      ensures servers == Released(old(servers), id, now)
    {
      var i := Get(id);
      if i.Some? && servers[i.value].inFlight > 0 {
        servers := servers[i.value := servers[i.value].(inFlight := servers[i.value].inFlight - 1)];
      }
      RemoveExpired(now);
    }

    method Endpoints(now: real) returns (r: set<string>)
      modifies this
      ensures servers == Swept(old(servers), now)
      ensures r == set e | e in servers :: e.endpoint
    {
      RemoveExpired(now);
      r := set e | e in servers :: e.endpoint;
    }
  }
}
