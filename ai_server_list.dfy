/** The server list (`AIServerList`): picks the backend for the next request
    and says which inactive backends the health sweep probes. */
module AIServerLists {
  import opened Wrappers
  import opened AIServers

  /** The sort key `(float)AvgRoundTrip * ActiveCalls`; the product of two
      integers is exact here (floating-point rounding is not modelled). */
  function Load(s: Stats): int {
    s.avgRoundTrip * s.activeCalls
  }

  /** `a` sorts strictly before `b` under `OrderBy(Load).ThenBy(ActiveCalls)`. */
  predicate Before(a: Stats, b: Stats) {
    Load(a) < Load(b) || (Load(a) == Load(b) && a.activeCalls < b.activeCalls)
  }

  /** The index of the server `GetAIEndpoint` returns, or None for null: the
      first active server in the stable order by load, then by calls in flight. */
  function Select(ss: seq<Stats>): (r: Option<nat>)
    ensures r.None? <==> forall i :: 0 <= i < |ss| ==> !ss[i].isActive
    ensures r.Some? ==> r.value < |ss| && ss[r.value].isActive
    ensures r.Some? ==> forall i :: 0 <= i < |ss| && ss[i].isActive ==> !Before(ss[i], ss[r.value])
    ensures r.Some? ==> forall i :: 0 <= i < r.value && ss[i].isActive ==> Before(ss[r.value], ss[i])
    decreases |ss|
  {
    if ss == [] then None
    else
      var n := |ss| - 1;
      var p := Select(ss[..n]);
      assert forall i :: 0 <= i < n ==> ss[..n][i] == ss[i];
      if !ss[n].isActive then p
      else if p.None? then Some(n)
      else if Before(ss[n], ss[p.value]) then Some(n)
      else p
  }

  /** The selection is the only index with those properties: an active server
      no other active server sorts before, and that sorts strictly before every
      earlier active server. */
  lemma SelectUnique(ss: seq<Stats>, k: nat)
    requires k < |ss| && ss[k].isActive
    requires forall i :: 0 <= i < |ss| && ss[i].isActive ==> !Before(ss[i], ss[k])
    requires forall i :: 0 <= i < k && ss[i].isActive ==> Before(ss[k], ss[i])
    ensures Select(ss) == Some(k)
  {
    var j := Select(ss).value;
    assert !Before(ss[k], ss[j]) && !Before(ss[j], ss[k]);
    assert j == k;
  }

  /** With non-negative statistics an idle active server is always preferred
      to a busy one: if some active server has no call in flight, neither has
      the selected one. */
  lemma SelectPrefersIdle(ss: seq<Stats>, idle: nat)
    requires forall i :: 0 <= i < |ss| ==> NonNegative(ss[i])
    requires idle < |ss| && ss[idle].isActive && ss[idle].activeCalls == 0
    ensures Select(ss).Some? && ss[Select(ss).value].activeCalls == 0
  {
    var k := Select(ss).value;
    var a, b := ss[idle], ss[k];
    assert !Before(a, b);
    LoadBounds(a);
    LoadBounds(b);
  }

  /** The load of non-negative statistics is non-negative, and 0 when no
      call is in flight. */
  lemma LoadBounds(s: Stats)
    requires s.activeCalls >= 0 && s.avgRoundTrip >= 0
    ensures Load(s) >= 0
    ensures s.activeCalls == 0 ==> Load(s) == 0
  {
  }

  /** The fixed 30 seconds, in milliseconds, after which an inactive server
      that last answered is probed again. */
  const SweepDelayMs: int := 30000

  /** A server the sweep probes at time `now`: inactive, no probe running, and
      never seen active or last seen active more than 30 seconds ago. */
  predicate SweepEligible(s: Stats, activeChecks: int, now: int) {
    !s.isActive && activeChecks == 0 &&
    (s.lastKnownActive.None? || now - s.lastKnownActive.value > SweepDelayMs)
  }

  /** A server deactivated by a failed request is probed again exactly when no
      probe is running and it never answered or last answered more than
      30 seconds ago; a server whose last request succeeded is not probed. */
  lemma SweepAfterRequest(s: Stats, alpha: real, outcome: CallOutcome, sampleMs: int, now: int,
                          later: int, activeChecks: int)
    requires s.isActive
    ensures var r := AfterSend(s, alpha, outcome, sampleMs, now);
            SweepEligible(r, activeChecks, later) <==>
              outcome.Threw? && activeChecks == 0 &&
              (s.lastKnownActive.None? || later - s.lastKnownActive.value > SweepDelayMs)
  {
  }

  class AIServerList {
    var servers: seq<AIServer>
    /** Stored by the constructor; the sweep uses the fixed 30 seconds instead. */
    var inactiveServerCheckInterval: int

    constructor (servers: seq<AIServer>, inactiveServerCheckInterval: int)
      ensures this.servers == servers
      ensures this.inactiveServerCheckInterval == inactiveServerCheckInterval
    {
      this.servers := servers;
      this.inactiveServerCheckInterval := inactiveServerCheckInterval;
    }

    /** The statistics of the servers, in list order. */
    function Snapshot(): (r: seq<Stats>)
      reads this, servers
      ensures |r| == |servers|
      ensures forall i :: 0 <= i < |servers| ==> r[i] == servers[i].State()
    {
      seq(|servers|, i reads this, servers requires 0 <= i < |servers| => servers[i].State())
    }

    /** The construction-time settings of the servers, in list order. */
    function Configs(): (r: seq<Config>)
      reads this, servers
      ensures |r| == |servers|
      ensures forall i :: 0 <= i < |servers| ==> r[i] == servers[i].Settings()
    {
      seq(|servers|, i reads this, servers requires 0 <= i < |servers| => servers[i].Settings())
    }

    /** Each entry is its own server object, as the start-up code builds them. */
    predicate Distinct()
      reads this
    {
      forall i, j :: 0 <= i < j < |servers| ==> servers[i] != servers[j]
    }

    /** The selection step of `GetAIEndpoint`: it reads the servers and
        changes none of them. */
    method GetAIEndpoint() returns (next: Option<AIServer>)
      ensures next.None? <==> forall i :: 0 <= i < |servers| ==> !servers[i].isActive
      ensures next.Some? ==> next.value in servers && next.value.isActive
      ensures next.Some? ==> var k := Select(Snapshot()).value;
                             k < |servers| && next.value == servers[k]
    {
      var ss := Snapshot();
      var k := Select(ss);
      if k.Some? {
        next := Some(servers[k.value]);
      } else {
        next := None;
      }
    }
  }
}
