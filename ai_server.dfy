/** A detection backend (`AIServer`) and the statistics it keeps: calls in
    flight, a moving average of the round trip, and whether it is active.
    The backend call itself (`CallAPI`) and the health probe are not modelled;
    their outcomes are parameters, and so are the clock readings. */
module AIServers {
  import opened Wrappers
  import opened Numeric
  import opened Boxes

  /** `APIResponse`: the detections a backend returned. */
  datatype ApiResponse = ApiResponse(predictions: seq<Detection>)

  /** How a call to the backend ended: it threw, it returned null, or it
      returned a response. */
  datatype CallOutcome = Threw | ReturnedNull | Returned(response: ApiResponse)

  /** How the health probe of `CheckStatus` ended. */
  datatype ProbeOutcome = Success | NonSuccess | ProbeThrew

  /** The fields a server's methods update. Timestamps are milliseconds. */
  datatype Stats = Stats(
    activeCalls: int,
    avgRoundTrip: int,
    avgRoundTripTotalCalls: int,
    totalCalls: int,
    isActive: bool,
    lastKnownActive: Option<int>)

  /** The fields set at construction and never changed by the statistics. */
  datatype Config = Config(
    serverName: string,
    port: int,
    endpoint: string,
    isSSL: bool,
    name: string,
    serverTimeout: int,
    movingAverageAlpha: real,
    maxBatchSize: Option<int>,
    rollingAverageWindow: int,
    activeChecks: int)

  /** The moving average after a sample of `ms`: the sample itself when the
      average is 0, else `(int)((1 - alpha) * avg + alpha * ms)`. */
  function NextAverage(avg: int, alpha: real, ms: int): int {
    if avg == 0 then ms else Blend(avg, alpha, ms)
  }

  /** `(int)((1 - alpha) * avg + alpha * ms)`: the weighted mean, truncated. */
  function Blend(avg: int, alpha: real, ms: int): int {
    Trunc((1.0 - alpha) * avg as real + alpha * ms as real)
  }

  /** The state after `AddRoundTripStat(ms)`. */
  function WithRoundTrip(s: Stats, alpha: real, ms: int): Stats {
    s.(avgRoundTrip := NextAverage(s.avgRoundTrip, alpha, ms), totalCalls := s.totalCalls + 1)
  }

  /** The state after `Deactivate()`. */
  function Deactivated(s: Stats): Stats {
    s.(isActive := false, avgRoundTrip := 0, avgRoundTripTotalCalls := 0)
  }

  /** The state after `Activate()` at time `now`. */
  function Activated(s: Stats, now: int): Stats {
    s.(isActive := true, lastKnownActive := Some(now))
  }

  /** The state after `SendRequest`: a call that threw deactivates the server;
      any call that returned records one round-trip sample, and one that
      returned a response also records the time. */
  function AfterSend(s: Stats, alpha: real, outcome: CallOutcome, sampleMs: int, now: int): Stats {
    match outcome
    case Threw => Deactivated(s)
    case ReturnedNull => WithRoundTrip(s, alpha, sampleMs)
    case Returned(_) => WithRoundTrip(s, alpha, sampleMs).(lastKnownActive := Some(now))
  }

  /** The state after `CheckStatus`: a successful probe activates the server,
      a failed or throwing one deactivates it. */
  function AfterProbe(s: Stats, probe: ProbeOutcome, now: int): Stats {
    if probe == Success then Activated(s, now) else Deactivated(s)
  }

  /** What `SendRequest` hands back: the response, or null. */
  function ResponseOf(outcome: CallOutcome): Option<ApiResponse> {
    if outcome.Returned? then Some(outcome.response) else None
  }

  function Scheme(isSSL: bool): string {
    if isSSL then "https" else "http"
  }

  class AIServer {
    var activeCalls: int
    var serverTimeout: int
    var endpoint: string
    var serverName: string
    var port: int
    var name: string
    var lastKnownActive: Option<int>
    var isSSL: bool
    var avgRoundTripTotalCalls: int
    var avgRoundTrip: int
    var rollingAverageWindow: int
    var totalCalls: int
    var isActive: bool
    var maxBatchSize: Option<int>
    var movingAverageAlpha: real
    /** Declared by the server interface and read by the sweep; nothing updates it. */
    var activeChecks: int

    function State(): Stats
      reads this
    {
      Stats(activeCalls, avgRoundTrip, avgRoundTripTotalCalls, totalCalls, isActive, lastKnownActive)
    }

    function Settings(): Config
      reads this
    {
      Config(serverName, port, endpoint, isSSL, name, serverTimeout, movingAverageAlpha,
             maxBatchSize, rollingAverageWindow, activeChecks)
    }

    /** A new server is active, with no call in flight and no statistics yet. */
    constructor (serverName: string, port: int, endpoint: string, isSSL: bool, name: string,
                 serverTimeout: int, movingAverageAlpha: real)
      ensures State() == Stats(0, 0, 0, 0, true, None)
      ensures Settings() == Config(serverName, port, endpoint, isSSL, name, serverTimeout,
                                   movingAverageAlpha, None, 0, 0)
    {
      this.serverName := serverName;
      this.port := port;
      this.endpoint := endpoint;
      this.isSSL := isSSL;
      this.name := name;
      this.serverTimeout := serverTimeout;
      this.movingAverageAlpha := movingAverageAlpha;
      activeCalls := 0;
      isActive := true;
      lastKnownActive := None;
      avgRoundTripTotalCalls := 0;
      avgRoundTrip := 0;
      rollingAverageWindow := 0;
      totalCalls := 0;
      maxBatchSize := None;
      activeChecks := 0;
    }

    /** `WebTestURL`: scheme, host and port; the scheme is https exactly when
        the server uses SSL. */
    function WebTestURL(): (u: string)
      reads this
      ensures |u| >= 5 && (u[..5] == "https" <==> isSSL)
      ensures u[|Scheme(isSSL)|..] == "://" + serverName + ":" + IntToString(port)
    {
      var scheme, rest := Scheme(isSSL), "://" + serverName + ":" + IntToString(port);
      assert (scheme + rest)[|scheme|..] == rest;
      assert (scheme + rest)[..5] == (if isSSL then "https" else "http:");
      scheme + rest
    }

    /** `ServiceUrl`: the test URL followed by the endpoint path. The source
        spells the scheme, host and port out again rather than reusing
        `WebTestURL`, and so does the model. */
    function ServiceUrl(): (u: string)
      reads this
      ensures u == WebTestURL() + endpoint
    {
      Scheme(isSSL) + "://" + serverName + ":" + IntToString(port) + endpoint
    }

    method IncrementActiveCalls()
      modifies this
      ensures State() == old(State()).(activeCalls := old(activeCalls) + 1)
      ensures Settings() == old(Settings())
    {
      activeCalls := activeCalls + 1;
    }

    method DecrementActiveCalls()
      modifies this
      ensures State() == old(State()).(activeCalls := old(activeCalls) - 1)
      ensures Settings() == old(Settings())
    {
      activeCalls := activeCalls - 1;
    }

    method Activate(now: int)
      modifies this
      ensures State() == Activated(old(State()), now)
      ensures Settings() == old(Settings())
    {
      isActive := true;
      lastKnownActive := Some(now);
    }

    method Deactivate()
      modifies this
      ensures State() == Deactivated(old(State()))
      ensures Settings() == old(Settings())
    {
      isActive := false;
      avgRoundTrip := 0;
      avgRoundTripTotalCalls := 0;
    }

    method AddRoundTripStat(milliseconds: int)
      modifies this
      ensures State() == WithRoundTrip(old(State()), movingAverageAlpha, milliseconds)
      ensures Settings() == old(Settings())
    {
      var alpha, average := movingAverageAlpha, avgRoundTrip;
      var next := milliseconds;
      if average != 0 {
        next := Blend(average, alpha, milliseconds);
      }
      assert next == NextAverage(average, alpha, milliseconds);
      avgRoundTrip := next;
      totalCalls := totalCalls + 1;
    }

    /** `SendRequest(Image)`: count the call in flight, run it, record the
        elapsed milliseconds (truncated) if it returned or deactivate if it
        threw, then count the call out; a response also records the time. */
    method SendRequest(outcome: CallOutcome, elapsedMs: real, now: int)
      returns (response: Option<ApiResponse>)
      modifies this
      ensures response == ResponseOf(outcome)
      ensures State() == AfterSend(old(State()), movingAverageAlpha, outcome, Trunc(elapsedMs), now)
      ensures Settings() == old(Settings())
    {
      response := Call(outcome, Trunc(elapsedMs), now);
    }

    /** `SendRequest(Images)`: as above, with the elapsed time divided by the
        number of images before truncation. With no images the division is
        undefined; every backend throws on an empty batch before it is reached. */
    method SendBatchRequest(outcome: CallOutcome, elapsedMs: real, imageCount: nat, now: int)
      returns (response: Option<ApiResponse>)
      requires outcome.Threw? || imageCount > 0
      modifies this
      ensures response == ResponseOf(outcome)
      ensures State() == AfterSend(old(State()), movingAverageAlpha, outcome,
                                   if outcome.Threw? then 0 else Trunc(elapsedMs / imageCount as real), now)
      ensures Settings() == old(Settings())
    {
      var sample := if outcome.Threw? then 0 else Trunc(elapsedMs / imageCount as real);
      response := Call(outcome, sample, now);
    }

    /** The body shared by both `SendRequest` overloads; `sampleMs` is the
        round-trip sample the overload computes. */
    method Call(outcome: CallOutcome, sampleMs: int, now: int) returns (response: Option<ApiResponse>)
      modifies this
      ensures response == ResponseOf(outcome)
      ensures State() == AfterSend(old(State()), movingAverageAlpha, outcome, sampleMs, now)
      ensures Settings() == old(Settings())
    {
      IncrementActiveCalls();
      response := None;
      if outcome.Threw? {
        Deactivate();
      } else {
        response := ResponseOf(outcome);
        AddRoundTripStat(sampleMs);
      }
      DecrementActiveCalls();
      if response.Some? {
        lastKnownActive := Some(now);
      }
    }

    /** `CheckStatus`, given how the probe of `WebTestURL` ended. */
    method CheckStatus(probe: ProbeOutcome, now: int)
      modifies this
      ensures State() == AfterProbe(old(State()), probe, now)
      ensures Settings() == old(Settings())
    {
      if probe == Success {
        Activate(now);
      } else {
        Deactivate();
      }
    }
  }

  // ---------------------------------------------------------------------------
  // Properties of the statistics.

  /** For a weight in (0, 1] and non-negative values the new average lies
      between the old one and the sample; the first sample is taken as is,
      and with weight 1 the average is the sample. */
  lemma NextAverageBetween(avg: int, alpha: real, ms: int)
    requires 0.0 < alpha <= 1.0 && avg >= 0 && ms >= 0
    ensures Min(avg, ms) <= NextAverage(avg, alpha, ms) <= Max(avg, ms)
    ensures avg == 0 || alpha == 1.0 ==> NextAverage(avg, alpha, ms) == ms
  {
    if avg != 0 {
      var v := (1.0 - alpha) * avg as real + alpha * ms as real;
      WeightedBetween(avg, ms, alpha);
      TruncBetween(Min(avg, ms), v, Max(avg, ms));
      assert NextAverage(avg, alpha, ms) == Blend(avg, alpha, ms) == Trunc(v);
      if alpha == 1.0 {
        assert v == ms as real;
        TruncOfInt(ms);
      }
    }
  }

  /** A weighted mean of two integers lies between them. */
  lemma WeightedBetween(a: int, b: int, alpha: real)
    requires 0.0 < alpha <= 1.0
    ensures Min(a, b) as real <= (1.0 - alpha) * a as real + alpha * b as real <= Max(a, b) as real
  {
    var v := (1.0 - alpha) * a as real + alpha * b as real;
    var beta := 1.0 - alpha;
    if a <= b {
      var d := (b - a) as real;
      assert v == a as real + alpha * d && v == b as real - beta * d;
      ProductNonNegative(alpha, d);
      ProductNonNegative(beta, d);
    } else {
      var d := (a - b) as real;
      assert v == a as real - alpha * d && v == b as real + beta * d;
      ProductNonNegative(alpha, d);
      ProductNonNegative(beta, d);
    }
  }

  /** The counters and the average are never negative. */
  predicate NonNegative(s: Stats) {
    s.activeCalls >= 0 && s.avgRoundTrip >= 0 && s.avgRoundTripTotalCalls >= 0 && s.totalCalls >= 0
  }

  /** A request keeps the statistics non-negative, whatever its outcome, and
      never changes the number of calls in flight. */
  lemma SendKeepsNonNegative(s: Stats, alpha: real, outcome: CallOutcome, sampleMs: int, now: int)
    requires NonNegative(s) && 0.0 < alpha <= 1.0 && sampleMs >= 0
    ensures NonNegative(AfterSend(s, alpha, outcome, sampleMs, now))
    ensures AfterSend(s, alpha, outcome, sampleMs, now).activeCalls == s.activeCalls
  {
    NextAverageBetween(s.avgRoundTrip, alpha, sampleMs);
  }

  /** The three outcomes of a request: one that threw deactivates the server,
      clears its average and leaves the sample count and the time alone; one
      that returned leaves the server's activity alone and adds exactly one
      sample; only a response moves `LastKnownActive`, to the given time. */
  lemma SendOutcomes(s: Stats, alpha: real, outcome: CallOutcome, sampleMs: int, now: int)
    ensures var r := AfterSend(s, alpha, outcome, sampleMs, now);
            (outcome.Threw? ==> !r.isActive && r.avgRoundTrip == 0 && r.avgRoundTripTotalCalls == 0 &&
                                r.totalCalls == s.totalCalls && r.lastKnownActive == s.lastKnownActive) &&
            (!outcome.Threw? ==> r.isActive == s.isActive && r.totalCalls == s.totalCalls + 1 &&
                                 r.avgRoundTrip == NextAverage(s.avgRoundTrip, alpha, sampleMs)) &&
            (r.lastKnownActive != s.lastKnownActive ==> outcome.Returned? && r.lastKnownActive == Some(now)) &&
            (outcome.Returned? ==> r.lastKnownActive == Some(now))
  {
  }

  /** A probe decides activity on its own: after it the server is active
      exactly when the probe succeeded, and a failed probe clears the average. */
  lemma ProbeDecidesActivity(s: Stats, probe: ProbeOutcome, now: int)
    ensures AfterProbe(s, probe, now).isActive <==> probe == Success
    ensures probe != Success ==> AfterProbe(s, probe, now).avgRoundTrip == 0
    ensures probe == Success ==> AfterProbe(s, probe, now).lastKnownActive == Some(now)
  {
  }
}
