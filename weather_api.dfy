/** The client of the weather source: a fixed-window rate limiter (at most
    10 requests per 60 s window) in front of the source, and the mapping of
    the source's failures to the messages the application shows. The source
    itself (the HTTP request or the mock generator) is the `Upstream`
    parameter: the response it gives or the error it throws. */
module WeatherApiModel {
  import opened Wrappers
  import opened Text
  import opened IsoTime
  import opened WeatherTypes

  const RateLimitWindow: int := 60000
  const MaxRequestsPerWindow: int := 10

  /** The two fields of the limiter: requests counted in the window and the
      time the window opened. */
  datatype Limiter = Limiter(count: int, last: int)

  /** The limiter after one check, and the error the check throws, if any. */
  datatype Check = Check(state: Limiter, error: Option<string>)

  function RetryMessage(seconds: nat): string
  {
    "Rate limit exceeded. Retry after " + NatToString(seconds) + " seconds"
  }

  /** One `checkRateLimit` at time `now`: open a new window when more than
      a window has passed, then refuse when the window is full, otherwise
      count the request. */
  function RateLimitStep(s: Limiter, now: int): (r: Check)
    ensures r.error.Some? ==> r.state == s
  {
    var w := if now - s.last > RateLimitWindow then Limiter(0, now) else s;
    if w.count >= MaxRequestsPerWindow then
      var retryAfter := RateLimitWindow - (now - w.last);
      Check(w, Some(RetryMessage(CeilDiv(retryAfter, 1000))))
    else Check(Limiter(w.count + 1, w.last), None)
  }

  /** The window restarts exactly when more than 60 s have passed since it
      opened; a passing check counts one request more, a refused one
      changes nothing. */
  lemma StepEffect(s: Limiter, now: int)
    requires s.count >= 0
    ensures var r := RateLimitStep(s, now);
      && (now - s.last > RateLimitWindow ==> r.state == Limiter(1, now) && r.error.None?)
      && (now - s.last <= RateLimitWindow ==> r.state.last == s.last)
      && (r.error.None? ==> r.state.count == (if now - s.last > RateLimitWindow then 0 else s.count) + 1)
      && (r.error.Some? <==> now - s.last <= RateLimitWindow && s.count >= MaxRequestsPerWindow)
  {
  }

  /** A refused check names a wait of at most one window: between 0 and
      60 seconds while the clock does not run backwards. */
  lemma RetryWithinWindow(s: Limiter, now: int)
    requires now >= s.last
    requires RateLimitStep(s, now).error.Some?
    ensures exists n: nat :: 0 <= n <= 60 && RateLimitStep(s, now).error == Some(RetryMessage(n))
  {
    var retryAfter := RateLimitWindow - (now - s.last);
    var n := CeilDiv(retryAfter, 1000);
    assert 0 <= n <= 60;
    assert RateLimitStep(s, now).error == Some(RetryMessage(n));
  }

  /** The number of checks that pass in a run of checks at the given times. */
  function Passes(s: Limiter, times: seq<int>): nat
    decreases |times|
  {
    if times == [] then 0
    else
      var r := RateLimitStep(s, times[0]);
      (if r.error.None? then 1 else 0) + Passes(r.state, times[1..])
  }

  /** Within one window, exactly `min(n, 10 - count)` of `n` checks pass:
      never more than 10 per window. */
  lemma {:induction false} PassesInWindow(s: Limiter, times: seq<int>)
    requires 0 <= s.count
    requires forall i :: 0 <= i < |times| ==> times[i] - s.last <= RateLimitWindow
    ensures Passes(s, times) == Min(|times|, Max(0, MaxRequestsPerWindow - s.count))
    ensures Passes(s, times) <= MaxRequestsPerWindow
    decreases |times|
  {
    if times != [] {
      var r := RateLimitStep(s, times[0]);
      assert r.state.last == s.last && r.state.count >= 0;
      assert forall i :: 0 <= i < |times| - 1 ==> times[1..][i] == times[i + 1];
      PassesInWindow(r.state, times[1..]);
    }
  }

  function Min(a: int, b: int): int { if a <= b then a else b }

  function Max(a: int, b: int): int { if a >= b then a else b }

  /** The limiter starts at count 0 and window time 0, so the first check
      after the first minute of the epoch opens a fresh window. */
  lemma FirstCheckOpensWindow(now: int)
    requires now > RateLimitWindow
    ensures RateLimitStep(Limiter(0, 0), now) == Check(Limiter(1, now), None)
  {
  }

  /** What the source does: answers, or throws an Error with a name and a
      message. */
  datatype ThrownError = ThrownError(name: string, message: string)

  datatype Upstream = Responded(response: WeatherApiResponse) | Threw(error: ThrownError)

  /** The `catch` of `getCurrentWeather`: time-outs get a fixed text,
      rate-limit errors pass unchanged, anything else gets a prefix. */
  function MapFetchError(e: ThrownError): (msg: string)
    ensures e.name == "AbortError" ==> msg == "Weather request timed out. Please try again."
    ensures e.name != "AbortError" ==> Includes(msg, e.message)
    ensures e.name != "AbortError" && !Includes(e.message, "Rate limit") ==> StartsWith(msg, "Unable to fetch weather data: ")
    ensures e.name != "AbortError" && Includes(e.message, "Rate limit") ==> msg == e.message
    ensures e.name != "AbortError" && !Includes(e.message, "Rate limit") ==> msg == "Unable to fetch weather data: " + e.message
  {
    if e.name == "AbortError" then "Weather request timed out. Please try again."
    else if Includes(e.message, "Rate limit") then
      assert OccursAt(e.message, e.message, 0);
      e.message
    else
      var prefix := "Unable to fetch weather data: ";
      var msg := prefix + e.message;
      assert OccursAt(msg, e.message, |prefix|);
      assert msg[..|prefix|] == prefix;
      msg
  }

  /** The refusal of the limiter reaches the caller word for word. */
  lemma RetryMessagePassesThrough(n: nat)
    ensures MapFetchError(ThrownError("Error", RetryMessage(n))) == RetryMessage(n)
  {
    var m := RetryMessage(n);
    var p := "Rate limit";
    assert m[..|p|] == p;
    PrefixIncluded(m, p);
  }

  /** `getCurrentWeather` at time `now`: the limiter check, then the source. */
  function CallOutcome(s: Limiter, now: int, up: Upstream): Result<WeatherApiResponse, string>
  {
    var check := RateLimitStep(s, now);
    if check.error.Some? then Failure(MapFetchError(ThrownError("Error", check.error.value)))
    else
      match up
      case Responded(resp) => Success(resp)
      case Threw(e) => Failure(MapFetchError(e))
  }

  class WeatherApi {
    var requestCount: int
    var lastRequestTime: int

    ghost predicate Valid()
      reads this
    {
      requestCount >= 0
    }

    function State(): Limiter
      reads this
    {
      Limiter(requestCount, lastRequestTime)
    }

    constructor()
      ensures Valid() && requestCount == 0 && lastRequestTime == 0
    {
      requestCount := 0;
      lastRequestTime := 0;
    }

    /** `checkRateLimit`; the error it throws is returned. */
    method CheckRateLimit(now: int) returns (error: Option<string>)
      requires Valid()
      modifies this
      ensures Valid()
      ensures State() == RateLimitStep(old(State()), now).state
      ensures error == RateLimitStep(old(State()), now).error
    {
      if now - lastRequestTime > RateLimitWindow {
        requestCount := 0;
        lastRequestTime := now;
      }
      if requestCount >= MaxRequestsPerWindow {
        var retryAfter := RateLimitWindow - (now - lastRequestTime);
        return Some(RetryMessage(CeilDiv(retryAfter, 1000)));
      }
      requestCount := requestCount + 1;
      return None;
    }

    /** `getCurrentWeather(location)`; `up` is what the source does when
        the limiter lets the request through. */
    method GetCurrentWeather(location: string, now: int, up: Upstream) returns (r: Result<WeatherApiResponse, string>)
      requires Valid()
      modifies this
      ensures Valid()
      ensures State() == RateLimitStep(old(State()), now).state
      ensures r == CallOutcome(old(State()), now, up)
    {
      var error := CheckRateLimit(now);
      if error.Some? {
        return Failure(MapFetchError(ThrownError("Error", error.value)));
      }
      match up
      case Responded(resp) => return Success(resp);
      case Threw(e) => return Failure(MapFetchError(e));
    }
  }
}
