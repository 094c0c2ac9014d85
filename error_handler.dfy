/** The application's error bookkeeping: a log that keeps the most recent
    errors, a summary of it counted by error name, the message shown to the
    user for an error and whether retrying may help. The time, the user
    agent and the page address of an entry are parameters; console output
    and external reporting are not modelled. */
module ErrorHandler {
  import opened Wrappers
  import opened Text
  import opened Seqs
  import opened JsMaps
  import opened IsoTime

  // ---------------------------------------------------------------- errors

  /** What `instanceof` can tell apart: the four error classes the
      application defines, and every other `Error`. */
  datatype ErrorClass = TripServiceClass | WeatherServiceClass | ValidationClass | NetworkClass | OtherClass

  /** An `Error`: its class, its `name` property and its `message`. */
  datatype AppError = AppError(cls: ErrorClass, name: string, message: string)

  /** The constructors of the application's error classes set `name` to the
      class name. */
  function TripServiceError(message: string): AppError
  {
    AppError(TripServiceClass, "TripServiceError", message)
  }

  function WeatherServiceError(message: string): AppError
  {
    AppError(WeatherServiceClass, "WeatherServiceError", message)
  }

  function ValidationError(message: string): AppError
  {
    AppError(ValidationClass, "ValidationError", message)
  }

  function NetworkError(message: string): AppError
  {
    AppError(NetworkClass, "NetworkError", message)
  }

  const DefaultMessage := "An unexpected error occurred"

  /** The prefix `formatErrorMessage` puts before the message of each of the
      application's classes. */
  function ClassPrefix(cls: ErrorClass): string
  {
    match cls
    case TripServiceClass => "Trip operation failed: "
    case WeatherServiceClass => "Weather service error: "
    case ValidationClass => "Validation error: "
    case NetworkClass => "Network error: "
    case OtherClass => ""
  }

  /** `formatErrorMessage`: the application's classes get their prefix;
      any other error shows its own message, or the default text when that
      is empty. The result is never empty and always ends with the
      message. */
  function FormatErrorMessage(e: AppError): (msg: string)
    ensures msg != []
    ensures EndsWith(msg, e.message)
    ensures e.cls != OtherClass ==> StartsWith(msg, ClassPrefix(e.cls)) && |msg| == |ClassPrefix(e.cls)| + |e.message|
    ensures e.cls == OtherClass && e.message != [] ==> msg == e.message
    ensures e.cls == OtherClass && e.message == [] ==> msg == DefaultMessage
  {
    match e.cls
    case TripServiceClass => "Trip operation failed: " + e.message
    case WeatherServiceClass => "Weather service error: " + e.message
    case ValidationClass => "Validation error: " + e.message
    case NetworkClass => "Network error: " + e.message
    case OtherClass => if e.message != [] then e.message else DefaultMessage
  }

  /** `isRetryableError`. */
  predicate IsRetryableError(e: AppError)
  {
    e.cls == NetworkClass || e.cls == WeatherServiceClass || e.name == "TypeError" || e.name == "ReferenceError"
  }

  /** Network and weather-service errors are worth retrying, trip-service
      and validation errors as constructed are not, and any other error is
      exactly when it is a `TypeError` or a `ReferenceError`. */
  lemma RetryableByClass(message: string, name: string)
    ensures IsRetryableError(NetworkError(message)) && IsRetryableError(WeatherServiceError(message))
    ensures !IsRetryableError(TripServiceError(message)) && !IsRetryableError(ValidationError(message))
    ensures IsRetryableError(AppError(OtherClass, name, message)) <==> name == "TypeError" || name == "ReferenceError"
  {
    assert |"TripServiceError"| != |"TypeError"| && |"TripServiceError"| != |"ReferenceError"|;
    assert |"ValidationError"| != |"TypeError"| && |"ValidationError"| != |"ReferenceError"|;
  }

  // ------------------------------------------------------------------- log

  datatype ErrorLogEntry = ErrorLogEntry(
    timestamp: Time,
    error: AppError,
    context: Option<string>,
    userAgent: string,
    url: string)

  const MaxLogEntries: nat := 100

  /** The last `n` elements of `xs`, all of them when there are fewer:
      `xs.slice(-n)` for a positive `n`. */
  function Last<T>(xs: seq<T>, n: nat): (r: seq<T>)
    ensures |r| == if |xs| < n then |xs| else n
  {
    if |xs| <= n then xs else xs[|xs| - n..]
  }

  /** Appending one element and then dropping the first while there are
      more than `n` keeps the last `n`. */
  lemma LastSnoc<T>(xs: seq<T>, x: T, n: nat)
    requires n > 0
    ensures Last(xs + [x], n) == if |Last(xs, n)| + 1 > n then (Last(xs, n) + [x])[1..] else Last(xs, n) + [x]
  {
    if |xs| + 1 > n {
      assert (xs + [x])[|xs| + 1 - n..] == (Last(xs, n) + [x])[1..];
    }
  }

  /** The last `m` of the last `n` are the last `m`, for `m <= n`. */
  lemma LastOfLast<T>(xs: seq<T>, n: nat, m: nat)
    requires m <= n
    ensures Last(Last(xs, n), m) == Last(xs, m)
  {
  }

  /** The name a summary counts an error under. */
  function TypeName(e: ErrorLogEntry): (name: string)
    ensures name != []
    ensures e.error.name == [] ==> name == "Unknown"
    ensures e.error.name != [] ==> name == e.error.name
  {
    if e.error.name != [] then e.error.name else "Unknown"
  }

  /** One step of the summary's `forEach`:
      `errorTypes.set(name, (errorTypes.get(name) || 0) + 1)`. */
  function Tally(m: JsMap<string, nat>, e: ErrorLogEntry): JsMap<string, nat>
  {
    Put(m, TypeName(e), Get(m, TypeName(e)).GetOr(0) + 1)
  }

  /** The counts the summary's `forEach` builds: names in order of first
      occurrence, each with the number of its entries. */
  function CountByName(log: seq<ErrorLogEntry>): JsMap<string, nat>
  {
    if log == [] then [] else Tally(CountByName(log[..|log| - 1]), log[|log| - 1])
  }

  /** A step counts one more under the entry's name and changes no other
      count. */
  lemma TallyGet(m: JsMap<string, nat>, e: ErrorLogEntry, name: string)
    ensures Get(Tally(m, e), name) == if name == TypeName(e) then Some(Get(m, name).GetOr(0) + 1) else Get(m, name)
  {
  }

  /** The number of entries counted under `name`. */
  function Occurrences(log: seq<ErrorLogEntry>, name: string): nat
  {
    if log == [] then 0
    else Occurrences(log[..|log| - 1], name) + (if TypeName(log[|log| - 1]) == name then 1 else 0)
  }

  /** Every name is counted exactly as often as it occurs, and a name that
      does not occur has no entry; the empty name never does, as it counts
      as "Unknown". */
  lemma {:induction false} CountsAreOccurrences(log: seq<ErrorLogEntry>, name: string)
    ensures Get(CountByName(log), name) == if Occurrences(log, name) == 0 then None else Some(Occurrences(log, name))
    ensures !Has(CountByName(log), [])
    decreases |log|
  {
    if log != [] {
      var m, e := CountByName(log[..|log| - 1]), log[|log| - 1];
      CountsAreOccurrences(log[..|log| - 1], name);
      CountsAreOccurrences(log[..|log| - 1], []);
      assert CountByName(log) == Tally(m, e);
      assert Occurrences(log, name) == Occurrences(log[..|log| - 1], name) + (if TypeName(e) == name then 1 else 0);
      TallyGet(m, e, name);
      TallyGet(m, e, []);
    }
  }

  /** The values of a map after `set`: one replaced in place, or one
      appended. */
  lemma PutValues<V>(m: JsMap<string, V>, k: string, v: V)
    ensures Has(m, k) ==> Values(Put(m, k, v)) == Values(m)[IndexOf(m, k) := v]
    ensures !Has(m, k) ==> Values(Put(m, k, v)) == Values(m) + [v]
  {
    var i := IndexOf(m, k);
    if i >= 0 {
      assert Put(m, k, v) == m[i := Entry(k, v)];
    } else {
      assert Put(m, k, v) == m + [Entry(k, v)];
    }
  }

  /** Each step adds one to the total of the counts. */
  lemma TallySum(m: JsMap<string, nat>, e: ErrorLogEntry)
    ensures Sum(Values(Tally(m, e))) == Sum(Values(m)) + 1
  {
    var name := TypeName(e);
    var v := Get(m, name).GetOr(0) + 1;
    PutValues(m, name, v);
    if Has(m, name) {
      var i := IndexOf(m, name);
      assert Values(m)[i] == v - 1;
      SumUpdate(Values(m), i, v);
    } else {
      SumAppend(Values(m), [1]);
      assert Sum([1]) == 1;
    }
  }

  /** The counts add up to the number of entries. */
  lemma {:induction false} CountsSumToTotal(log: seq<ErrorLogEntry>)
    ensures Sum(Values(CountByName(log))) == |log|
    decreases |log|
  {
    if log != [] {
      CountsSumToTotal(log[..|log| - 1]);
      TallySum(CountByName(log[..|log| - 1]), log[|log| - 1]);
    }
  }

  /** `getErrorSummary()`'s result. */
  datatype ErrorSummary = ErrorSummary(totalErrors: nat, errorTypes: JsMap<string, nat>, recentErrors: seq<ErrorLogEntry>)

  /** `GlobalErrorHandler`. The log holds the most recent entries handled
      since it was last cleared, at most `MaxLogEntries` of them. */
  class GlobalErrorHandler {
    var errorLog: seq<ErrorLogEntry>
    /** Every entry handled since the log was last cleared. */
    ghost var handled: seq<ErrorLogEntry>

    ghost predicate Valid()
      reads this
    {
      errorLog == Last(handled, MaxLogEntries)
    }

    constructor()
      ensures Valid() && errorLog == [] && handled == []
    {
      errorLog := [];
      handled := [];
    }

    /** The log part of `handleError`: push the entry, then drop the
        oldest while there are more than the maximum. */
    method HandleError(error: AppError, context: Option<string>, now: Time, userAgent: string, url: string)
      requires Valid()
      modifies this
      ensures Valid()
      ensures handled == old(handled) + [ErrorLogEntry(now, error, context, userAgent, url)]
      ensures |errorLog| <= MaxLogEntries
      ensures errorLog[|errorLog| - 1] == ErrorLogEntry(now, error, context, userAgent, url)
      ensures errorLog[..|errorLog| - 1] == Last(old(errorLog), MaxLogEntries - 1)
    {
      var entry := ErrorLogEntry(now, error, context, userAgent, url);
      errorLog := errorLog + [entry];
      if |errorLog| > MaxLogEntries {
        errorLog := errorLog[1..];
      }
      LastSnoc(handled, entry, MaxLogEntries);
      handled := handled + [entry];
    }

    /** `getErrorLog()`: a copy, which later changes to the log do not
        reach. */
    function GetErrorLog(): (r: seq<ErrorLogEntry>)
      requires Valid()
      reads this
      ensures |r| <= MaxLogEntries
      ensures r == Last(handled, MaxLogEntries)
    {
      errorLog
    }

    /** `clearErrorLog()`. */
    method ClearErrorLog()
      modifies this
      ensures Valid() && errorLog == [] && handled == []
    {
      errorLog := [];
      handled := [];
    }

    /** `getErrorSummary()`: the total, the counts filled in by the
        `forEach`, and the five most recent entries. */
    method GetErrorSummary() returns (s: ErrorSummary)
      ensures s.totalErrors == |errorLog|
      ensures s.errorTypes == CountByName(errorLog)
      ensures s.recentErrors == Last(errorLog, 5)
    {
      var errorTypes: JsMap<string, nat> := [];
      for i := 0 to |errorLog|
        invariant errorTypes == CountByName(errorLog[..i])
      {
        assert errorLog[..i + 1][..i] == errorLog[..i];
        errorTypes := Tally(errorTypes, errorLog[i]);
      }
      assert errorLog[..|errorLog|] == errorLog;
      s := ErrorSummary(|errorLog|, errorTypes, Last(errorLog, 5));
    }
  }

  /** The summary's recent errors are the five most recent ever handled
      since the last clear, and its counts add up to its total. */
  lemma SummaryOfLog(h: GlobalErrorHandler, s: ErrorSummary)
    requires h.Valid()
    requires s.totalErrors == |h.errorLog| && s.errorTypes == CountByName(h.errorLog) && s.recentErrors == Last(h.errorLog, 5)
    ensures s.recentErrors == Last(h.handled, 5)
    ensures Sum(Values(s.errorTypes)) == s.totalErrors
  {
    LastOfLast(h.handled, MaxLogEntries, 5);
    CountsSumToTotal(h.errorLog);
  }
}
