/** The shared trip helpers: string sanitising, the field rules, the
    collected validation messages and the trip length in days. */
module TripUtils {
  import opened Wrappers
  import opened Text
  import opened Seqs
  import opened IsoTime
  import opened Trips

  const NameError := "Trip name must be between 1 and 100 characters"
  const DestinationError := "Destination must be between 1 and 200 characters"
  const DateOrderError := "Start date must be before or equal to end date"

  /** `sanitizeString`: trim, then turn every whitespace run into one space. */
  function SanitizeString(input: string): (r: string)
  {
    CollapseSpaces(Trim(input))
  }

  /** The sanitised string has no whitespace at its ends, single spaces
      inside, the same visible characters in the same order, and is empty
      exactly when the input was blank. */
  lemma SanitizeNormalizes(input: string)
    ensures Normalized(SanitizeString(input))
    ensures Visible(SanitizeString(input)) == Visible(input)
    ensures SanitizeString(input) == [] <==> AllSpace(input)
  {
    var t := Trim(input);
    CollapseEnds(t);
    CollapseMakesSingleSpaced(t);
    TrimEmpty(input);
    CollapseKeepsVisible(t);
    TrimKeepsVisible(input);
  }

  /** Sanitising a sanitised string changes nothing. */
  lemma SanitizeIdempotent(input: string)
    ensures SanitizeString(SanitizeString(input)) == SanitizeString(input)
  {
    var s := SanitizeString(input);
    SanitizeNormalizes(input);
    UnpaddedTrim(s);
    CollapseSingleSpaces(s);
  }

  /** Two words with whitespace around and between them come out as the
      two words joined by one space (`"  hello world  "` and
      `"hello    world"` both become `"hello world"`). */
  lemma SanitizeTwoWords(pre: string, a: string, sp: string, b: string, post: string)
    requires AllSpace(pre) && AllSpace(post)
    requires NoSpace(a) && NoSpace(b) && a != [] && b != []
    requires sp != [] && AllSpace(sp)
    ensures SanitizeString(pre + (a + sp + b) + post) == a + " " + b
  {
    var core := a + sp + b;
    assert core[0] == a[0] && core[|core| - 1] == b[|b| - 1];
    TrimPadding(pre, core, post);
    UnpaddedTrim(core);
    CollapseTwoWords(a, sp, b);
  }

  lemma CollapseTwoWords(a: string, sp: string, b: string)
    requires NoSpace(a) && NoSpace(b) && b != []
    requires sp != [] && AllSpace(sp)
    ensures CollapseSpaces(a + sp + b) == a + " " + b
  {
    assert a + sp + b == a + (sp + b);
    CollapseWord(a, sp + b);
    CollapseSpaceRun(sp, b);
    CollapseWord(b, []);
    assert b + [] == b;
  }

  /** `isValidTripName`: 1 to 100 characters once trimmed. */
  predicate IsValidTripName(name: string)
  {
    0 < |Trim(name)| <= 100
  }

  /** `isValidDestination`: 1 to 200 characters once trimmed. */
  predicate IsValidDestination(destination: string)
  {
    0 < |Trim(destination)| <= 200
  }

  /** `startDate <= endDate` on two `Date`s: a comparison with NaN is false. */
  predicate IsValidDateRange(start: JsDate, end: JsDate)
  {
    start.Some? && end.Some? && start.value <= end.value
  }

  /** For text without whitespace at its ends the bounds are on its own
      length (so 101 and 201 characters are refused); whitespace around it
      does not count. */
  lemma LengthRules(pre: string, s: string, post: string)
    requires AllSpace(pre) && AllSpace(post) && Unpadded(s)
    ensures IsValidTripName(pre + s + post) <==> 1 <= |s| <= 100
    ensures IsValidDestination(pre + s + post) <==> 1 <= |s| <= 200
  {
    TrimAround(pre, s, post);
  }

  /** A blank name or destination is refused. */
  lemma BlankRefused(s: string)
    requires AllSpace(s)
    ensures !IsValidTripName(s) && !IsValidDestination(s)
  {
    TrimEmpty(s);
  }

  /** Sanitising never turns a valid name or destination into an invalid
      one: it only shortens the trimmed text and never empties it. */
  lemma SanitizeKeepsValid(s: string)
    ensures IsValidTripName(s) ==> IsValidTripName(SanitizeString(s))
    ensures IsValidDestination(s) ==> IsValidDestination(SanitizeString(s))
  {
    var r := SanitizeString(s);
    SanitizeNormalizes(s);
    UnpaddedTrim(r);
    TrimEmpty(s);
  }

  /** `validateCreateTripData`: one message per failing rule, in the order
      name, destination, dates. */
  function ValidateCreateTripData(data: CreateTripData): (errors: seq<string>)
    ensures NameError in errors <==> !IsValidTripName(data.name)
    ensures DestinationError in errors <==> !IsValidDestination(data.destination)
    ensures DateOrderError in errors <==> !IsValidDateRange(data.startDate, data.endDate)
    ensures errors == [] <==>
      IsValidTripName(data.name) && IsValidDestination(data.destination) && IsValidDateRange(data.startDate, data.endDate)
    ensures Subsequence(errors, [NameError, DestinationError, DateOrderError])
  {
    RuleMessages(!IsValidTripName(data.name), !IsValidDestination(data.destination),
      !IsValidDateRange(data.startDate, data.endDate))
  }

  /** The messages of the rules that fail, in rule order. */
  function RuleMessages(badName: bool, badDestination: bool, badDates: bool): (errors: seq<string>)
    ensures NameError in errors <==> badName
    ensures DestinationError in errors <==> badDestination
    ensures DateOrderError in errors <==> badDates
    ensures errors == [] <==> !badName && !badDestination && !badDates
    ensures Subsequence(errors, [NameError, DestinationError, DateOrderError])
  {
    var dates := (if badDates then [DateOrderError] else []) + [];
    var rest := (if badDestination then [DestinationError] else []) + dates;
    OptionalCons(badDates, DateOrderError, [], []);
    OptionalCons(badDestination, DestinationError, dates, [DateOrderError]);
    OptionalCons(badName, NameError, rest, [DestinationError, DateOrderError]);
    (if badName then [NameError] else []) + rest
  }

  /** `validateUpdateTripData`: the rules of the fields that are supplied,
      and the date order only when both dates are. */
  function ValidateUpdateTripData(data: UpdateTripData): (errors: seq<string>)
    ensures NameError in errors <==> data.name.Some? && !IsValidTripName(data.name.value)
    ensures DestinationError in errors <==> data.destination.Some? && !IsValidDestination(data.destination.value)
    ensures DateOrderError in errors <==>
      data.startDate.Some? && data.endDate.Some? && !IsValidDateRange(data.startDate.value, data.endDate.value)
    ensures Subsequence(errors, [NameError, DestinationError, DateOrderError])
    ensures data == UpdateTripData(None, None, None, None) ==> errors == []
  {
    RuleMessages(data.name.Some? && !IsValidTripName(data.name.value),
      data.destination.Some? && !IsValidDestination(data.destination.value),
      data.startDate.Some? && data.endDate.Some? && !IsValidDateRange(data.startDate.value, data.endDate.value))
  }

  /** `calculateTripDuration`: `Math.ceil` of the difference in days. */
  function CalculateTripDuration(start: Time, end: Time): (days: int)
    ensures days * MsPerDay >= end - start > (days - 1) * MsPerDay
  {
    CeilDiv(end - start, MsPerDay)
  }

  /** Whole days apart gives exactly that many days, negative when the end
      comes first (5, 0 and -5 for 20 to 25 December, one day, and 25 back
      to 20 December). */
  lemma DurationWholeDays(start: Time, end: Time, n: int)
    requires end - start == n * MsPerDay
    ensures CalculateTripDuration(start, end) == n
  {
    var d := CalculateTripDuration(start, end);
    assert (d - n) * MsPerDay >= 0 && (d - n - 1) * MsPerDay < 0;
  }

  /** Any part of a day counts as a whole day. */
  lemma DurationRoundsUp(start: Time, end: Time, n: int)
    requires n * MsPerDay < end - start <= (n + 1) * MsPerDay
    ensures CalculateTripDuration(start, end) == n + 1
  {
    var d := CalculateTripDuration(start, end);
    assert (d - n) * MsPerDay > 0 && (d - n - 2) * MsPerDay < 0;
  }
}
