/** Validation of trip input before it reaches the store: sanitise the text
    fields, check the rules, and report every message that applies. */
module Validation {
  import opened Wrappers
  import opened Text
  import opened IsoTime
  import opened Trips
  import opened TripUtils

  const StartDateInvalid := "Start date is not a valid date"
  const EndDateInvalid := "End date is not a valid date"
  const IdRequired := "Trip ID is required and must be a string"
  const IdEmpty := "Trip ID cannot be empty"

  /** `ValidationResult`: `sanitizedData` is `None` where the source leaves it
      `undefined`. */
  datatype ValidationResult<D> = ValidationResult(isValid: bool, errors: seq<string>, sanitizedData: Option<D>)

  /** The result for a list of messages: valid exactly when it is empty, and
      only then carrying the sanitised data. */
  function Outcome<D>(errors: seq<string>, data: D): (r: ValidationResult<D>)
    ensures r.errors == errors
    ensures r.isValid <==> errors == []
    ensures r.sanitizedData.Some? <==> r.isValid
    ensures r.sanitizedData.Some? ==> r.sanitizedData.value == data
  {
    ValidationResult(errors == [], errors, if errors == [] then Some(data) else None)
  }

  /** The text fields of new trip data, sanitised; `new Date(d)` copies a date. */
  function SanitizeCreate(data: CreateTripData): CreateTripData
  {
    CreateTripData(SanitizeString(data.name), SanitizeString(data.destination), data.startDate, data.endDate)
  }

  /** `validateAndSanitizeCreateTripData`: the rules on the sanitised data,
      then one message for each date that is NaN. */
  function ValidateAndSanitizeCreate(data: CreateTripData): (r: ValidationResult<CreateTripData>)
    ensures r.isValid <==> r.errors == []
    ensures r.sanitizedData.Some? <==> r.isValid
    ensures r.isValid ==> r.sanitizedData == Some(SanitizeCreate(data))
    ensures NameError in r.errors <==> !IsValidTripName(SanitizeString(data.name))
    ensures DestinationError in r.errors <==> !IsValidDestination(SanitizeString(data.destination))
    ensures DateOrderError in r.errors <==> !IsValidDateRange(data.startDate, data.endDate)
    ensures StartDateInvalid in r.errors <==> data.startDate.None?
    ensures EndDateInvalid in r.errors <==> data.endDate.None?
    ensures r.isValid <==>
      IsValidTripName(SanitizeString(data.name)) && IsValidDestination(SanitizeString(data.destination))
      && IsValidDateRange(data.startDate, data.endDate)
  {
    var s := SanitizeCreate(data);
    Outcome(ValidateCreateTripData(s) + NaNDateMessages(s.startDate, s.endDate), s)
  }

  /** One message for each date that is NaN, start first. */
  function NaNDateMessages(start: JsDate, end: JsDate): (errors: seq<string>)
    ensures StartDateInvalid in errors <==> start.None?
    ensures EndDateInvalid in errors <==> end.None?
    ensures errors == [] <==> start.Some? && end.Some?
    ensures |errors| == (if start.None? then 1 else 0) + (if end.None? then 1 else 0)
    ensures start.None? ==> errors[0] == StartDateInvalid
    ensures end.None? ==> errors[|errors| - 1] == EndDateInvalid
    ensures NameError !in errors && DestinationError !in errors
  {
    assert |StartDateInvalid| != |NameError| && |StartDateInvalid| != |DestinationError| && |StartDateInvalid| != |EndDateInvalid|;
    assert |EndDateInvalid| != |NameError| && |EndDateInvalid| != |DestinationError|;
    (if start.None? then [StartDateInvalid] else []) + (if end.None? then [EndDateInvalid] else [])
  }

  /** Raw input that satisfies the rules passes validation: sanitising
      never makes a valid name or destination invalid. */
  lemma CreateAcceptsValidInput(data: CreateTripData)
    requires IsValidTripName(data.name) && IsValidDestination(data.destination)
    requires IsValidDateRange(data.startDate, data.endDate)
    ensures ValidateAndSanitizeCreate(data).isValid
  {
    SanitizeKeepsValid(data.name);
    SanitizeKeepsValid(data.destination);
  }

  /** What passes is normalised text: no whitespace at the ends, single
      spaces inside, and dates in order. */
  lemma CreateYieldsNormalized(data: CreateTripData)
    requires ValidateAndSanitizeCreate(data).isValid
    ensures var s := ValidateAndSanitizeCreate(data).sanitizedData.value;
      && Normalized(s.name) && Normalized(s.destination)
      && s.startDate.Some? && s.endDate.Some? && s.startDate.value <= s.endDate.value
  {
    SanitizeNormalizes(data.name);
    SanitizeNormalizes(data.destination);
  }

  function SanitizeField(f: Option<string>): (r: Option<string>)
    ensures r.Some? <==> f.Some?
  {
    match f
    case Some(s) => Some(SanitizeString(s))
    case None => None
  }

  /** The supplied fields of an update, text sanitised. */
  function SanitizeUpdate(data: UpdateTripData): UpdateTripData
  {
    UpdateTripData(SanitizeField(data.name), SanitizeField(data.destination), data.startDate, data.endDate)
  }

  /** `validateAndSanitizeUpdateTripData`: a NaN date or dates out of order
      end the check with that one message; otherwise the rules on the
      sanitised fields. */
  function ValidateAndSanitizeUpdate(data: UpdateTripData): (r: ValidationResult<UpdateTripData>)
    ensures r.isValid <==> r.errors == []
    ensures r.sanitizedData.Some? <==> r.isValid
    ensures r.isValid ==> r.sanitizedData == Some(SanitizeUpdate(data))
    ensures data.startDate == Some(None) ==> r.errors == [StartDateInvalid]
    ensures data.startDate != Some(None) && data.endDate == Some(None) ==> r.errors == [EndDateInvalid]
    ensures (data.startDate.Some? && data.endDate.Some? && data.startDate.value.Some? && data.endDate.value.Some?
      && data.startDate.value.value > data.endDate.value.value) ==> r.errors == [DateOrderError]
    ensures data.startDate != Some(None) && data.endDate != Some(None)
      && !(data.startDate.Some? && data.endDate.Some? && !IsValidDateRange(data.startDate.value, data.endDate.value))
      ==> && (NameError in r.errors <==> data.name.Some? && !IsValidTripName(SanitizeString(data.name.value)))
          && (DestinationError in r.errors <==> data.destination.Some? && !IsValidDestination(SanitizeString(data.destination.value)))
          && DateOrderError !in r.errors
          && (r.isValid <==>
                (data.name.Some? ==> IsValidTripName(SanitizeString(data.name.value)))
                && (data.destination.Some? ==> IsValidDestination(SanitizeString(data.destination.value))))
  {
    var s := SanitizeUpdate(data);
    if data.startDate == Some(None) then ValidationResult(false, [StartDateInvalid], None)
    else if data.endDate == Some(None) then ValidationResult(false, [EndDateInvalid], None)
    else if s.startDate.Some? && s.endDate.Some? && !IsValidDateRange(s.startDate.value, s.endDate.value) then
      ValidationResult(false, [DateOrderError], None)
    else Outcome(ValidateUpdateTripData(s), s)
  }

  /** An update that passes carries exactly the supplied fields, the text
      ones normalised, and dates that are valid and, when both are given,
      in order. An empty update passes. */
  lemma UpdateKeepsSuppliedFields(data: UpdateTripData)
    requires ValidateAndSanitizeUpdate(data).isValid
    ensures var s := ValidateAndSanitizeUpdate(data).sanitizedData.value;
      && (s.name.Some? <==> data.name.Some?) && (s.destination.Some? <==> data.destination.Some?)
      && s.startDate == data.startDate && s.endDate == data.endDate
      && (s.name.Some? ==> Normalized(s.name.value) && IsValidTripName(s.name.value))
      && (s.destination.Some? ==> Normalized(s.destination.value) && IsValidDestination(s.destination.value))
      && (s.startDate.Some? ==> s.startDate.value.Some?)
      && (s.endDate.Some? ==> s.endDate.value.Some?)
      && (s.startDate.Some? && s.endDate.Some? ==> s.startDate.value.value <= s.endDate.value.value)
  {
    if data.name.Some? {
      SanitizeNormalizes(data.name.value);
    }
    if data.destination.Some? {
      SanitizeNormalizes(data.destination.value);
    }
  }

  /** Every violation is collected: a blank name with valid dates out of
      order yields both the name message and the date-order message. */
  lemma CreateReportsEveryViolation(name: string, destination: string, start: Time, end: Time)
    requires AllSpace(name) && end < start
    ensures var errors := ValidateAndSanitizeCreate(CreateTripData(name, destination, Some(start), Some(end))).errors;
      NameError in errors && DateOrderError in errors
  {
    SanitizeNormalizes(name);
    BlankRefused(SanitizeString(name));
    var data := CreateTripData(name, destination, Some(start), Some(end));
    assert !IsValidDateRange(data.startDate, data.endDate);
  }

  /** An update whose supplied fields satisfy the rules passes, the dates
      being valid and, when both are given, in order. */
  lemma UpdateAcceptsValidInput(data: UpdateTripData)
    requires data.name.Some? ==> IsValidTripName(data.name.value)
    requires data.destination.Some? ==> IsValidDestination(data.destination.value)
    requires data.startDate != Some(None) && data.endDate != Some(None)
    requires data.startDate.Some? && data.endDate.Some? ==> IsValidDateRange(data.startDate.value, data.endDate.value)
    ensures ValidateAndSanitizeUpdate(data).isValid
  {
    if data.name.Some? {
      SanitizeKeepsValid(data.name.value);
    }
    if data.destination.Some? {
      SanitizeKeepsValid(data.destination.value);
    }
  }

  lemma EmptyUpdatePasses()
    ensures ValidateAndSanitizeUpdate(UpdateTripData(None, None, None, None)).isValid
  {
  }

  /** `validateTripId`: the empty string is refused as missing, a blank one
      as empty; every other string passes. */
  function ValidateTripId(id: string): (r: ValidationResult<()>)
    ensures r.isValid <==> !AllSpace(id)
    ensures r.isValid <==> r.errors == []
    ensures id == [] ==> r.errors == [IdRequired]
    ensures id != [] && AllSpace(id) ==> r.errors == [IdEmpty]
    ensures r.sanitizedData.None?
  {
    TrimEmpty(id);
    if id == [] then ValidationResult(false, [IdRequired], None)
    else if |Trim(id)| == 0 then ValidationResult(false, [IdEmpty], None)
    else ValidationResult(true, [], None)
  }
}
