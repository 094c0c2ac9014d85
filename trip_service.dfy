/** The trip service: validate, change the store, save. Every failure is
    reported as the message of the error the service throws, under the
    prefix of the operation. The id of a new trip, the current time and
    the outcome of saving are parameters; `today` for the date queries is
    the caller's local midnight. */
module TripServiceModel {
  import opened Wrappers
  import opened Text
  import opened Seqs
  import opened JsMaps
  import opened IsoTime
  import opened Trips
  import opened TripUtils
  import opened Validation
  import opened Store

  const CreateFailed := "Failed to create trip: "
  const RetrieveFailed := "Failed to retrieve trip: "
  const UpdateFailed := "Failed to update trip: "
  const DeleteFailed := "Failed to delete trip: "
  const SearchFailed := "Failed to search trips by destination: "
  const DestinationEmpty := "Destination cannot be empty"

  /** What `save` throws when the file cannot be written. */
  function SaveError(ioError: string): string
  {
    "Failed to save data: " + ioError
  }

  /** Every stored trip sits under its own id. */
  ghost predicate KeyedById(trips: JsMap<string, Trip>)
  {
    forall id :: Has(trips, id) ==> Get(trips, id).value.id == id
  }

  function InvalidId(prefix: string, id: string): string
  {
    ErrorReport(prefix + "Invalid trip ID: ", ValidateTripId(id).errors)
  }

  function NotFound(prefix: string, id: string): string
  {
    prefix + "Trip not found with ID: " + id
  }

  /** The message of a refusal: a fixed head followed by every validation
      message, joined by ", ". */
  function ErrorReport(head: string, errors: seq<string>): (msg: string)
    ensures StartsWith(msg, head)
    ensures forall e :: e in errors ==> Includes(msg, e)
  {
    var msg := head + Join(errors, ", ");
    assert msg[..|head|] == head;
    forall e | e in errors ensures Includes(msg, e) {
      var k :| 0 <= k < |errors| && errors[k] == e;
      JoinIncludes(errors, ", ", k);
      IncludesAfter(head, Join(errors, ", "), e);
    }
    msg
  }

  // ---------------------------------------------------------------- create

  /** `createTrip` up to the store: the trip built from the sanitised data,
      or the error listing every rule that failed. */
  function CreateOutcome(data: CreateTripData, id: string, now: Time): (r: Result<Trip, string>)
    ensures r.Success? ==> r.value.id == id
  {
    var v := ValidateAndSanitizeCreate(data);
    if !v.isValid then Failure(ErrorReport(CreateFailed + "Invalid trip data: ", v.errors))
    else
      var s := v.sanitizedData.value;
      Success(Trip(id, s.name, s.destination, s.startDate.value, s.endDate.value, now, now))
  }

  /** A trip is created exactly when the rules hold; it carries the given id,
      the sanitised text, the given dates in order, and `now` as both its
      creation and update time. */
  lemma CreateBuildsTrip(data: CreateTripData, id: string, now: Time)
    ensures var r := CreateOutcome(data, id, now);
      && (r.Success? <==> (IsValidTripName(SanitizeString(data.name))
            && IsValidDestination(SanitizeString(data.destination))
            && IsValidDateRange(data.startDate, data.endDate)))
      && (r.Success? ==>
            && r.value.id == id
            && r.value.name == SanitizeString(data.name) && Normalized(r.value.name)
            && r.value.destination == SanitizeString(data.destination) && Normalized(r.value.destination)
            && data.startDate == Some(r.value.startDate) && data.endDate == Some(r.value.endDate)
            && r.value.startDate <= r.value.endDate
            && r.value.createdAt == now && r.value.updatedAt == now)
  {
    if CreateOutcome(data, id, now).Success? {
      CreateYieldsNormalized(data);
    }
  }

  // ------------------------------------------------------------------ read

  /** `getTripById`. */
  function GetTripById(trips: JsMap<string, Trip>, id: string): (r: Result<Trip, string>)
    ensures r.Success? <==> !AllSpace(id) && Has(trips, id)
    ensures r.Success? ==> Get(trips, id) == Some(r.value)
    ensures AllSpace(id) ==> r == Failure(InvalidId(RetrieveFailed, id))
    ensures !AllSpace(id) && !Has(trips, id) ==> r == Failure(NotFound(RetrieveFailed, id))
  {
    if !ValidateTripId(id).isValid then Failure(InvalidId(RetrieveFailed, id))
    else
      match Get(trips, id)
      case None => Failure(NotFound(RetrieveFailed, id))
      case Some(t) => Success(t)
  }

  /** The trip found for an id carries that id. */
  lemma FoundTripHasId(trips: JsMap<string, Trip>, id: string)
    requires KeyedById(trips)
    requires GetTripById(trips, id).Success?
    ensures GetTripById(trips, id).value.id == id
  {
  }

  // ---------------------------------------------------------------- update

  function MergeText(current: string, supplied: Option<string>): string
  {
    match supplied
    case Some(s) => s
    case None => current
  }

  /** A supplied date that passed validation is a time value. */
  function MergeDate(current: Time, supplied: Option<JsDate>): Time
  {
    match supplied
    case Some(Some(t)) => t
    case _ => current
  }

  /** `{...existingTrip, ...sanitizedData, updatedAt: now}`: the supplied
      fields over the existing trip. */
  function Merge(existing: Trip, s: UpdateTripData, now: Time): Trip
  {
    Trip(existing.id, MergeText(existing.name, s.name), MergeText(existing.destination, s.destination),
      MergeDate(existing.startDate, s.startDate), MergeDate(existing.endDate, s.endDate),
      existing.createdAt, now)
  }

  /** `updateTrip` up to the store: the id check, the lookup, the validation
      of the update, then the date order of the merged trip. */
  function UpdateOutcome(trips: JsMap<string, Trip>, id: string, data: UpdateTripData, now: Time): Result<Trip, string>
  {
    if !ValidateTripId(id).isValid then Failure(InvalidId(UpdateFailed, id))
    else if !Has(trips, id) then Failure(NotFound(UpdateFailed, id))
    else
      var v := ValidateAndSanitizeUpdate(data);
      if !v.isValid then Failure(ErrorReport(UpdateFailed + "Invalid update data: ", v.errors))
      else
        var t := Merge(Get(trips, id).value, v.sanitizedData.value, now);
        if t.startDate > t.endDate then Failure(UpdateFailed + DateOrderError)
        else Success(t)
  }

  /** A blank id or an id not in the store is refused before anything else. */
  lemma UpdateRefusesUnknownId(trips: JsMap<string, Trip>, id: string, data: UpdateTripData, now: Time)
    ensures AllSpace(id) ==> UpdateOutcome(trips, id, data, now) == Failure(InvalidId(UpdateFailed, id))
    ensures !AllSpace(id) && !Has(trips, id) ==> UpdateOutcome(trips, id, data, now) == Failure(NotFound(UpdateFailed, id))
  {
  }

  /** An update that succeeds keeps the id and the creation time, takes each
      supplied field in its sanitised form and keeps each other field, sets
      the update time, and leaves the dates in order. */
  lemma UpdateMergesFields(trips: JsMap<string, Trip>, id: string, data: UpdateTripData, now: Time)
    requires KeyedById(trips)
    requires UpdateOutcome(trips, id, data, now).Success?
    ensures Has(trips, id)
    ensures var old_ := Get(trips, id).value; var t := UpdateOutcome(trips, id, data, now).value;
      && t.id == id && t.createdAt == old_.createdAt && t.updatedAt == now
      && t.name == (if data.name.Some? then SanitizeString(data.name.value) else old_.name)
      && t.destination == (if data.destination.Some? then SanitizeString(data.destination.value) else old_.destination)
      && (if data.startDate.Some? then data.startDate == Some(Some(t.startDate)) else t.startDate == old_.startDate)
      && (if data.endDate.Some? then data.endDate == Some(Some(t.endDate)) else t.endDate == old_.endDate)
      && t.startDate <= t.endDate
  {
    UpdateKeepsSuppliedFields(data);
  }

  /** An updated trip stays under its own id. */
  lemma UpdateKeepsId(trips: JsMap<string, Trip>, id: string, data: UpdateTripData, now: Time)
    requires KeyedById(trips)
    ensures UpdateOutcome(trips, id, data, now).Success? ==> UpdateOutcome(trips, id, data, now).value.id == id
  {
  }

  /** The check on the merged trip catches what validation alone cannot: a
      new start date after the trip's existing end date. */
  lemma UpdateChecksMergedDates(trips: JsMap<string, Trip>, id: string, start: Time, now: Time)
    requires !AllSpace(id) && Has(trips, id)
    requires start > Get(trips, id).value.endDate
    ensures UpdateOutcome(trips, id, UpdateTripData(None, None, Some(Some(start)), None), now)
      == Failure(UpdateFailed + DateOrderError)
  {
  }

  // ---------------------------------------------------------------- delete

  /** `deleteTrip` up to the store: `true` once the id is known. */
  function DeleteOutcome(trips: JsMap<string, Trip>, id: string): (r: Result<bool, string>)
    ensures r.Success? <==> !AllSpace(id) && Has(trips, id)
    ensures r.Success? ==> r.value
    ensures AllSpace(id) ==> r == Failure(InvalidId(DeleteFailed, id))
    ensures !AllSpace(id) && !Has(trips, id) ==> r == Failure(NotFound(DeleteFailed, id))
  {
    if !ValidateTripId(id).isValid then Failure(InvalidId(DeleteFailed, id))
    else if !Has(trips, id) then Failure(NotFound(DeleteFailed, id))
    else Success(true)
  }

  // --------------------------------------------------------------- queries

  /** `getTripsByDestination` over the stored trips: a blank query is
      refused; otherwise the trips whose lowercased destination contains the
      trimmed, lowercased query, in store order. */
  function TripsByDestination(all: seq<Trip>, query: string): (r: Result<seq<Trip>, string>)
    ensures r.Failure? <==> AllSpace(query)
    ensures r.Failure? ==> r.error == SearchFailed + DestinationEmpty
    ensures r.Success? ==> Subsequence(r.value, all)
    ensures r.Success? ==> forall t :: t in r.value <==> t in all && Includes(ToLower(t.destination), ToLower(Trim(query)))
    ensures r.Success? ==> forall t ::
      multiset(r.value)[t] == if Includes(ToLower(t.destination), ToLower(Trim(query))) then multiset(all)[t] else 0
  {
    TrimEmpty(query);
    if |Trim(query)| == 0 then Failure(SearchFailed + DestinationEmpty)
    else
      var needle := ToLower(Trim(query));
      var keep := (t: Trip) => Includes(ToLower(t.destination), needle);
      FilterIsSubsequence(all, keep);
      Success(Filter(all, keep))
  }

  /** Whitespace around the query does not change the search. */
  lemma SearchIgnoresPadding(all: seq<Trip>, pre: string, query: string, post: string)
    requires AllSpace(pre) && AllSpace(post)
    ensures TripsByDestination(all, pre + query + post) == TripsByDestination(all, query)
  {
    TrimPadding(pre, query, post);
    TrimEmpty(query);
    TrimEmpty(pre + query + post);
  }

  /** A trip whose destination is the query, up to padding and case, is found. */
  lemma SearchFindsOwnDestination(all: seq<Trip>, t: Trip, query: string)
    requires t in all && !AllSpace(query)
    requires ToLower(t.destination) == ToLower(Trim(query))
    ensures TripsByDestination(all, query).Success? && t in TripsByDestination(all, query).value
  {
    var s := ToLower(t.destination);
    assert s[0..|s|] == s;
    assert OccursAt(s, s, 0);
  }

  lemma StartOrderConsistent()
    ensures TotalPreorder(StartsNoLater)
  {
  }

  lemma EndOrderConsistent()
    ensures TotalPreorder(EndsNoEarlier)
  {
  }

  predicate StartsFrom(today: Time, t: Trip)
  {
    t.startDate >= today
  }

  predicate EndedBefore(today: Time, t: Trip)
  {
    t.endDate < today
  }

  predicate Spans(today: Time, t: Trip)
  {
    t.startDate <= today <= t.endDate
  }

  /** `getUpcomingTrips`: the trips starting today or later, earliest start
      first. */
  function UpcomingTrips(all: seq<Trip>, today: Time): (r: seq<Trip>)
    ensures forall t :: t in r <==> t in all && t.startDate >= today
    ensures multiset(r) == multiset(Filter(all, t => StartsFrom(today, t)))
    ensures SortedBy(r, StartsNoLater)
  {
    var f := Filter(all, t => StartsFrom(today, t));
    StartOrderConsistent();
    SortBySorted(f, StartsNoLater);
    var r := SortBy(f, StartsNoLater);
    assert forall t :: t in r <==> t in multiset(f);
    r
  }

  /** Upcoming trips that start on the same instant keep their store order. */
  lemma UpcomingTripsStable(all: seq<Trip>, today: Time, p: Trip)
    ensures Filter(UpcomingTrips(all, today), TiedWith(p, StartsNoLater))
         == Filter(Filter(all, t => StartsFrom(today, t)), TiedWith(p, StartsNoLater))
  {
    StartOrderConsistent();
    SortByStable(Filter(all, t => StartsFrom(today, t)), StartsNoLater, p);
  }

  /** `getPastTrips`: the trips that ended before today, latest end first. */
  function PastTrips(all: seq<Trip>, today: Time): (r: seq<Trip>)
    ensures forall t :: t in r <==> t in all && t.endDate < today
    ensures multiset(r) == multiset(Filter(all, t => EndedBefore(today, t)))
    ensures SortedBy(r, EndsNoEarlier)
  {
    var f := Filter(all, t => EndedBefore(today, t));
    EndOrderConsistent();
    SortBySorted(f, EndsNoEarlier);
    var r := SortBy(f, EndsNoEarlier);
    assert forall t :: t in r <==> t in multiset(f);
    r
  }

  /** `getCurrentTrips`: the trips under way today, in store order. */
  function CurrentTrips(all: seq<Trip>, today: Time): (r: seq<Trip>)
    ensures forall t :: t in r <==> t in all && t.startDate <= today <= t.endDate
    ensures Subsequence(r, all)
    ensures forall t :: multiset(r)[t] == if t.startDate <= today <= t.endDate then multiset(all)[t] else 0
  {
    FilterIsSubsequence(all, t => Spans(today, t));
    Filter(all, t => Spans(today, t))
  }

  /** For a trip whose dates are in order, exactly one of: it ended before
      today, it is under way, it starts after today. The upcoming and current
      lists share exactly the trips starting today; past trips are never
      upcoming. */
  lemma DateQueriesOverlap(all: seq<Trip>, today: Time, t: Trip)
    requires t in all && t.startDate <= t.endDate
    ensures var past, current := t in PastTrips(all, today), t in CurrentTrips(all, today);
      && (past || current || t.startDate > today)
      && !(past && current) && !(past && t.startDate > today) && !(current && t.startDate > today)
    ensures (t in UpcomingTrips(all, today) && t in CurrentTrips(all, today)) <==> t.startDate == today
    ensures t in PastTrips(all, today) ==> t !in UpcomingTrips(all, today)
  {
  }

  // --------------------------------------------------------------- service

  class TripService {
    const store: InMemoryStore

    ghost predicate Valid()
      reads this, store
    {
      KeyedById(store.trips)
    }

    constructor(store: InMemoryStore)
      requires KeyedById(store.trips)
      ensures this.store == store && Valid()
    {
      this.store := store;
    }

    /** The end of `createTrip` and `updateTrip`: a refused outcome leaves
        the store alone; an accepted trip is stored under `id` and then saved,
        and a failed save is reported although the trip stays stored. Since
        the trip carries `id`, `addTrip(trip)` and `updateTrip(id, trip)`
        store it alike. */
    method Commit(outcome: Result<Trip, string>, id: string, prefix: string, now: Time, saveFailure: Option<string>)
      returns (r: Result<Trip, string>)
      requires Valid()
      requires outcome.Success? ==> outcome.value.id == id
      modifies store
      ensures Valid()
      ensures outcome.Failure? ==> r == outcome && store.Contents() == old(store.Contents())
      ensures outcome.Success? ==>
        && store.trips == Put(old(store.trips), id, outcome.value)
        && store.weather == old(store.weather) && store.lastSync == now
        && r == if saveFailure.Some? then Failure(prefix + SaveError(saveFailure.value)) else outcome
    {
      if outcome.Failure? {
        return outcome;
      }
      store.UpdateTrip(id, outcome.value, now);
      if saveFailure.Some? {
        return Failure(prefix + SaveError(saveFailure.value));
      }
      return outcome;
    }

    /** `createTrip`; `saveFailure` is the file-system error, if any, that
        stops the save after the trip is already in the store. */
    method CreateTrip(data: CreateTripData, id: string, now: Time, saveFailure: Option<string>) returns (r: Result<Trip, string>)
      requires Valid()
      modifies store
      ensures Valid()
      ensures CreateOutcome(data, id, now).Failure? ==>
        r == CreateOutcome(data, id, now) && store.Contents() == old(store.Contents())
      ensures CreateOutcome(data, id, now).Success? ==>
        && store.trips == Put(old(store.trips), id, CreateOutcome(data, id, now).value)
        && store.weather == old(store.weather) && store.lastSync == now
        && r == if saveFailure.Some? then Failure(CreateFailed + SaveError(saveFailure.value)) else CreateOutcome(data, id, now)
    {
      r := Commit(CreateOutcome(data, id, now), id, CreateFailed, now, saveFailure);
    }

    /** `updateTrip`: the merged trip replaces the stored one only when every
        check passes. */
    method UpdateTrip(id: string, data: UpdateTripData, now: Time, saveFailure: Option<string>) returns (r: Result<Trip, string>)
      requires Valid()
      modifies store
      ensures Valid()
      ensures UpdateOutcome(old(store.trips), id, data, now).Failure? ==>
        r == UpdateOutcome(old(store.trips), id, data, now) && store.Contents() == old(store.Contents())
      ensures UpdateOutcome(old(store.trips), id, data, now).Success? ==>
        && store.trips == Put(old(store.trips), id, UpdateOutcome(old(store.trips), id, data, now).value)
        && store.weather == old(store.weather) && store.lastSync == now
        && r == if saveFailure.Some? then Failure(UpdateFailed + SaveError(saveFailure.value)) else UpdateOutcome(old(store.trips), id, data, now)
    {
      UpdateKeepsId(store.trips, id, data, now);
      r := Commit(UpdateOutcome(store.trips, id, data, now), id, UpdateFailed, now, saveFailure);
    }

    /** `deleteTrip`: removes exactly the given trip once the id is known. */
    method DeleteTrip(id: string, now: Time, saveFailure: Option<string>) returns (r: Result<bool, string>)
      requires Valid()
      modifies store
      ensures Valid()
      ensures DeleteOutcome(old(store.trips), id).Failure? ==>
        r == DeleteOutcome(old(store.trips), id) && store.Contents() == old(store.Contents())
      ensures DeleteOutcome(old(store.trips), id).Success? ==>
        && store.trips == Delete(old(store.trips), id)
        && |store.trips| == |old(store.trips)| - 1
        && store.weather == old(store.weather) && store.lastSync == now
        && r == if saveFailure.Some? then Failure(DeleteFailed + SaveError(saveFailure.value)) else Success(true)
    {
      if !ValidateTripId(id).isValid {
        return Failure(InvalidId(DeleteFailed, id));
      }
      var existing := store.GetTrip(id);
      if existing.None? {
        return Failure(NotFound(DeleteFailed, id));
      }
      var deleted := store.RemoveTrip(id, now);
      if deleted && saveFailure.Some? {
        return Failure(DeleteFailed + SaveError(saveFailure.value));
      }
      return Success(deleted);
    }
  }
}
