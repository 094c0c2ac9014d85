/** The trip card: the status line and its style class, the day/days label
    of the duration, and whether the "Last updated" line shows. The whole
    days until departure (counted from local midnight) and the current time
    are parameters. */
module TripCard {
  import opened Wrappers
  import opened Text
  import opened IsoTime
  import opened Trips
  import opened TripUtils
  import opened TripServiceModel
  import JsMaps

  /** `getTripStatus`, branch for branch. */
  function GetTripStatus(daysUntil: int, now: Time, endDate: Time): string
  {
    if daysUntil > 0 then NatToString(daysUntil) + " days until departure"
    else if daysUntil == 0 then "Departing today!"
    else if now <= endDate then "Currently on trip"
    else "Trip completed"
  }

  /** `getStatusClass`, branch for branch. */
  function GetStatusClass(daysUntil: int, now: Time, endDate: Time): string
  {
    if daysUntil > 0 then "upcoming"
    else if daysUntil == 0 then "departing"
    else if now <= endDate then "current"
    else "completed"
  }

  /** The four phases of a trip as the card sees them. */
  datatype Phase = Upcoming(days: nat) | Departing | OnTrip | Completed

  /** The phase of a trip: decided by the days until departure, and once
      that is negative, by whether the trip has ended. */
  function PhaseOf(daysUntil: int, now: Time, endDate: Time): (p: Phase)
    ensures p.Upcoming? <==> daysUntil > 0
    ensures p.Upcoming? ==> p.days == daysUntil
    ensures p == Departing <==> daysUntil == 0
    ensures p == OnTrip <==> daysUntil < 0 && now <= endDate
    ensures p == Completed <==> daysUntil < 0 && now > endDate
  {
    if daysUntil > 0 then Upcoming(daysUntil)
    else if daysUntil == 0 then Departing
    else if now <= endDate then OnTrip
    else Completed
  }

  function PhaseText(p: Phase): string
  {
    match p
    case Upcoming(n) => NatToString(n) + " days until departure"
    case Departing => "Departing today!"
    case OnTrip => "Currently on trip"
    case Completed => "Trip completed"
  }

  function PhaseClass(p: Phase): string
  {
    match p
    case Upcoming(_) => "upcoming"
    case Departing => "departing"
    case OnTrip => "current"
    case Completed => "completed"
  }

  /** The two chains take the same branch: both are functions of one phase,
      and different phases get different classes. */
  lemma StatusAndClassAgree(daysUntil: int, now: Time, endDate: Time)
    ensures var p := PhaseOf(daysUntil, now, endDate);
      GetTripStatus(daysUntil, now, endDate) == PhaseText(p) && GetStatusClass(daysUntil, now, endDate) == PhaseClass(p)
    ensures forall p: Phase, q: Phase :: PhaseClass(p) == PhaseClass(q) ==> p.Upcoming? == q.Upcoming? && (!p.Upcoming? ==> p == q)
  {
    forall p: Phase, q: Phase | PhaseClass(p) == PhaseClass(q)
      ensures p.Upcoming? == q.Upcoming? && (!p.Upcoming? ==> p == q)
    {
      var a, b := PhaseClass(p), PhaseClass(q);
      assert |a| == |b|;
      if |a| == 9 {
        assert a[0] == b[0];
      }
    }
  }

  /** `duration === 1 ? 'day' : 'days'`: the singular is used exactly for a
      trip that ends within 24 hours after it starts. */
  function DurationLabel(start: Time, end: Time): (word: string)
    ensures word == "day" <==> 0 < end - start <= MsPerDay
  {
    var d := CalculateTripDuration(start, end);
    if d == 1 then "day" else "days"
  }

  /** The "Last updated" line shows when the update time differs from the
      creation time. */
  predicate ShowsLastUpdated(t: Trip)
  {
    t.updatedAt != t.createdAt
  }

  /** A newly created trip shows no "Last updated" line; an update made at
      any other time than the creation makes it show. */
  lemma LastUpdatedAfterChange(data: CreateTripData, id: string, created: Time,
                               trips: JsMaps.JsMap<string, Trip>, update: UpdateTripData, now: Time)
    ensures CreateOutcome(data, id, created).Success? ==> !ShowsLastUpdated(CreateOutcome(data, id, created).value)
    ensures KeyedById(trips) && UpdateOutcome(trips, id, update, now).Success?
        && now != JsMaps.Get(trips, id).value.createdAt
      ==> ShowsLastUpdated(UpdateOutcome(trips, id, update, now).value)
  {
    CreateBuildsTrip(data, id, created);
    if KeyedById(trips) && UpdateOutcome(trips, id, update, now).Success? {
      UpdateMergesFields(trips, id, update, now);
    }
  }
}
