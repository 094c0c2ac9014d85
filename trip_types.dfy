/** The trip records. A JavaScript `Date` holds a time value in milliseconds
    or NaN (an Invalid Date); input dates are therefore `JsDate`s, while a
    stored trip, which has passed validation, holds time values. */
module Trips {
  import opened Wrappers
  import opened IsoTime

  /** A `Date` object: `None` is the Invalid Date, whose time value is NaN. */
  type JsDate = Option<Time>

  datatype Trip = Trip(
    id: string,
    name: string,
    destination: string,
    startDate: Time,
    endDate: Time,
    createdAt: Time,
    updatedAt: Time)

  datatype CreateTripData = CreateTripData(
    name: string,
    destination: string,
    startDate: JsDate,
    endDate: JsDate)

  /** The optional fields of an update: `None` is a field left out. */
  datatype UpdateTripData = UpdateTripData(
    name: Option<string>,
    destination: Option<string>,
    startDate: Option<JsDate>,
    endDate: Option<JsDate>)

  /** Ascending by start date: `a.startDate - b.startDate <= 0`. */
  predicate StartsNoLater(a: Trip, b: Trip)
  {
    a.startDate <= b.startDate
  }

  /** Descending by end date: `b.endDate - a.endDate <= 0`. */
  predicate EndsNoEarlier(a: Trip, b: Trip)
  {
    b.endDate <= a.endDate
  }
}
