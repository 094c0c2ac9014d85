/** The application's in-memory store: trips and weather records in two
    insertion-ordered maps and the time of the last change. Every method
    takes the current time `now` instead of reading the clock. */
module Store {
  import opened Wrappers
  import opened JsMaps
  import opened IsoTime
  import opened Trips
  import opened WeatherTypes

  /** `AppStore`: the contents of the store as one value. */
  datatype AppStore = AppStore(trips: JsMap<string, Trip>, weather: JsMap<string, WeatherData>, lastSync: Time)

  /** Persisted data replaces the empty start-up store only when it holds
      at least one trip or one weather record. */
  predicate ReplacesOnLoad(persisted: AppStore)
  {
    |persisted.trips| > 0 || |persisted.weather| > 0
  }

  class InMemoryStore {
    var trips: JsMap<string, Trip>
    var weather: JsMap<string, WeatherData>
    var lastSync: Time

    /** `getStore()`. */
    function Contents(): AppStore
      reads this
    {
      AppStore(trips, weather, lastSync)
    }

    constructor(now: Time)
      ensures trips == [] && weather == [] && lastSync == now
    {
      trips := [];
      weather := [];
      lastSync := now;
    }

    /** The end of `initializeFromPersistence`: adopt what was loaded when
        it is not empty. */
    method Initialize(persisted: AppStore)
      modifies this
      ensures Contents() == if ReplacesOnLoad(persisted) then persisted else old(Contents())
    {
      if |persisted.trips| > 0 || |persisted.weather| > 0 {
        trips := persisted.trips;
        weather := persisted.weather;
        lastSync := persisted.lastSync;
      }
    }

    method SetTrips(m: JsMap<string, Trip>, now: Time)
      modifies this
      ensures trips == m && weather == old(weather) && lastSync == now
    {
      trips := m;
      lastSync := now;
    }

    method SetWeather(m: JsMap<string, WeatherData>, now: Time)
      modifies this
      ensures weather == m && trips == old(trips) && lastSync == now
    {
      weather := m;
      lastSync := now;
    }

    /** `addTrip`: the trip under its own id, replacing any earlier one. */
    method AddTrip(trip: Trip, now: Time)
      modifies this
      ensures trips == Put(old(trips), trip.id, trip)
      ensures GetTrip(trip.id) == Some(trip)
      ensures forall id :: id != trip.id ==> GetTrip(id) == old(GetTrip(id))
      ensures weather == old(weather) && lastSync == now
    {
      trips := Put(trips, trip.id, trip);
      lastSync := now;
    }

    /** `removeTrip`: reports whether the id was there; only then is the
        entry removed and the sync time renewed. */
    method RemoveTrip(id: string, now: Time) returns (deleted: bool)
      modifies this
      ensures deleted <==> Has(old(trips), id)
      ensures trips == Delete(old(trips), id)
      ensures GetTrip(id) == None
      ensures forall other :: other != id ==> GetTrip(other) == old(GetTrip(other))
      ensures weather == old(weather)
      ensures lastSync == if deleted then now else old(lastSync)
      ensures !deleted ==> Contents() == old(Contents())
    {
      deleted := Has(trips, id);
      trips := Delete(trips, id);
      if deleted {
        lastSync := now;
      }
    }

    /** `updateTrip`: stores `trip` under `id`, whether or not `id` was there. */
    method UpdateTrip(id: string, trip: Trip, now: Time)
      modifies this
      ensures trips == Put(old(trips), id, trip)
      ensures GetTrip(id) == Some(trip)
      ensures forall other :: other != id ==> GetTrip(other) == old(GetTrip(other))
      ensures weather == old(weather) && lastSync == now
    {
      trips := Put(trips, id, trip);
      lastSync := now;
    }

    /** `getTrip`. */
    function GetTrip(id: string): Option<Trip>
      reads this
    {
      Get(trips, id)
    }

    method AddWeatherData(location: string, data: WeatherData, now: Time)
      modifies this
      ensures weather == Put(old(weather), location, data)
      ensures GetWeatherData(location) == Some(data)
      ensures forall other :: other != location ==> GetWeatherData(other) == old(GetWeatherData(other))
      ensures trips == old(trips) && lastSync == now
    {
      weather := Put(weather, location, data);
      lastSync := now;
    }

    /** `getWeatherData`. */
    function GetWeatherData(location: string): Option<WeatherData>
      reads this
    {
      Get(weather, location)
    }

    method RemoveWeatherData(location: string, now: Time) returns (deleted: bool)
      modifies this
      ensures deleted <==> Has(old(weather), location)
      ensures weather == Delete(old(weather), location)
      ensures GetWeatherData(location) == None
      ensures forall other :: other != location ==> GetWeatherData(other) == old(GetWeatherData(other))
      ensures trips == old(trips)
      ensures lastSync == if deleted then now else old(lastSync)
    {
      deleted := Has(weather, location);
      weather := Delete(weather, location);
      if deleted {
        lastSync := now;
      }
    }

    /** `clearAllData`. */
    method ClearAllData(now: Time)
      modifies this
      ensures trips == [] && weather == [] && lastSync == now
    {
      trips := [];
      weather := [];
      lastSync := now;
    }

    /** `getAllTrips`: the stored trips in insertion order, one per id. */
    function GetAllTrips(): (r: seq<Trip>)
      reads this
      ensures |r| == |trips|
      ensures forall i :: 0 <= i < |r| ==> Some(r[i]) == GetTrip(Keys(trips)[i])
    {
      forall i | 0 <= i < |trips| ensures Get(trips, trips[i].key) == Some(trips[i].value) {
        GetAt(trips, i);
      }
      Values(trips)
    }

    /** `getAllWeatherData`. */
    function GetAllWeatherData(): (r: seq<WeatherData>)
      reads this
      ensures |r| == |weather|
      ensures forall i :: 0 <= i < |r| ==> Some(r[i]) == GetWeatherData(Keys(weather)[i])
    {
      forall i | 0 <= i < |weather| ensures Get(weather, weather[i].key) == Some(weather[i].value) {
        GetAt(weather, i);
      }
      Values(weather)
    }
  }
}
