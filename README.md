# Trip planner core in Dafny

A model of the logic of a small trip planner. Users keep trips (a name, a
destination, start and end dates) in an in-memory store that is saved to a
JSON data file. A weather service answers per destination through a
30-minute cache, and behind the cache a rate-limited weather client. The
model covers these parts:

- **Trip records and validation** (`Trips`, `TripUtils`, `Validation`).
  - Input strings are sanitised: trimmed, and every whitespace run becomes one space.
  - Names must be 1–100 characters and destinations 1–200.
  - Start must not come after end, and dates must be valid.
  - Every failing rule is reported, in rule order.
- **The store** (`Store.InMemoryStore`). Two insertion-ordered maps (trips and weather) and the time of the last change. It also holds the rule for adopting loaded data.
- **The trip service** (`TripServiceModel`).
  - create, update and delete run validate, change the store, then save.
  - It answers queries by destination and by date (upcoming, past, current).
- **The trip list and the trip card** (`TripList`, `TripCard`).
  - The list sorts trips: under way first, then not yet started, then finished.
  - It shows them in three sections.
  - The card shows a status line, a day/days label and a "Last updated" line.
- **The weather client** (`WeatherApiModel.WeatherApi`). A fixed 60 s window allowing at most 10 requests, and the mapping of the source's failures to user messages.
- **The weather cache** (`WeatherServiceModel.WeatherService`).
  - Entries are keyed by the lower-cased, trimmed location.
  - A fresh entry answers without asking the source.
  - A failed request falls back to a stale entry.
  - An insert that leaves more than 10 entries sweeps out the stale ones.
- **Data migrations** (`Migrations`). Dotted version numbers are compared component by component. Ordered `up` transforms are selected and applied, and `down` transforms on rollback.
- **The error handler** (`ErrorHandler.GlobalErrorHandler`). A log bounded to 100 entries, a per-name summary, and the error classes' formatting and retry rules.
- **Persistence** (`Persistence`).
  - The store is converted to and from the stored form: maps become entry lists and dates become ISO text.
  - With no data file, load gives an empty store.
  - It covers backup and restore, and the naming and retention of backup files.

`JsMaps` models the insertion-ordered JavaScript `Map`. `IsoTime` models `Date.prototype.toISOString` and the reading of its output by `new Date(text)`. `Text` holds trimming, case folding, whitespace collapsing and number formatting; `Seqs` holds filtering and stable sorting.

The current time, new ids, the weather source's answer and the results of file operations are parameters.

## Model

| member | source | states |
|---|---|---|
| TripUtils.SanitizeNormalizes | app/src/domains/shared/utils/index.ts:87-89 | The sanitised string has no whitespace at its ends and single spaces inside. It keeps the same visible characters in order, and is empty exactly when the input is blank. |
| TripUtils.SanitizeIdempotent | app/src/domains/shared/utils/index.ts:87-89 | Sanitising twice is sanitising once. |
| TripUtils.SanitizeTwoWords | app/src/domains/shared/utils/index.test.ts:147-154 | Two words with any whitespace around and between them become the two words joined by one space. |
| TripUtils.LengthRules | app/src/domains/shared/utils/index.ts:43-49 | The name and destination bounds (1–100, 1–200) apply to the trimmed length. Surrounding whitespace does not count, so 101 and 201 characters are refused. |
| TripUtils.BlankRefused | app/src/domains/shared/utils/index.ts:43-49 | A blank name or destination is invalid. |
| TripUtils.SanitizeKeepsValid | app/src/domains/trip-management/services/validation.ts:17-24 | Sanitising never turns a valid name or destination into an invalid one. |
| TripUtils.ValidateCreateTripData | app/src/domains/shared/utils/index.ts:51-67 | Each message is present exactly when its rule fails, in the order name, destination, dates. The list is empty exactly when all three rules hold. |
| TripUtils.ValidateUpdateTripData | app/src/domains/shared/utils/index.ts:69-85 | Only supplied fields are checked, and date order only when both dates are supplied. Messages keep rule order, and an empty update gives no message. |
| TripUtils.CalculateTripDuration | app/src/domains/shared/utils/index.ts:34-37 | The result is the least whole number of days covering end minus start (the ceiling). |
| TripUtils.DurationWholeDays | app/src/domains/shared/utils/index.test.ts:96-117 | Ends exactly n days apart give n, including 0 and negative n. |
| TripUtils.DurationRoundsUp | app/src/domains/shared/utils/index.ts:34-37 | Any part of a day counts as a whole day. |
| Validation.Outcome | app/src/domains/trip-management/services/validation.ts:34-38 | isValid holds exactly when there are no errors. The sanitised data is present exactly when isValid. |
| Validation.ValidateAndSanitizeCreate | app/src/domains/trip-management/services/validation.ts:15-38 | The rules are checked on the sanitised fields. Each of the name, destination and date-order messages is present exactly when its rule fails. The invalid-start and invalid-end messages are present exactly when that date is invalid. The data is valid exactly when every rule holds, and only then is sanitised data present. |
| Validation.CreateReportsEveryViolation | app/src/domains/trip-management/services/validation.ts:15-38 | A blank name with valid dates out of order yields both the name message and the date-order message. |
| Validation.NaNDateMessages | app/src/domains/trip-management/services/validation.ts:26-32 | There is one message per invalid date and no other: the start-date message comes first when the start is invalid, the end-date message last when the end is invalid, and the list is empty when both dates are valid. |
| Validation.CreateAcceptsValidInput | app/src/domains/trip-management/services/validation.ts:15-38 | Raw input that satisfies the rules passes validation. |
| Validation.CreateYieldsNormalized | app/src/domains/trip-management/services/validation.ts:17-22 | Accepted data has normalised text and valid dates in order. |
| Validation.ValidateAndSanitizeUpdate | app/src/domains/trip-management/services/validation.ts:47-94 | An invalid start date, then an invalid end date, then supplied dates out of order each return exactly that one message. Otherwise the name and destination messages are present exactly when a supplied, sanitised field breaks its rule, and the update passes exactly when no supplied field does. Accepted data is the sanitised supplied fields. |
| Validation.UpdateAcceptsValidInput | app/src/domains/trip-management/services/validation.ts:47-94 | An update whose supplied fields satisfy the rules, with valid dates in order when both are given, passes. |
| Validation.UpdateKeepsSuppliedFields | app/src/domains/trip-management/services/validation.ts:49-77 | Accepted update data has exactly the supplied fields. The text fields are normalised and valid, and the dates are valid and in order. |
| Validation.EmptyUpdatePasses | app/src/domains/shared/utils/index.test.ts:266-269 | An update with no fields passes. |
| Validation.ValidateTripId | app/src/domains/trip-management/services/validation.ts:103-122 | The empty id and a whitespace-only id are refused with distinct messages. Every other id passes. |
| Store.InMemoryStore.Initialize | app/src/data/store.ts:31-33 | Loaded data replaces the store exactly when it holds at least one trip or weather entry. |
| Store.InMemoryStore.AddTrip | app/src/data/store.ts:82-85 | The trip is stored under its id, replacing any earlier one. Other trips and the weather are unchanged, and lastSync is now. |
| Store.InMemoryStore.RemoveTrip | app/src/data/store.ts:87-93 | Returns true exactly when the id was present. Only then are the entry removed and lastSync renewed; otherwise nothing changes. |
| Store.InMemoryStore.UpdateTrip | app/src/data/store.ts:95-98 | The trip is stored under the given id, present or not. Other trips are unchanged, and lastSync is now. |
| Store.InMemoryStore.AddWeatherData | app/src/data/store.ts:104-107 | The data is stored under the location. Other entries and the trips are unchanged, and lastSync is now. |
| Store.InMemoryStore.RemoveWeatherData | app/src/data/store.ts:113-119 | Returns true exactly when the location was present, and only then renews lastSync. Other entries are unchanged. |
| Store.InMemoryStore.ClearAllData | app/src/data/store.ts:121-125 | Both maps become empty, and lastSync is now. |
| Store.InMemoryStore.SetTrips | app/src/data/store.ts:72-75 | The trips map is replaced and lastSync renewed. |
| Store.InMemoryStore.SetWeather | app/src/data/store.ts:77-80 | The weather map is replaced and lastSync renewed. |
| Store.InMemoryStore.GetAllTrips | app/src/data/store.ts:127-129 | Returns one trip per key, in insertion order, each the one stored under that key. |
| Store.InMemoryStore.GetAllWeatherData | app/src/data/store.ts:131-133 | Returns one record per key, in insertion order. |
| JsMaps.Put | app/src/data/store.ts:83 | After `set`, the key maps to the new value and every other key is unchanged. An existing key keeps its place; a new key goes last. |
| JsMaps.Delete | app/src/data/store.ts:88 | After `delete`, the key is absent and every other key is unchanged. The size drops by one exactly when the key was present, and the order of the rest is kept. |
| TripServiceModel.ErrorReport | app/src/domains/trip-management/services/tripService.ts:20 | The thrown message starts with its head and contains every validation message. |
| TripServiceModel.CreateBuildsTrip | app/src/domains/trip-management/services/tripService.ts:17-34 | A trip is built exactly when validation passes. It carries the given id, the sanitised name and destination, dates in order, and now as both createdAt and updatedAt. |
| TripServiceModel.TripService.CreateTrip | app/src/domains/trip-management/services/tripService.ts:12-43 | Invalid data leaves the store unchanged and reports the validation messages. Otherwise the trip is stored under its id; a failed save is reported, but the trip stays stored. |
| TripServiceModel.GetTripById | app/src/domains/trip-management/services/tripService.ts:57-75 | A blank id is refused as invalid and an unknown id as not found. Otherwise the stored trip is returned. |
| TripServiceModel.FoundTripHasId | app/src/domains/trip-management/services/tripService.ts:65-71 | The trip found for an id carries that id. |
| TripServiceModel.UpdateRefusesUnknownId | app/src/domains/trip-management/services/tripService.ts:79-89 | A blank or unknown id is refused before the data is looked at. |
| TripServiceModel.UpdateMergesFields | app/src/domains/trip-management/services/tripService.ts:97-103 | A successful update keeps the id and createdAt, and sets updatedAt to now. It takes every supplied field in sanitised form, keeps every other field, and leaves the dates in order. |
| TripServiceModel.UpdateKeepsId | app/src/domains/trip-management/services/tripService.ts:99-103 | An updated trip stays under its own id. |
| TripServiceModel.UpdateChecksMergedDates | app/src/domains/trip-management/services/tripService.ts:105-111 | A new start date after the stored end date is refused with the date-order message. |
| TripServiceModel.TripService.UpdateTrip | app/src/domains/trip-management/services/tripService.ts:77-121 | A refused update leaves the store unchanged. An accepted one replaces the trip under its id; a failed save is reported afterwards. |
| TripServiceModel.DeleteOutcome | app/src/domains/trip-management/services/tripService.ts:125-135 | A blank id is refused as invalid and an unknown id as not found. Otherwise the result is true. |
| TripServiceModel.TripService.DeleteTrip | app/src/domains/trip-management/services/tripService.ts:123-147 | A refused delete changes nothing. Otherwise exactly that id is removed and the other trips keep their order. |
| TripServiceModel.TripsByDestination | app/src/domains/trip-management/services/tripService.ts:149-164 | A blank query is refused. Otherwise the result is exactly the trips whose lower-cased destination contains the trimmed, lower-cased query, in store order and with their multiplicity. |
| TripServiceModel.SearchIgnoresPadding | app/src/domains/trip-management/services/tripService.ts:155 | Whitespace around the query does not change the result. |
| TripServiceModel.SearchFindsOwnDestination | app/src/domains/trip-management/services/tripService.ts:155-160 | A trip whose destination equals the query, up to padding and case, is found. |
| TripServiceModel.UpcomingTrips | app/src/domains/trip-management/services/tripService.ts:166-179 | Returns exactly the trips starting today or later, as a permutation of the filtered list, earliest start first. |
| TripServiceModel.UpcomingTripsStable | app/src/domains/trip-management/services/tripService.ts:175 | Upcoming trips with the same start keep the order they have in the store (`Array.prototype.sort` is stable). |
| TripServiceModel.PastTrips | app/src/domains/trip-management/services/tripService.ts:181-194 | Returns exactly the trips that ended before today, as a permutation of the filtered list, latest end first. |
| TripServiceModel.CurrentTrips | app/src/domains/trip-management/services/tripService.ts:196-209 | Returns exactly the trips spanning today, in store order and with their multiplicity. |
| TripServiceModel.DateQueriesOverlap | app/src/domains/trip-management/services/tripService.ts:174-204 | For a trip with its dates in order, exactly one of past, current and starting later holds. Upcoming and current share exactly the trips starting today. |
| TripList.Rank | app/src/domains/trip-management/components/TripList.tsx:32-36 | A trip is under way (rank 0), not started (rank 1) or finished (rank 2). |
| TripList.CompareByRankAndKey | app/src/domains/trip-management/components/TripList.tsx:29-53 | The comparator orders by group first. Within a group it orders by start, or for finished trips by descending end. Swapping its arguments negates it. |
| TripList.ComparatorConsistent | app/src/domains/trip-management/components/TripList.tsx:29-53 | The comparator is total and transitive for any dates. |
| TripList.SortTrips | app/src/domains/trip-management/components/TripList.tsx:29 | The sorted copy is a permutation of the input, ordered by the comparator. |
| TripList.SortTripsStable | app/src/domains/trip-management/components/TripList.tsx:29 | Trips the comparator ranks level with one another keep their input order. |
| TripList.SortedWithinGroup | app/src/domains/trip-management/components/TripList.tsx:38-52 | Inside one group the sorted list is by start, or for finished trips by descending end. |
| TripList.SectionsPartition | app/src/domains/trip-management/components/TripList.tsx:55-68 | With start ≤ end, a trip is in exactly one of the current, upcoming and past sections. |
| TripList.View | app/src/domains/trip-management/components/TripList.tsx:21-68 | No trips shows only the empty message. Otherwise each section holds exactly the trips meeting its test. |
| TripList.SectionWithinGroup | app/src/domains/trip-management/components/TripList.tsx:55-68 | A section drawn from one group is a subsequence of the sorted list and keeps that group's order. |
| TripList.CurrentAndUpcomingByStart | app/src/domains/trip-management/components/TripList.tsx:55-63 | The current and upcoming sections keep the sorted order, which is ascending start. |
| TripList.PastByEnd | app/src/domains/trip-management/components/TripList.tsx:65-68 | The past section keeps the sorted order. With dates in order, that is descending end. |
| TripList.EveryTripShownOnce | app/src/domains/trip-management/components/TripList.tsx:55-68 | A trip with its dates in order is shown exactly once. |
| TripCard.PhaseOf | app/src/domains/trip-management/components/TripCard.tsx:34-46 | The four phases are exclusive and exhaustive. The days until departure decide, then whether the trip has ended. |
| TripCard.StatusAndClassAgree | app/src/domains/trip-management/components/TripCard.tsx:34-62 | The status text and the style class take the same branch, and phases with the same class are the same phase, except that every upcoming phase shares one class. |
| TripCard.DurationLabel | app/src/domains/trip-management/components/TripCard.tsx:83 | The label is "day" exactly when the trip lasts more than 0 and at most 24 hours. |
| TripCard.LastUpdatedAfterChange | app/src/domains/trip-management/components/TripCard.tsx:90-94 | A new trip shows no "Last updated" line. An update at any other time makes it show. |
| WeatherApiModel.RateLimitStep | app/src/domains/weather/api/weatherApi.ts:26-40 | A refused check leaves the limiter as it was. |
| WeatherApiModel.StepEffect | app/src/domains/weather/api/weatherApi.ts:29-39 | The window restarts exactly when more than 60 s have passed. A passing check counts exactly one more request. A check is refused exactly when the window is full. |
| WeatherApiModel.RetryWithinWindow | app/src/domains/weather/api/weatherApi.ts:34-37 | A refusal is the retry message with a wait of 0 to 60 seconds. |
| WeatherApiModel.PassesInWindow | app/src/domains/weather/api/weatherApi.ts:15-39 | Within one window exactly min(n, 10 − count) of n checks pass, never more than 10. |
| WeatherApiModel.FirstCheckOpensWindow | app/src/domains/weather/api/weatherApi.ts:12-13 | Starting from count 0 at time 0, the first check after one minute opens a new window and passes. |
| WeatherApiModel.MapFetchError | app/src/domains/weather/api/weatherApi.ts:132-144 | A time-out gets the fixed text. A message containing "Rate limit" is rethrown unchanged. Any other message becomes exactly "Unable to fetch weather data: " followed by the message. |
| WeatherApiModel.RetryMessagePassesThrough | app/src/domains/weather/api/weatherApi.ts:36-139 | The limiter's refusal reaches the caller word for word. |
| WeatherApiModel.WeatherApi.CheckRateLimit | app/src/domains/weather/api/weatherApi.ts:26-40 | Moves the two fields as one limiter step and throws that step's error. |
| WeatherApiModel.WeatherApi.GetCurrentWeather | app/src/domains/weather/api/weatherApi.ts:84-145 | Checks the limiter, then asks the source. Both kinds of failure are mapped to user messages. |
| WeatherServiceModel.TransformApiResponse | app/src/domains/weather/services/weatherService.ts:14-41 | One forecast day per source day, in order, with the source's location and the arrival time. The current conditions are the source's temperature, condition text, humidity, wind speed and condition icon. |
| WeatherServiceModel.TransformDay | app/src/domains/weather/services/weatherService.ts:23-33 | The day's date is read from the source's text. Its range is the day's minimum and maximum, its description and icon are the condition's, its humidity is the day's average, and its wind speed is 0. |
| WeatherServiceModel.ForecastDateIsMidnight | app/src/domains/weather/services/weatherService.ts:24 | A date-only forecast date becomes UTC midnight of that day. |
| WeatherServiceModel.CacheKeyNotEmpty | app/src/domains/weather/services/weatherService.ts:43-45 | A location has a non-empty key exactly when it is not blank. |
| WeatherServiceModel.CacheKeyIgnoresPadding | app/src/domains/weather/services/weatherService.ts:43-45 | Whitespace around a location does not change its key. |
| WeatherServiceModel.CacheKeyIgnoresCase | app/src/domains/weather/services/weatherService.ts:43-45 | Locations that differ only in case share a key. |
| WeatherServiceModel.SweepKeepsExactlyFresh | app/src/domains/weather/services/weatherService.ts:47-59 | A sweep keeps exactly the entries younger than 30 minutes, and a second sweep at the same time removes nothing more. |
| WeatherServiceModel.SweepStep | app/src/domains/weather/services/weatherService.ts:54-58 | Deleting one stale entry while iterating keeps the survivors of the entries visited so far, followed by the rest. |
| WeatherServiceModel.StoredEntrySurvives | app/src/domains/weather/services/weatherService.ts:80-90 | The entry just stored survives the sweep. Other entries are unchanged or, past 10 entries, swept because stale. With at most 10 entries there is no sweep. |
| WeatherServiceModel.BlankLocationRefused | app/src/domains/weather/services/weatherService.ts:62-64 | A blank location fails with "Location is required" and changes nothing. |
| WeatherServiceModel.FreshHitSkipsSource | app/src/domains/weather/services/weatherService.ts:69-73 | A fresh entry answers regardless of the source, and neither the cache nor the limiter changes. |
| WeatherServiceModel.LookupAfterAnswer | app/src/domains/weather/services/weatherService.ts:75-92 | Without a fresh entry, an answer from the source is transformed, stored and returned. |
| WeatherServiceModel.LookupAfterFailure | app/src/domains/weather/services/weatherService.ts:93-104 | Without a fresh entry, a failure returns the stale entry if there is one. Otherwise it names the location and the cause. |
| WeatherServiceModel.FailedFetchFallsBack | app/src/domains/weather/services/weatherService.ts:93-104 | A failed request leaves the cache, timestamps included, unchanged. It answers with the stale entry when there is one. |
| WeatherServiceModel.AnsweredFetchIsStored | app/src/domains/weather/services/weatherService.ts:80-92 | An answer is stored under the key with the arrival time and the source's location, and returned. |
| WeatherServiceModel.TripForecast | app/src/domains/weather/services/weatherService.ts:107-128 | When some forecast day falls within the trip (ends included), the result keeps exactly those days, in order, each as often as in the forecast. When none does, the data is returned unchanged. Location, current conditions and time are always kept. |
| WeatherServiceModel.WeatherService.CleanExpiredCache | app/src/domains/weather/services/weatherService.ts:52-59 | The loop leaves exactly the fresh entries, in their order. |
| WeatherServiceModel.WeatherService.GetWeatherForLocation | app/src/domains/weather/services/weatherService.ts:61-105 | Result, cache and limiter are those of the lookup specification, covering refusal, fresh hit, stored answer and fallback. |
| WeatherServiceModel.WeatherService.Refresh | app/src/domains/weather/services/weatherService.ts:75-104 | Asking the source, then storing or falling back, as the specification settles it. |
| WeatherServiceModel.WeatherService.StoreFetched | app/src/domains/weather/services/weatherService.ts:80-90 | Stores the entry, then sweeps only when the map holds more than 10 entries. |
| WeatherServiceModel.WeatherService.GetWeatherForTrip | app/src/domains/weather/services/weatherService.ts:107-128 | The location lookup, with its forecast narrowed to the trip. |
| WeatherServiceModel.WeatherService.GetCacheStats | app/src/domains/weather/services/weatherService.ts:130-135 | The size counts all entries, stale ones included. The locations are each entry's data location, in insertion order. |
| WeatherServiceModel.WeatherService.ClearCache | app/src/domains/weather/services/weatherService.ts:137-140 | The cache becomes empty. |
| WeatherServiceModel.WeatherService.ClearExpiredCache | app/src/domains/weather/services/weatherService.ts:142-145 | Leaves exactly the fresh entries. |
| WeatherServiceModel.WeatherService.HasCachedWeather | app/src/domains/weather/services/weatherService.ts:148-152 | True exactly when a fresh entry exists for the key. |
| WeatherServiceModel.WeatherService.GetCachedWeather | app/src/domains/weather/services/weatherService.ts:155-164 | Returns data exactly when hasCachedWeather holds, and then the entry's data. |
| WeatherServiceModel.WeatherService.CachedAgreesWithLookup | app/src/domains/weather/services/weatherService.ts:148-164 | What the cache reports is what a lookup at the same time answers, without asking the source. |
| Migrations.Split | app/src/data/migrations.ts:61-62 | `split` always gives at least one piece, and no piece holds the separator. |
| Migrations.SplitJoin | app/src/data/migrations.ts:61-62 | Joining the pieces with the separator gives back the text. |
| Migrations.CompareParts | app/src/data/migrations.ts:64-72 | The component comparison gives only −1, 0 or 1. |
| Migrations.VersionOrder | app/src/data/migrations.ts:60-73 | The version comparison gives only −1, 0 or 1. |
| Migrations.CompareVersions | app/src/data/migrations.ts:60-73 | The indexed loop with early returns computes the version order. |
| Migrations.VersionOrderLaws | app/src/data/migrations.ts:60-73 | Comparing a version with itself gives 0. Swapping the arguments negates the result, and "not above" is transitive. |
| Migrations.CompareTransitive | app/src/data/migrations.ts:64-72 | The component comparison is transitive. |
| Migrations.TrailingZero | app/src/data/migrations.ts:65-66 | A missing component counts as 0, so a trailing 0 changes nothing. |
| Migrations.ExtraZeroSameVersion | app/src/data/migrations.ts:64-72 | A version with one more ".0" compares equal, e.g. "1.0" and "1.0.0". |
| Migrations.InitialUp | app/src/data/migrations.ts:31-36 | `up` of 1.0.0 fills in trips, weather and lastSync only where missing, and keeps existing values. |
| Migrations.InitialUpIdempotent | app/src/data/migrations.ts:31-36 | Running `up` of 1.0.0 again changes nothing. |
| Migrations.GetMigrationState | app/src/data/migrations.ts:45-51 | A stored state is returned as it is; a missing one defaults to version 0.0.0 with nothing applied. |
| Migrations.UnversionedNeedsMigration | app/src/data/migrations.ts:75-78 | Data without a state needs migrating, since 0.0.0 is below 1.0.0. |
| Migrations.ThreeDigitComponents | app/src/data/migrations.ts:61 | "x.y.z" with single digits reads as its three digit values. |
| Migrations.NoLaterConsistent | app/src/data/migrations.ts:94 | The ascending version order used by the sort is total and transitive. |
| Migrations.NoEarlierConsistent | app/src/data/migrations.ts:134 | The descending version order used by the sort is total and transitive. |
| Migrations.Applicable | app/src/data/migrations.ts:91-94 | Exactly the migrations above the current version and not above 1.0.0, sorted ascending. |
| Migrations.RunUps | app/src/data/migrations.ts:99-107 | The loop applies every `up` in order and appends each version to the applied list. |
| Migrations.Migrate | app/src/data/migrations.ts:80-119 | The method computes the migrate outcome. Data needing no migration is returned as is; a failed backup is reported. Otherwise the applicable `up`s run and version 1.0.0 is recorded. |
| Migrations.MigrateIdempotent | app/src/data/migrations.ts:75-87 | Migrated data needs no further migration, so migrating again returns it unchanged. |
| Migrations.InitialVersions | app/src/data/migrations.ts:60-77 | 0.0.0 is below 1.0.0, and 1.0.0 is equal to itself. |
| Migrations.ApplicableFromScratch | app/src/data/migrations.ts:91-94 | From 0.0.0 every migration applies. |
| Migrations.MigrateFromScratch | app/src/data/migrations.ts:80-115 | From no state, migrating runs `up` of 1.0.0 and records version 1.0.0 with ["1.0.0"] applied. |
| Migrations.ToRollBack | app/src/data/migrations.ts:131-134 | Exactly the applied migrations above the target, each as often as in the registry (a permutation of the filtered registry), sorted descending. |
| Migrations.RunDowns | app/src/data/migrations.ts:141-148 | The loop runs every `down` in the order given, as `ApplyDowns` specifies. |
| Migrations.Rollback | app/src/data/migrations.ts:121-160 | The loop runs every `down` to undo, in order, then records the target and the applied versions up to it. |
| Migrations.RollbackLowersVersion | app/src/data/migrations.ts:125-154 | After a rollback the version is the target, which was below the old version. Every applied version left is at most the target, and migration is needed again exactly when the target is below 1.0.0. |
| Migrations.RollbackNeedsLowerTarget | app/src/data/migrations.ts:125-127 | A rollback to the current version is refused. |
| Migrations.GetMigrationInfo | app/src/data/migrations.ts:162-178 | Reports the stored version and target 1.0.0, needsMigration exactly when the stored version is below it, the applied versions of the stored state, and the one available migration. |
| ErrorHandler.FormatErrorMessage | app/src/domains/shared/utils/errorHandler.ts:145-163 | The application's four classes get their prefix. Any other error shows its message, or the default text when that is empty. The result ends with the message and is never empty. |
| ErrorHandler.RetryableByClass | app/src/domains/shared/utils/errorHandler.ts:165-170 | Network and weather-service errors are retryable, and trip-service and validation errors are not. Any other error is retryable exactly when named TypeError or ReferenceError. |
| ErrorHandler.TypeName | app/src/domains/shared/utils/errorHandler.ts:87 | An error is counted under its own name, or under "Unknown" when that name is empty; the result is never empty. |
| ErrorHandler.LastSnoc | app/src/domains/shared/utils/errorHandler.ts:46-51 | Pushing one entry and then dropping the first while over the limit keeps the most recent entries. |
| ErrorHandler.GlobalErrorHandler.HandleError | app/src/domains/shared/utils/errorHandler.ts:36-51 | Appends the entry and drops the oldest when over 100. The log stays the last 100 entries handled, in order, ending with the new one. |
| ErrorHandler.GlobalErrorHandler.GetErrorLog | app/src/domains/shared/utils/errorHandler.ts:74-76 | A copy of the log, at most 100 entries, the most recent handled. |
| ErrorHandler.GlobalErrorHandler.ClearErrorLog | app/src/domains/shared/utils/errorHandler.ts:78-80 | The log becomes empty. |
| ErrorHandler.GlobalErrorHandler.GetErrorSummary | app/src/domains/shared/utils/errorHandler.ts:82-96 | totalErrors is the log length and the counts are those of the map the loop fills. recentErrors is the last min(5, n) entries. |
| ErrorHandler.CountsAreOccurrences | app/src/domains/shared/utils/errorHandler.ts:86-89 | Every name is counted exactly as often as it occurs. A name that never occurs has no entry, and no error is counted under the empty name. |
| ErrorHandler.CountsSumToTotal | app/src/domains/shared/utils/errorHandler.ts:83-89 | The counts add up to the number of entries. |
| ErrorHandler.TallySum | app/src/domains/shared/utils/errorHandler.ts:88 | Each step of the loop adds exactly one to the total of the counts. |
| ErrorHandler.SummaryOfLog | app/src/domains/shared/utils/errorHandler.ts:82-96 | The recent errors are the five most recent ever handled, and the counts sum to the total. |
| IsoTime.IsoRoundTrip | app/src/data/persistence.ts:64-95 | Reading back the ISO text of any valid time value gives that time value. |
| IsoTime.ToIsoString | app/src/data/persistence.ts:64 | The ISO text has 24 characters, or 27 for an extended year. |
| Persistence.WriteEntries | app/src/data/persistence.ts:43-63 | Every map entry in order, with its key and its written value. |
| Persistence.SerializeKeepsEntries | app/src/data/persistence.ts:41-66 | Serialisation keeps every key in order with its trip or weather value, and each forecast list keeps its length and order. |
| Persistence.FillMap | app/src/data/persistence.ts:69-90 | The `forEach`/`set` loop builds the map of the read-back entries. |
| Persistence.DeserializeStore | app/src/data/persistence.ts:68-97 | Reads back both maps and lastSync, as the specification of reading does. |
| Persistence.TripRoundTrip | app/src/data/persistence.ts:46-76 | A trip written and read back is the same trip. |
| Persistence.ForecastRoundTrip | app/src/data/persistence.ts:58-88 | A forecast day with a valid date is the same after writing and reading. |
| Persistence.WeatherRoundTrip | app/src/data/persistence.ts:53-89 | A weather record with valid forecast dates is the same after writing and reading. |
| Persistence.InvalidForecastDateReadsAsEpoch | app/src/data/persistence.ts:58-87 | A forecast day with an Invalid Date is written as null and comes back dated at time 0. |
| Persistence.ReadAllWritten | app/src/data/persistence.ts:69-90 | Setting the written entries one by one rebuilds the same map, in the same order. |
| Persistence.TripsRoundTrip | app/src/data/persistence.ts:43-78 | The trips map is the same after writing and reading. |
| Persistence.WeatherMapRoundTrip | app/src/data/persistence.ts:53-90 | The weather map is the same after writing and reading, when every forecast date is valid. |
| Persistence.StoreRoundTrip | app/src/data/persistence.ts:41-97 | Reading back what was written gives the same store, when every forecast date is valid. |
| Persistence.Load | app/src/data/persistence.ts:112-129 | With no data file, empty maps stamped now. Otherwise the file's contents read back. |
| Persistence.MissingFileKeepsStore | app/src/data/store.ts:31-33 | Without a data file the loaded store is empty, so start-up keeps the store it has. |
| Persistence.DashForSeparators | app/src/data/persistence.ts:142 | Every ':' and '.' becomes '-', and every other character is kept. |
| Persistence.BackupNameShape | app/src/data/persistence.ts:142-143 | A backup name is "backup-", the ISO time with ':' and '.' replaced by '-', then ".json". It is a name the clean-up considers. |
| Persistence.LexTransitive | app/src/data/persistence.ts:194 | The name order is transitive. |
| Persistence.NewerFirstConsistent | app/src/data/persistence.ts:194 | The descending name order of the sort is total and transitive. |
| Persistence.BackupsNewestFirst | app/src/data/persistence.ts:188-194 | Exactly the listing's backup files, as a permutation, in descending name order. |
| Persistence.DeletesOnlyExcessBackups | app/src/data/persistence.ts:196-202 | Only backup files of the listing are deleted, as many as exceed the limit, and none within it. |
| Persistence.KeepsNewest | app/src/data/persistence.ts:194-197 | Every kept backup's name is at least every deleted backup's name. |
| Persistence.DataDirectory.Backup | app/src/data/persistence.ts:138-158 | Copies the data file under the name made from now and returns that name. Without a data file it fails and writes nothing. |
| Persistence.DataDirectory.Restore | app/src/data/persistence.ts:160-181 | The backup's contents become the data file. A missing backup or unparsable contents are refused, and the data file is left unchanged. |
| Persistence.DataDirectory.UnlinkAll | app/src/data/persistence.ts:199-201 | The loop removes exactly the given names. |
| Persistence.DataDirectory.CleanupOldBackups | app/src/data/persistence.ts:183-202 | Removes exactly the selected old backups and nothing else. |

## Left out

- File and JSON I/O: reading, writing, `mkdir`, `access`, `unlink` and the JSON text itself are not modelled.
  - The file's parsed contents, its absence, the directory listing and the outcome of a save are parameters.
  - A `JSON.parse` failure on load, the "Data file is corrupted" path, is not modelled.
- Clock, randomness, network: `Date.now()`/`new Date()` are parameters, and so are `crypto.randomUUID` ids, the weather source's answer and the mock data generator with its random failures.
- `fetch`, `AbortController` and the time-out are represented only by the error name they produce.
- Store initialisation: the dynamic import, the polling wait and the `initialized` flag are not modelled.
- Concurrency and `async`: each operation runs to completion, in order.
- Global error handlers, console output and external error reporting are not modelled, and neither are the error classes' extra fields (`operation`, `cause`, `field`, `status`).
- `getMigrationState`'s default and the stamp `setMigrationState` writes take the current time as a parameter.
- `MigrationData` keys other than trips, weather, lastSync and the migration state are not modelled.
- `loadAndMigrate` is not part of this model.
- `Migrations.PartValue`: `Number(part) || 0` is modelled for decimal digit strings with optional surrounding whitespace. Signs, exponents, hexadecimal, fractions and `Infinity` are read as 0.
- Persistence.ReadTrip: a stored trip date that does not read back (an Invalid Date in the JavaScript original) makes the whole read `None`, because a stored trip here holds valid time values only.
- Persistence.LexLess: `localeCompare` is modelled as code-unit order. For backup names (ASCII digits, letters and '-') the two agree on the usual locales.
- Persistence.DataDirectory.CleanupOldBackups: a negative `maxBackups` is not modelled (the parameter is a `nat`). A failed `unlink` is not modelled either; the original only logs a warning for it.
- `Object.fromEntries` in the error summary is modelled as the ordered map itself, so the reordering of integer-like keys is not modelled.
- TripList.View: the component reads the clock once per comparison and per filter; here one `now` serves the whole rendering.
- TripCard: the days until departure (local midnight), `formatDate` and the other locale and time-zone helpers are parameters or left out.
- The trip service takes `today` (local midnight) as a parameter.
- Temperatures, humidity and wind speed are integers; they are only copied, never computed with.
- Lower-casing is ASCII only. Trimming and `\s` use the ECMAScript whitespace set, applied to Unicode characters.
- TripUtils.IsValidTripName, TripUtils.IsValidDestination and TripUtils.LengthRules count characters, while JavaScript's `.length` counts UTF-16 code units. A character outside the Basic Multilingual Plane (an emoji, say) counts once here and twice in the original. So a name of 60 such characters is accepted here, but the original refuses it as 120 long.
- WeatherApiModel.MapFetchError: a thrown value that is not an `Error` (the "Unknown error occurred while fetching weather data" path) is not modelled. The same holds for the "Unknown error" fallbacks for non-`Error` values in the weather service, the validation and the trip service. Every failure here carries a name and a message.
- Persistence.ReadWeather: a forecast date that does not read back makes the whole read `None`, where the original builds an Invalid Date and still loads. The same holds for an unreadable `lastSync` in Persistence.Deserialized.
- Persistence.DataDirectory.Backup returns the backup's file name, where the original returns the path joined to the backup directory. Persistence.DataDirectory.Restore likewise takes a file name rather than a path. Directories are not modelled.
- Store.InMemoryStore.SetTrips and Store.InMemoryStore.SetWeather keep the caller's `Map` object, and `getTrips`, `getWeather` and `getStore` hand out the store's own maps, by reference. A caller that later mutates such a map changes the store without renewing `lastSync`. The model's maps are values, so this aliasing is not modelled; the three getters are the fields `trips`, `weather` and `Contents()`.
- IsoTime.ParseIso accepts any day from 1 to 31 in every month (2024-02-31 reads as 2024-03-02) and refuses hour 24. The ECMAScript date-time string format treats an out-of-range day as illegal and allows `T24:00:00.000` as the next midnight. The stored texts read here are ones the program wrote with `toISOString`, which never produces either form.
- The React components other than the trip list's sort and sections and the trip card's status, label and "Last updated" line are not part of this model. The same holds for the HTTP routes and the hooks.
