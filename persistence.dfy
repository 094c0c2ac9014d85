/** Saving and loading the store: the store as the data file holds it (maps
    as lists of key/value pairs, dates as ISO text), the empty store used
    when there is no data file, the names of backup files, and which old
    backups are deleted. Reading and writing files and the JSON text itself
    are not modelled: the file's contents, its absence and the directory
    listing are parameters. */
module Persistence {
  import opened Wrappers
  import opened Text
  import opened Seqs
  import opened JsMaps
  import opened IsoTime
  import opened Trips
  import opened WeatherTypes
  import opened Store

  // ------------------------------------------------------------ the file

  /** A trip as stored: its dates as the text `JSON.stringify` writes. */
  datatype StoredTrip = StoredTrip(
    id: string,
    name: string,
    destination: string,
    startDate: string,
    endDate: string,
    createdAt: string,
    updatedAt: string)

  /** A forecast day as stored; an Invalid Date is written as `null`. */
  datatype StoredForecast = StoredForecast(
    date: Option<string>,
    temperature: TemperatureRange,
    description: string,
    humidity: int,
    windSpeed: int,
    icon: string)

  datatype StoredWeather = StoredWeather(
    location: string,
    current: CurrentWeather,
    forecast: seq<StoredForecast>,
    lastUpdated: string)

  /** `SerializedStore`: the entries of both maps, in order, and the sync
      time. */
  datatype SerializedStore = SerializedStore(
    trips: seq<Entry<string, StoredTrip>>,
    weather: seq<Entry<string, StoredWeather>>,
    lastSync: string)

  /** A date as JSON holds it: `toJSON` gives the ISO text of a valid date
      and `null` for an Invalid Date. */
  function DateToJson(d: Option<Time>): Option<string>
  {
    match d
    case Some(t) => Some(ToIsoString(t))
    case None => None
  }

  /** `new Date(v)` on a stored value: ISO text is read back, `null` is
      time 0, and any other text is an Invalid Date. */
  function DateFromJson(v: Option<string>): Option<Time>
  {
    match v
    case Some(s) => ParseIso(s)
    case None => Some(0)
  }

  function WriteTrip(t: Trip): StoredTrip
  {
    StoredTrip(t.id, t.name, t.destination, ToIsoString(t.startDate), ToIsoString(t.endDate),
      ToIsoString(t.createdAt), ToIsoString(t.updatedAt))
  }

  /** A stored trip read back; `None` when one of its dates does not
      read back as a valid date. */
  function ReadTrip(s: StoredTrip): Option<Trip>
  {
    match (ParseIso(s.startDate), ParseIso(s.endDate), ParseIso(s.createdAt), ParseIso(s.updatedAt))
    case (Some(start), Some(end), Some(created), Some(updated)) =>
      Some(Trip(s.id, s.name, s.destination, start, end, created, updated))
    case _ => None
  }

  function WriteForecast(f: WeatherForecast): StoredForecast
  {
    StoredForecast(DateToJson(f.date), f.temperature, f.description, f.humidity, f.windSpeed, f.icon)
  }

  function ReadForecast(s: StoredForecast): WeatherForecast
  {
    WeatherForecast(DateFromJson(s.date), s.temperature, s.description, s.humidity, s.windSpeed, s.icon)
  }

  function WriteForecasts(fs: seq<WeatherForecast>): (r: seq<StoredForecast>)
    ensures |r| == |fs|
    ensures forall i :: 0 <= i < |fs| ==> r[i] == WriteForecast(fs[i])
  {
    seq(|fs|, i requires 0 <= i < |fs| => WriteForecast(fs[i]))
  }

  function ReadForecasts(fs: seq<StoredForecast>): (r: seq<WeatherForecast>)
    ensures |r| == |fs|
    ensures forall i :: 0 <= i < |fs| ==> r[i] == ReadForecast(fs[i])
  {
    seq(|fs|, i requires 0 <= i < |fs| => ReadForecast(fs[i]))
  }

  function WriteWeather(w: WeatherData): StoredWeather
  {
    StoredWeather(w.location, w.current, WriteForecasts(w.forecast), ToIsoString(w.lastUpdated))
  }

  function ReadWeather(s: StoredWeather): Option<WeatherData>
  {
    match ParseIso(s.lastUpdated)
    case Some(updated) => Some(WeatherData(s.location, s.current, ReadForecasts(s.forecast), updated))
    case None => None
  }

  /** `Array.from(m.entries()).map(...)`: every entry in order, its value
      written out. */
  function WriteEntries<A, B>(m: JsMap<string, A>, write: A -> B): (es: seq<Entry<string, B>>)
    ensures |es| == |m|
    ensures forall i :: 0 <= i < |m| ==> es[i] == Entry(m[i].key, write(m[i].value))
  {
    seq(|m|, i requires 0 <= i < |m| => Entry(m[i].key, write(m[i].value)))
  }

  /** `serializeStore`. */
  function SerializeStore(store: AppStore): SerializedStore
  {
    SerializedStore(WriteEntries(store.trips, WriteTrip), WriteEntries(store.weather, WriteWeather),
      ToIsoString(store.lastSync))
  }

  /** Serialisation keeps every key, in order, with its value, and every
      forecast list with its length and order. */
  lemma SerializeKeepsEntries(store: AppStore)
    ensures var s := SerializeStore(store);
      && |s.trips| == |store.trips| && |s.weather| == |store.weather|
      && (forall i :: 0 <= i < |s.trips| ==> s.trips[i].key == store.trips[i].key && s.trips[i].value.id == store.trips[i].value.id)
      && (forall i :: 0 <= i < |s.weather| ==>
            && s.weather[i].key == store.weather[i].key
            && |s.weather[i].value.forecast| == |store.weather[i].value.forecast|
            && (forall j :: 0 <= j < |s.weather[i].value.forecast| ==>
                 s.weather[i].value.forecast[j] == WriteForecast(store.weather[i].value.forecast[j])))
  {
  }

  // ------------------------------------------------------- reading back

  /** The map the `forEach` of `deserializeStore` fills: each entry `set`
      in turn, its value read back; `None` once a value does not read
      back. */
  function ReadAll<S, V>(es: seq<Entry<string, S>>, read: S -> Option<V>): Option<JsMap<string, V>>
  {
    if es == [] then Some([])
    else
      match (ReadAll(es[..|es| - 1], read), read(es[|es| - 1].value))
      case (Some(m), Some(v)) => Some(Put(m, es[|es| - 1].key, v))
      case _ => None
  }

  /** The loop of `deserializeStore` over one list of entries. */
  method FillMap<S, V>(es: seq<Entry<string, S>>, read: S -> Option<V>) returns (r: Option<JsMap<string, V>>)
    ensures r == ReadAll(es, read)
  {
    var m: JsMap<string, V> := [];
    var ok := true;
    for i := 0 to |es|
      invariant ok ==> ReadAll(es[..i], read) == Some(m)
      invariant !ok ==> ReadAll(es[..i], read) == None
    {
      assert es[..i + 1][..i] == es[..i];
      var v := read(es[i].value);
      if v.Some? {
        m := Put(m, es[i].key, v.value);
      } else {
        ok := false;
      }
    }
    assert es[..|es|] == es;
    r := if ok then Some(m) else None;
  }

  /** What `deserializeStore` gives, when every date reads back. */
  function Deserialized(s: SerializedStore): Option<AppStore>
  {
    match (ReadAll(s.trips, ReadTrip), ReadAll(s.weather, ReadWeather), ParseIso(s.lastSync))
    case (Some(trips), Some(weather), Some(lastSync)) => Some(AppStore(trips, weather, lastSync))
    case _ => None
  }

  /** `deserializeStore`. */
  method DeserializeStore(s: SerializedStore) returns (r: Option<AppStore>)
    ensures r == Deserialized(s)
  {
    var trips := FillMap(s.trips, ReadTrip);
    var weather := FillMap(s.weather, ReadWeather);
    var lastSync := ParseIso(s.lastSync);
    if trips.Some? && weather.Some? && lastSync.Some? {
      r := Some(AppStore(trips.value, weather.value, lastSync.value));
    } else {
      r := None;
    }
  }

  // ---------------------------------------------------------- round trip

  lemma TripRoundTrip(t: Trip)
    ensures ReadTrip(WriteTrip(t)) == Some(t)
  {
    IsoRoundTrip(t.startDate);
    IsoRoundTrip(t.endDate);
    IsoRoundTrip(t.createdAt);
    IsoRoundTrip(t.updatedAt);
  }

  predicate ValidForecastDates(w: WeatherData)
  {
    forall j :: 0 <= j < |w.forecast| ==> w.forecast[j].date.Some?
  }

  lemma ForecastRoundTrip(f: WeatherForecast)
    requires f.date.Some?
    ensures ReadForecast(WriteForecast(f)) == f
  {
    IsoRoundTrip(f.date.value);
  }

  lemma WeatherRoundTrip(w: WeatherData)
    requires ValidForecastDates(w)
    ensures ReadWeather(WriteWeather(w)) == Some(w)
  {
    IsoRoundTrip(w.lastUpdated);
    var back := ReadForecasts(WriteForecasts(w.forecast));
    forall j | 0 <= j < |w.forecast| ensures back[j] == w.forecast[j] {
      ForecastRoundTrip(w.forecast[j]);
    }
    assert back == w.forecast;
  }

  /** A forecast day whose date is an Invalid Date comes back dated at
      time 0: `null` is read as the epoch. */
  lemma InvalidForecastDateReadsAsEpoch(f: WeatherForecast)
    requires f.date.None?
    ensures ReadForecast(WriteForecast(f)) == f.(date := Some(0))
  {
  }

  /** Setting the entries of a map one by one, each read back to what it
      was, rebuilds the map. */
  lemma {:induction false} ReadAllWritten<A, S>(m: JsMap<string, A>, write: A -> S, read: S -> Option<A>)
    requires forall i :: 0 <= i < |m| ==> read(write(m[i].value)) == Some(m[i].value)
    ensures ReadAll(WriteEntries(m, write), read) == Some(m)
    decreases |m|
  {
    if m != [] {
      var n := |m| - 1;
      var init: JsMap<string, A> := m[..n];
      var es := WriteEntries(m, write);
      assert es[..n] == WriteEntries(init, write);
      ReadAllWritten(init, write, read);
      assert IndexOf(init, m[n].key) < 0;
      assert Put(init, m[n].key, m[n].value) == init + [m[n]];
      assert init + [m[n]] == m;
    }
  }

  /** Reading back what was written gives the same store, as long as every
      forecast date is valid. */
  lemma StoreRoundTrip(store: AppStore)
    requires forall i :: 0 <= i < |store.weather| ==> ValidForecastDates(store.weather[i].value)
    ensures Deserialized(SerializeStore(store)) == Some(store)
  {
    TripsRoundTrip(store.trips);
    WeatherMapRoundTrip(store.weather);
    IsoRoundTrip(store.lastSync);
    DeserializedParts(SerializeStore(store), store);
  }

  lemma DeserializedParts(s: SerializedStore, store: AppStore)
    requires ReadAll(s.trips, ReadTrip) == Some(store.trips)
    requires ReadAll(s.weather, ReadWeather) == Some(store.weather)
    requires ParseIso(s.lastSync) == Some(store.lastSync)
    ensures Deserialized(s) == Some(store)
  {
  }

  lemma TripsRoundTrip(trips: JsMap<string, Trip>)
    ensures ReadAll(WriteEntries(trips, WriteTrip), ReadTrip) == Some(trips)
  {
    forall i | 0 <= i < |trips| ensures ReadTrip(WriteTrip(trips[i].value)) == Some(trips[i].value) {
      TripRoundTrip(trips[i].value);
    }
    ReadAllWritten(trips, WriteTrip, ReadTrip);
  }

  lemma WeatherMapRoundTrip(weather: JsMap<string, WeatherData>)
    requires forall i :: 0 <= i < |weather| ==> ValidForecastDates(weather[i].value)
    ensures ReadAll(WriteEntries(weather, WriteWeather), ReadWeather) == Some(weather)
  {
    forall i | 0 <= i < |weather| ensures ReadWeather(WriteWeather(weather[i].value)) == Some(weather[i].value) {
      WeatherRoundTrip(weather[i].value);
    }
    ReadAllWritten(weather, WriteWeather, ReadWeather);
  }

  // ---------------------------------------------------------------- load

  /** `load()`: with no data file, empty maps and the current time;
      otherwise the file's contents read back. */
  function Load(file: Option<SerializedStore>, now: Time): (r: Option<AppStore>)
    ensures file.None? ==> r == Some(AppStore([], [], now))
    ensures file.Some? ==> r == Deserialized(file.value)
  {
    match file
    case None => Some(AppStore([], [], now))
    case Some(s) => Deserialized(s)
  }

  /** Starting without a data file leaves the in-memory store as it was:
      what is loaded is empty, and an empty load replaces nothing. */
  lemma MissingFileKeepsStore(now: Time)
    ensures Load(None, now).Some? && !ReplacesOnLoad(Load(None, now).value)
  {
  }

  // ------------------------------------------------------------- backups

  /** `replace(/[:.]/g, '-')`. */
  function DashForSeparators(s: string): (r: string)
    ensures |r| == |s|
    ensures forall i :: 0 <= i < |s| ==> r[i] == if s[i] == ':' || s[i] == '.' then '-' else s[i]
  {
    seq(|s|, i requires 0 <= i < |s| => if s[i] == ':' || s[i] == '.' then '-' else s[i])
  }

  const BackupPrefix := "backup-"
  const BackupSuffix := ".json"

  /** The name `backup()` gives the copy it writes. */
  function BackupName(now: Time): string
  {
    BackupPrefix + DashForSeparators(ToIsoString(now)) + BackupSuffix
  }

  /** The names `cleanupOldBackups` considers. */
  predicate IsBackupFile(name: string)
  {
    StartsWith(name, BackupPrefix) && EndsWith(name, BackupSuffix)
  }

  /** A backup name is the ISO time between the prefix and the suffix,
      with no colon or dot left in it, and it is one that the clean-up
      considers. */
  lemma BackupNameShape(now: Time)
    ensures var name := BackupName(now); var iso := ToIsoString(now);
      && |name| == |BackupPrefix| + |iso| + |BackupSuffix|
      && IsBackupFile(name)
      && (forall i :: |BackupPrefix| <= i < |name| - |BackupSuffix| ==> name[i] != ':' && name[i] != '.')
      && (forall i :: 0 <= i < |iso| ==> (name[|BackupPrefix| + i] == iso[i] || name[|BackupPrefix| + i] == '-'))
  {
    var name := BackupName(now);
    var mid := DashForSeparators(ToIsoString(now));
    assert name[..|BackupPrefix|] == BackupPrefix;
    assert name[|name| - |BackupSuffix|..] == BackupSuffix;
    forall i | |BackupPrefix| <= i < |name| - |BackupSuffix| ensures name[i] == mid[i - |BackupPrefix|] {
    }
  }

  /** Code-unit order of names: what `localeCompare` gives on the names
      `backup()` writes. */
  predicate LexLess(a: string, b: string)
    decreases |a|
  {
    if a == [] then b != []
    else if b == [] then false
    else if a[0] != b[0] then a[0] < b[0]
    else LexLess(a[1..], b[1..])
  }

  lemma {:induction false} LexAsymmetric(a: string, b: string)
    ensures !(LexLess(a, b) && LexLess(b, a))
    decreases |a|
  {
    if a != [] && b != [] && a[0] == b[0] {
      LexAsymmetric(a[1..], b[1..]);
    }
  }

  lemma {:induction false} LexTrichotomy(a: string, b: string)
    ensures a == b || LexLess(a, b) || LexLess(b, a)
    decreases |a|
  {
    if a != [] && b != [] && a[0] == b[0] {
      LexTrichotomy(a[1..], b[1..]);
      if a[1..] == b[1..] {
        assert a == [a[0]] + a[1..] && b == [b[0]] + b[1..];
      }
    }
  }

  lemma {:induction false} LexTransitive(a: string, b: string, c: string)
    requires LexLess(a, b) && LexLess(b, c)
    ensures LexLess(a, c)
    decreases |a|
  {
    if a != [] && a[0] == b[0] && b[0] == c[0] {
      LexTransitive(a[1..], b[1..], c[1..]);
    }
  }

  /** The sort order of `b.name.localeCompare(a.name)`: `a` may come
      before `b` when it is not smaller. */
  predicate NewerFirst(a: string, b: string)
  {
    !LexLess(a, b)
  }

  lemma NewerFirstConsistent()
    ensures TotalPreorder(NewerFirst)
  {
    forall a: string, b: string ensures NewerFirst(a, b) || NewerFirst(b, a) {
      LexAsymmetric(a, b);
    }
    forall a: string, b: string, c: string | NewerFirst(a, b) && NewerFirst(b, c)
      ensures NewerFirst(a, c)
    {
      LexTrichotomy(b, c);
      if LexLess(a, c) && LexLess(c, b) {
        LexTransitive(a, c, b);
      }
    }
  }

  /** The backup files of a listing, newest name first. */
  function BackupsNewestFirst(listing: seq<string>): (r: seq<string>)
    ensures multiset(r) == multiset(Filter(listing, IsBackupFile))
    ensures SortedBy(r, NewerFirst)
  {
    NewerFirstConsistent();
    SortBySorted(Filter(listing, IsBackupFile), NewerFirst);
    SortBy(Filter(listing, IsBackupFile), NewerFirst)
  }

  const DefaultMaxBackups: nat := 10

  /** The backups `cleanupOldBackups` deletes: all after the first
      `maxBackups`, and none when there are not more than that. */
  function ToDelete(listing: seq<string>, maxBackups: nat): seq<string>
  {
    var backups := BackupsNewestFirst(listing);
    if |backups| > maxBackups then backups[maxBackups..] else []
  }

  /** Only backup files of the listing are deleted, as many as there are
      beyond the limit, and nothing when the limit is not exceeded. */
  lemma DeletesOnlyExcessBackups(listing: seq<string>, maxBackups: nat)
    ensures forall name :: name in ToDelete(listing, maxBackups) ==> name in listing && IsBackupFile(name)
    ensures var n := |Filter(listing, IsBackupFile)|;
      |ToDelete(listing, maxBackups)| == if n > maxBackups then n - maxBackups else 0
  {
    var backups := BackupsNewestFirst(listing);
    assert |backups| == |multiset(backups)|;
    forall name | name in ToDelete(listing, maxBackups) ensures name in listing && IsBackupFile(name) {
      assert name in multiset(backups);
    }
  }

  /** Every backup that is kept has a name no smaller than every backup
      that is deleted: the newest ones are kept. */
  lemma KeepsNewest(listing: seq<string>, maxBackups: nat, kept: string, deleted: string)
    requires kept in listing && IsBackupFile(kept) && kept !in ToDelete(listing, maxBackups)
    requires deleted in ToDelete(listing, maxBackups)
    ensures !LexLess(kept, deleted)
  {
    var backups := BackupsNewestFirst(listing);
    assert kept in multiset(backups);
    var i :| 0 <= i < |backups| && backups[i] == kept;
    var j :| maxBackups <= j < |backups| && backups[j] == deleted;
    if i >= maxBackups {
      assert false;
    }
    assert NewerFirst(backups[i], backups[j]);
  }

  /** The names in a list, as a set. */
  function Names(xs: seq<string>): (r: set<string>)
    ensures forall x :: x in r <==> x in xs
  {
    set x | x in xs
  }

  /** The data directory: the contents of the data file, if there is
      one, and the backup directory's files by name with their contents. */
  class DataDirectory {
    var dataFile: Option<string>
    var backups: map<string, string>

    constructor(dataFile: Option<string>, backups: map<string, string>)
      ensures this.dataFile == dataFile && this.backups == backups
    {
      this.dataFile := dataFile;
      this.backups := backups;
    }

    /** `backup()`: copies the data file under the name made from `now`
        and returns that name; without a data file it fails and writes
        nothing. */
    method Backup(now: Time) returns (r: Result<string, string>)
      modifies this
      ensures dataFile == old(dataFile)
      ensures old(dataFile).None? ==>
        r == Failure("Failed to create backup: No data file exists to backup") && backups == old(backups)
      ensures old(dataFile).Some? ==>
        r == Success(BackupName(now)) && backups == old(backups)[BackupName(now) := old(dataFile).value]
    {
      var backupFile := BackupName(now);
      if dataFile.None? {
        return Failure("Failed to create backup: No data file exists to backup");
      }
      backups := backups[backupFile := dataFile.value];
      r := Success(backupFile);
    }

    /** `restore(backup)`: the backup's contents become the data file,
        unless there is no such backup or its contents do not parse.
        `syntaxError` gives the message `JSON.parse` throws for a text,
        if it throws. */
    method Restore(name: string, syntaxError: string -> Option<string>) returns (r: Result<(), string>)
      modifies this
      ensures backups == old(backups)
      ensures name !in old(backups) ==>
        r == Failure("Failed to restore backup: Backup file does not exist: " + name) && dataFile == old(dataFile)
      ensures name in old(backups) && syntaxError(old(backups)[name]).Some? ==>
        r == Failure("Backup file is corrupted: " + syntaxError(old(backups)[name]).value) && dataFile == old(dataFile)
      ensures name in old(backups) && syntaxError(old(backups)[name]).None? ==>
        r == Success(()) && dataFile == Some(old(backups)[name])
    {
      if name !in backups {
        return Failure("Failed to restore backup: Backup file does not exist: " + name);
      }
      var backupData := backups[name];
      var err := syntaxError(backupData);
      if err.Some? {
        return Failure("Backup file is corrupted: " + err.value);
      }
      dataFile := Some(backupData);
      r := Success(());
    }

    /** `unlink` of every backup named, in turn. */
    method UnlinkAll(names: seq<string>)
      modifies this
      ensures dataFile == old(dataFile)
      ensures backups == old(backups) - Names(names)
    {
      for i := 0 to |names|
        invariant dataFile == old(dataFile)
        invariant backups == old(backups) - Names(names[..i])
      {
        assert names[..i + 1] == names[..i] + [names[i]];
        backups := backups - {names[i]};
      }
      assert names[..|names|] == names;
    }

    /** `cleanupOldBackups`: `listing` is what `readdir` returns; the
        backups beyond the newest `maxBackups` are unlinked. */
    method CleanupOldBackups(listing: seq<string>, maxBackups: nat)
      requires forall name :: name in listing <==> name in backups
      modifies this
      ensures dataFile == old(dataFile)
      ensures backups == old(backups) - Names(ToDelete(listing, maxBackups))
      ensures forall name :: name in backups <==> name in listing && name !in ToDelete(listing, maxBackups)
    {
      var backupFiles := BackupsNewestFirst(listing);
      if |backupFiles| > maxBackups {
        UnlinkAll(backupFiles[maxBackups..]);
      } else {
        assert Names([]) == {};
      }
    }
  }
}
