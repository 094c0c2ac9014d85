/** Versioned migrations of the stored data: dotted version numbers compared
    component by component, the migrations between the stored version and
    the current one applied in ascending order, and rollback to a lower
    version by running the `down` transforms in descending order. The clock
    and the outcome of the backup taken first are parameters. */
module Migrations {
  import opened Wrappers
  import opened Text
  import opened Seqs
  import opened JsMaps
  import opened IsoTime
  import opened Trips
  import opened WeatherTypes

  const CurrentVersion := "1.0.0"

  // -------------------------------------------------------------- versions

  /** `s.split(sep)`: the pieces between separators, empty ones included;
      there is always at least one. */
  function Split(s: string, sep: char): (parts: seq<string>)
    ensures |parts| >= 1
    ensures forall p :: p in parts ==> sep !in p
    decreases |s|
  {
    if s == [] then [[]]
    else
      var rest := Split(s[1..], sep);
      if s[0] == sep then [[]] + rest
      else [[s[0]] + rest[0]] + rest[1..]
  }

  /** Joining the pieces with the separator gives back the text. */
  lemma {:induction false} SplitJoin(s: string, sep: char)
    ensures Join(Split(s, sep), [sep]) == s
    decreases |s|
  {
    if s != [] {
      var rest := Split(s[1..], sep);
      SplitJoin(s[1..], sep);
      if s[0] == sep {
        assert Split(s, sep) == [[]] + rest;
        assert ([[]] + rest)[1..] == rest;
      } else {
        var parts := [[s[0]] + rest[0]] + rest[1..];
        assert Split(s, sep) == parts;
        if |rest| == 1 {
          assert Join(rest, [sep]) == rest[0];
        } else {
          assert parts[1..] == rest[1..];
          assert Join(rest, [sep]) == rest[0] + [sep] + Join(rest[1..], [sep]);
        }
      }
    }
  }

  /** `Number(part) || 0` for the decimal forms: surrounding whitespace is
      ignored, the empty text is 0, and anything that is not a run of
      digits gives NaN, which `|| 0` turns into 0. */
  function PartValue(part: string): nat
  {
    var t := Trim(part);
    if AllDigits(t) then DigitsValue(t) else 0
  }

  /** `version.split('.').map(Number)`, with `|| 0` applied. */
  function Components(version: string): seq<int>
  {
    PartValues(Split(version, '.'))
  }

  /** The value of each part, in order. */
  function PartValues(parts: seq<string>): (cs: seq<int>)
    ensures |cs| == |parts|
  {
    if parts == [] then [] else [PartValue(parts[0])] + PartValues(parts[1..])
  }

  /** `parts[i] || 0`: a missing component counts as 0. */
  function At(cs: seq<int>, i: nat): int
  {
    if i < |cs| then cs[i] else 0
  }

  /** The comparison of two component lists, the shorter padded with
      zeros. */
  function CompareParts(a: seq<int>, b: seq<int>): (c: int)
    ensures c == -1 || c == 0 || c == 1
    decreases |a| + |b|
  {
    if a == [] && b == [] then 0
    else if At(a, 0) < At(b, 0) then -1
    else if At(a, 0) > At(b, 0) then 1
    else CompareParts(Rest(a), Rest(b))
  }

  function Rest(cs: seq<int>): seq<int>
  {
    if cs == [] then [] else cs[1..]
  }

  /** The order `compareVersions` computes. */
  function VersionOrder(v1: string, v2: string): (c: int)
    ensures c == -1 || c == 0 || c == 1
  {
    CompareParts(Components(v1), Components(v2))
  }

  /** The components from position `i` on. */
  function Drop(cs: seq<int>, i: nat): seq<int>
  {
    if i < |cs| then cs[i..] else []
  }

  /** `compareVersions`: the indexed loop with early returns. */
  method CompareVersions(v1: string, v2: string) returns (c: int)
    ensures c == VersionOrder(v1, v2)
  {
    var a := Components(v1);
    var b := Components(v2);
    var n := if |a| >= |b| then |a| else |b|;
    for i := 0 to n
      invariant CompareParts(a, b) == CompareParts(Drop(a, i), Drop(b, i))
    {
      assert At(a, i) == At(Drop(a, i), 0) && At(b, i) == At(Drop(b, i), 0);
      assert Rest(Drop(a, i)) == Drop(a, i + 1) && Rest(Drop(b, i)) == Drop(b, i + 1);
      if At(a, i) < At(b, i) {
        return -1;
      }
      if At(a, i) > At(b, i) {
        return 1;
      }
    }
    return 0;
  }

  lemma {:induction false} CompareReflexive(a: seq<int>)
    ensures CompareParts(a, a) == 0
    decreases |a|
  {
    if a != [] {
      CompareReflexive(Rest(a));
    }
  }

  lemma {:induction false} CompareAntisymmetric(a: seq<int>, b: seq<int>)
    ensures CompareParts(a, b) == -CompareParts(b, a)
    decreases |a| + |b|
  {
    if !(a == [] && b == []) && At(a, 0) == At(b, 0) {
      CompareAntisymmetric(Rest(a), Rest(b));
    }
  }

  lemma {:induction false} CompareTransitive(a: seq<int>, b: seq<int>, c: seq<int>)
    requires CompareParts(a, b) <= 0 && CompareParts(b, c) <= 0
    ensures CompareParts(a, c) <= 0
    decreases |a| + |b| + |c|
  {
    if a == [] && c == [] {
    } else if At(a, 0) == At(b, 0) && At(b, 0) == At(c, 0) {
      if b == [] {
        assert Rest(b) == b;
        CompareTransitive(Rest(a), [], Rest(c));
      } else {
        CompareTransitive(Rest(a), Rest(b), Rest(c));
      }
    }
  }

  /** Components beyond the end count as zeros: a trailing zero changes
      nothing, so "1.0" and "1.0.0" are the same version. */
  lemma {:induction false} TrailingZero(a: seq<int>, b: seq<int>)
    ensures CompareParts(a + [0], b) == CompareParts(a, b)
    decreases |a| + |b|
  {
    if a == [] {
      ZerosOnly(b);
    } else {
      assert (a + [0])[0] == a[0] && Rest(a + [0]) == Rest(a) + [0];
      if At(a, 0) == At(b, 0) {
        TrailingZero(Rest(a), Rest(b));
      }
    }
  }

  lemma {:induction false} ZerosOnly(b: seq<int>)
    ensures CompareParts([0], b) == CompareParts([], b)
    decreases |b|
  {
    if b != [] && At(b, 0) == 0 {
      assert Rest([0]) == [];
    }
  }

  /** `compareVersions` is reflexive, antisymmetric and transitive. */
  lemma VersionOrderLaws(v1: string, v2: string, v3: string)
    ensures VersionOrder(v1, v1) == 0
    ensures VersionOrder(v1, v2) == -VersionOrder(v2, v1)
    ensures VersionOrder(v1, v2) <= 0 && VersionOrder(v2, v3) <= 0 ==> VersionOrder(v1, v3) <= 0
  {
    CompareReflexive(Components(v1));
    CompareAntisymmetric(Components(v1), Components(v2));
    if VersionOrder(v1, v2) <= 0 && VersionOrder(v2, v3) <= 0 {
      CompareTransitive(Components(v1), Components(v2), Components(v3));
    }
  }

  /** A version with one more ".0" is the same version. */
  lemma ExtraZeroSameVersion(v: string, w: string)
    requires Components(w) == Components(v) + [0]
    ensures VersionOrder(w, v) == 0
  {
    TrailingZero(Components(v), Components(v));
    CompareReflexive(Components(v));
  }

  // ---------------------------------------------------------------- data

  /** `lastSync` as loaded: an ISO text or a `Date` object. Only the empty
      text is falsy. */
  datatype SyncStamp = IsoText(text: string) | DateValue(date: JsDate)

  datatype MigrationState = MigrationState(currentVersion: string, appliedMigrations: seq<string>, lastMigration: Time)

  /** The stored data the migrations see; `None` is a missing field. */
  datatype MigrationData = MigrationData(
    trips: Option<JsMap<string, Trip>>,
    weather: Option<JsMap<string, WeatherData>>,
    lastSync: Option<SyncStamp>,
    migrationState: Option<MigrationState>)

  /** The transforms take the current time, which `up` of 1.0.0 reads. */
  datatype Migration = Migration(
    version: string,
    description: string,
    up: (MigrationData, Time) -> MigrationData,
    down: MigrationData -> MigrationData)

  predicate MissingSync(s: Option<SyncStamp>)
  {
    s.None? || s == Some(IsoText(""))
  }

  /** `up` of 1.0.0: fill in the missing collections and sync time. */
  function InitialUp(data: MigrationData, now: Time): (r: MigrationData)
    ensures r.trips == if data.trips.None? then Some([]) else data.trips
    ensures r.weather == if data.weather.None? then Some([]) else data.weather
    ensures r.lastSync == if MissingSync(data.lastSync) then Some(IsoText(ToIsoString(now))) else data.lastSync
    ensures r.migrationState == data.migrationState
  {
    var r := data;
    var r := if r.trips.None? then r.(trips := Some([])) else r;
    var r := if r.weather.None? then r.(weather := Some([])) else r;
    if MissingSync(r.lastSync) then r.(lastSync := Some(IsoText(ToIsoString(now)))) else r
  }

  /** `down` of 1.0.0: a copy. */
  function InitialDown(data: MigrationData): MigrationData
  {
    data
  }

  /** Running `up` of 1.0.0 a second time changes nothing. */
  lemma InitialUpIdempotent(data: MigrationData, now: Time, later: Time)
    ensures InitialUp(InitialUp(data, now), later) == InitialUp(data, now)
  {
    var s := ToIsoString(now);
    assert |s| > 0 by {
      IsoRoundTrip(now);
    }
  }

  const AllMigrations: seq<Migration> := [Migration("1.0.0", "Initial data structure", InitialUp, InitialDown)]

  /** `getMigrationState`: the stored state, or version 0.0.0 with nothing
      applied. */
  function GetMigrationState(data: MigrationData, now: Time): (s: MigrationState)
    ensures data.migrationState.None? ==> s == MigrationState("0.0.0", [], now)
    ensures data.migrationState.Some? ==> s == data.migrationState.value
  {
    match data.migrationState
    case Some(s) => s
    case None => MigrationState("0.0.0", [], now)
  }

  /** `needsMigration`. */
  predicate NeedsMigration(data: MigrationData)
  {
    VersionOrder(GetMigrationState(data, 0).currentVersion, CurrentVersion) < 0
  }

  /** A one-character text without the separator is one piece. */
  lemma SplitSingle(d: char, sep: char)
    requires d != sep
    ensures Split([d], sep) == [[d]]
  {
    assert [d][1..] == [];
    assert Split([], sep) == [[]];
    assert [d] + [] == [d];
  }

  /** A character followed by the separator is the first piece. */
  lemma SplitLead(d: char, sep: char, rest: string)
    requires d != sep
    ensures Split([d, sep] + rest, sep) == [[d]] + Split(rest, sep)
  {
    var s := [d, sep] + rest;
    assert s[1..] == [sep] + rest && s[1..][1..] == rest;
    var tail := Split(s[1..], sep);
    assert tail == [[]] + Split(rest, sep);
    assert tail[0] == [] && tail[1..] == Split(rest, sep);
    assert [d] + [] == [d];
  }

  /** A single digit is read as its value. */
  lemma DigitValue(d: char)
    requires '0' <= d <= '9'
    ensures PartValue([d]) == d as int - '0' as int
  {
    assert !IsSpace(d);
    UnpaddedTrim([d]);
    assert AllDigits([d]);
    assert [d][..0] == [];
    assert DigitsValue([d]) == DigitsValue([]) * 10 + (d as int - '0' as int);
  }

  /** "x.y.z" with single characters other than the dot is three pieces. */
  lemma SplitThree(x: char, y: char, z: char)
    requires x != '.' && y != '.' && z != '.'
    ensures Split([x, '.', y, '.', z], '.') == [[x], [y], [z]]
  {
    SplitSingle(z, '.');
    SplitLead(y, '.', [z]);
    SplitLead(x, '.', [y, '.', z]);
    assert [x, '.'] + [y, '.', z] == [x, '.', y, '.', z] && [y, '.'] + [z] == [y, '.', z];
  }

  /** The components of a version "x.y.z" written with single digits. */
  lemma ThreeDigitComponents(x: char, y: char, z: char)
    requires '0' <= x <= '9' && '0' <= y <= '9' && '0' <= z <= '9'
    ensures Components([x, '.', y, '.', z]) == [x as int - '0' as int, y as int - '0' as int, z as int - '0' as int]
  {
    SplitThree(x, y, z);
    DigitValue(x);
    DigitValue(y);
    DigitValue(z);
    var parts := [[x], [y], [z]];
    assert parts[1..] == [[y], [z]] && [[y], [z]][1..] == [[z]] && [[z]][1..] == [];
    assert PartValues([[z]]) == [PartValue([z])];
    assert PartValues([[y], [z]]) == [PartValue([y])] + PartValues([[z]]);
    assert PartValues(parts) == [PartValue([x])] + PartValues([[y], [z]]);
  }

  /** Data without a migration state needs migrating: 0.0.0 is below 1.0.0. */
  lemma UnversionedNeedsMigration(data: MigrationData)
    requires data.migrationState.None?
    ensures NeedsMigration(data)
  {
    ThreeDigitComponents('0', '0', '0');
    ThreeDigitComponents('1', '0', '0');
    assert "0.0.0" == ['0', '.', '0', '.', '0'] && CurrentVersion == ['1', '.', '0', '.', '0'];
  }

  // -------------------------------------------------------------- migrate

  predicate VersionNoLater(a: Migration, b: Migration)
  {
    VersionOrder(a.version, b.version) <= 0
  }

  predicate VersionNoEarlier(a: Migration, b: Migration)
  {
    VersionOrder(b.version, a.version) <= 0
  }

  /** Ascending version order is total and transitive. */
  lemma NoLaterConsistent()
    ensures TotalPreorder(VersionNoLater)
  {
    forall a: Migration, b: Migration ensures VersionNoLater(a, b) || VersionNoLater(b, a) {
      VersionOrderLaws(a.version, b.version, b.version);
    }
    forall a: Migration, b: Migration, c: Migration | VersionNoLater(a, b) && VersionNoLater(b, c)
      ensures VersionNoLater(a, c)
    {
      VersionOrderLaws(a.version, b.version, c.version);
    }
  }

  /** Descending version order is total and transitive. */
  lemma NoEarlierConsistent()
    ensures TotalPreorder(VersionNoEarlier)
  {
    forall a: Migration, b: Migration ensures VersionNoEarlier(a, b) || VersionNoEarlier(b, a) {
      VersionOrderLaws(a.version, b.version, b.version);
    }
    forall a: Migration, b: Migration, c: Migration | VersionNoEarlier(a, b) && VersionNoEarlier(b, c)
      ensures VersionNoEarlier(a, c)
    {
      VersionOrderLaws(c.version, b.version, a.version);
    }
  }

  function Pending(current: string): Migration -> bool
  {
    (m: Migration) => VersionOrder(m.version, current) > 0 && VersionOrder(m.version, CurrentVersion) <= 0
  }

  /** The migrations to run from `current`: those above it and not above
      the current version, each once, in ascending order. */
  function Applicable(current: string): (ms: seq<Migration>)
    ensures SortedBy(ms, VersionNoLater)
    ensures multiset(ms) == multiset(Filter(AllMigrations, Pending(current)))
    ensures forall m :: m in ms <==> m in AllMigrations && Pending(current)(m)
  {
    var f := Filter(AllMigrations, Pending(current));
    NoLaterConsistent();
    SortBySorted(f, VersionNoLater);
    var ms := SortBy(f, VersionNoLater);
    assert forall m :: m in ms <==> m in multiset(f);
    ms
  }

  /** The data after running `up` of each migration, first to last. */
  function ApplyUps(ms: seq<Migration>, data: MigrationData, now: Time): MigrationData
  {
    if ms == [] then data else ms[|ms| - 1].up(ApplyUps(ms[..|ms| - 1], data, now), now)
  }

  function VersionsOf(ms: seq<Migration>): (vs: seq<string>)
    ensures |vs| == |ms| && forall i :: 0 <= i < |ms| ==> vs[i] == ms[i].version
  {
    seq(|ms|, i requires 0 <= i < |ms| => ms[i].version)
  }

  /** The loop of `migrate`: every `up` in turn, each version pushed onto
      the applied list after its `up` has run. */
  method RunUps(ms: seq<Migration>, data: MigrationData, applied: seq<string>, now: Time)
    returns (migrated: MigrationData, appliedAfter: seq<string>)
    ensures migrated == ApplyUps(ms, data, now)
    ensures appliedAfter == applied + VersionsOf(ms)
  {
    migrated := data;
    appliedAfter := applied;
    for i := 0 to |ms|
      invariant migrated == ApplyUps(ms[..i], data, now)
      invariant appliedAfter == applied + VersionsOf(ms[..i])
    {
      assert ms[..i + 1][..i] == ms[..i];
      migrated := ms[i].up(migrated, now);
      appliedAfter := appliedAfter + [ms[i].version];
    }
    assert ms[..|ms|] == ms;
  }

  /** What `migrate` returns: unchanged data when no migration is needed;
      otherwise, once the backup is taken, the data after every applicable
      `up`, with their versions appended to the applied list and the current
      version recorded. */
  function MigrateOutcome(data: MigrationData, now: Time, backupFailure: Option<string>): Result<MigrationData, string>
  {
    if !NeedsMigration(data) then Success(data)
    else if backupFailure.Some? then Failure("Migration process failed: " + backupFailure.value)
    else
      var state := GetMigrationState(data, now);
      var ms := Applicable(state.currentVersion);
      Success(ApplyUps(ms, data, now).(migrationState :=
        Some(MigrationState(CurrentVersion, state.appliedMigrations + VersionsOf(ms), now))))
  }

  /** `migrate`. */
  method Migrate(data: MigrationData, now: Time, backupFailure: Option<string>) returns (r: Result<MigrationData, string>)
    ensures r == MigrateOutcome(data, now, backupFailure)
  {
    var state := GetMigrationState(data, now);
    var c := CompareVersions(GetMigrationState(data, 0).currentVersion, CurrentVersion);
    if c >= 0 {
      return Success(data);
    }
    if backupFailure.Some? {
      return Failure("Migration process failed: " + backupFailure.value);
    }
    var migrated, applied := RunUps(Applicable(state.currentVersion), data, state.appliedMigrations, now);
    return Success(migrated.(migrationState := Some(MigrationState(CurrentVersion, applied, now))));
  }

  /** Migrated data needs no further migration, so migrating twice is
      migrating once; when a migration ran, the current version is
      recorded. */
  lemma MigrateIdempotent(data: MigrationData, now: Time, later: Time, backupFailure: Option<string>, second: Option<string>)
    requires MigrateOutcome(data, now, backupFailure).Success?
    ensures var d := MigrateOutcome(data, now, backupFailure).value;
      && !NeedsMigration(d)
      && MigrateOutcome(d, later, second) == Success(d)
      && (NeedsMigration(data) ==> GetMigrationState(d, later).currentVersion == CurrentVersion)
  {
    if NeedsMigration(data) {
      CompareReflexive(Components(CurrentVersion));
    }
  }

  /** The comparisons between the two versions that occur: 0.0.0 is below
      1.0.0. */
  lemma InitialVersions()
    ensures VersionOrder("0.0.0", CurrentVersion) == -1
    ensures VersionOrder(CurrentVersion, "0.0.0") == 1
    ensures VersionOrder(CurrentVersion, CurrentVersion) == 0
  {
    ThreeDigitComponents('0', '0', '0');
    ThreeDigitComponents('1', '0', '0');
    assert "0.0.0" == ['0', '.', '0', '.', '0'] && CurrentVersion == ['1', '.', '0', '.', '0'];
    CompareReflexive(Components(CurrentVersion));
  }

  /** From version 0.0.0 every migration applies. */
  lemma ApplicableFromScratch()
    ensures Applicable("0.0.0") == AllMigrations
  {
    InitialVersions();
    var m := AllMigrations[0];
    var ms := Applicable("0.0.0");
    assert Pending("0.0.0")(m);
    assert m in ms;
    assert |ms| <= 1 by {
      assert |ms| == |multiset(ms)|;
    }
  }

  /** Running every migration is running `up` of 1.0.0. */
  lemma RunAll(data: MigrationData, now: Time)
    ensures ApplyUps(AllMigrations, data, now) == InitialUp(data, now)
    ensures VersionsOf(AllMigrations) == ["1.0.0"]
  {
    assert AllMigrations[..0] == [];
  }

  /** From version 0.0.0 the one migration runs and is recorded. */
  lemma MigrateFromScratch(data: MigrationData, now: Time)
    requires data.migrationState.None?
    ensures MigrateOutcome(data, now, None) == Success(InitialUp(data, now).(migrationState :=
      Some(MigrationState(CurrentVersion, ["1.0.0"], now))))
  {
    UnversionedNeedsMigration(data);
    ApplicableFromScratch();
    RunAll(data, now);
    assert [] + ["1.0.0"] == ["1.0.0"];
  }

  // ------------------------------------------------------------- rollback

  function Reverted(target: string, applied: seq<string>): Migration -> bool
  {
    (m: Migration) => VersionOrder(m.version, target) > 0 && m.version in applied
  }

  function KeptVersion(target: string): string -> bool
  {
    (v: string) => VersionOrder(v, target) <= 0
  }

  /** The migrations to undo: applied ones above the target, in descending
      order. */
  function ToRollBack(target: string, applied: seq<string>): (ms: seq<Migration>)
    ensures SortedBy(ms, VersionNoEarlier)
    ensures forall m :: m in ms <==> m in AllMigrations && VersionOrder(m.version, target) > 0 && m.version in applied
    ensures multiset(ms) == multiset(Filter(AllMigrations, Reverted(target, applied)))
  {
    var f := Filter(AllMigrations, Reverted(target, applied));
    NoEarlierConsistent();
    SortBySorted(f, VersionNoEarlier);
    var ms := SortBy(f, VersionNoEarlier);
    assert forall m :: m in ms <==> m in multiset(f);
    ms
  }

  function ApplyDowns(ms: seq<Migration>, data: MigrationData): MigrationData
  {
    if ms == [] then data else ms[|ms| - 1].down(ApplyDowns(ms[..|ms| - 1], data))
  }

  const TargetNotLower := "Target version must be lower than current version"

  /** What `rollback` returns: refused unless the target is below the
      stored version; otherwise the data after every `down` to undo, with
      only the applied versions up to the target kept and the target
      recorded. */
  function RollbackOutcome(data: MigrationData, target: string, now: Time, backupFailure: Option<string>): Result<MigrationData, string>
  {
    var state := GetMigrationState(data, now);
    if VersionOrder(target, state.currentVersion) >= 0 then Failure("Rollback process failed: " + TargetNotLower)
    else if backupFailure.Some? then Failure("Rollback process failed: " + backupFailure.value)
    else
      var ms := ToRollBack(target, state.appliedMigrations);
      var kept := Filter(state.appliedMigrations, KeptVersion(target));
      Success(ApplyDowns(ms, data).(migrationState := Some(MigrationState(target, kept, now))))
  }

  /** `rollback`. */
  method Rollback(data: MigrationData, target: string, now: Time, backupFailure: Option<string>) returns (r: Result<MigrationData, string>)
    ensures r == RollbackOutcome(data, target, now, backupFailure)
  {
    var state := GetMigrationState(data, now);
    var c := CompareVersions(target, state.currentVersion);
    if c >= 0 {
      return Failure("Rollback process failed: " + TargetNotLower);
    }
    if backupFailure.Some? {
      return Failure("Rollback process failed: " + backupFailure.value);
    }
    var ms := ToRollBack(target, state.appliedMigrations);
    var rolledBack := RunDowns(ms, data);
    var applied := Filter(state.appliedMigrations, KeptVersion(target));
    return Success(rolledBack.(migrationState := Some(MigrationState(target, applied, now))));
  }

  /** The loop of `rollback`: every `down` in turn, in the order given. */
  method RunDowns(ms: seq<Migration>, data: MigrationData) returns (rolledBack: MigrationData)
    ensures rolledBack == ApplyDowns(ms, data)
  {
    rolledBack := data;
    for i := 0 to |ms|
      invariant rolledBack == ApplyDowns(ms[..i], data)
    {
      assert ms[..i + 1][..i] == ms[..i];
      rolledBack := ms[i].down(rolledBack);
    }
    assert ms[..|ms|] == ms;
  }

  /** After a rollback the stored version is the target, every applied
      version left is at most the target, and migration is needed again
      exactly when the target is below the current version. */
  lemma RollbackLowersVersion(data: MigrationData, target: string, now: Time, backupFailure: Option<string>)
    requires RollbackOutcome(data, target, now, backupFailure).Success?
    ensures var d := RollbackOutcome(data, target, now, backupFailure).value;
      && d.migrationState.Some? && d.migrationState.value.currentVersion == target
      && VersionOrder(target, GetMigrationState(data, now).currentVersion) < 0
      && (forall v :: v in d.migrationState.value.appliedMigrations ==> VersionOrder(v, target) <= 0)
      && (NeedsMigration(d) <==> VersionOrder(target, CurrentVersion) < 0)
  {
  }

  /** A rollback to a version not below the stored one is refused. */
  lemma RollbackNeedsLowerTarget(data: MigrationData, now: Time, backupFailure: Option<string>)
    ensures RollbackOutcome(data, GetMigrationState(data, now).currentVersion, now, backupFailure)
      == Failure("Rollback process failed: " + TargetNotLower)
  {
    VersionOrderLaws(GetMigrationState(data, now).currentVersion, "", "");
  }

  // ---------------------------------------------------------------- info

  datatype MigrationInfo = MigrationInfo(
    currentVersion: string,
    targetVersion: string,
    needsMigration: bool,
    appliedMigrations: seq<string>,
    availableMigrations: seq<string>)

  /** `getMigrationInfo`. */
  function GetMigrationInfo(data: MigrationData, now: Time): (info: MigrationInfo)
    ensures info.needsMigration <==> VersionOrder(info.currentVersion, info.targetVersion) < 0
    ensures info.targetVersion == CurrentVersion
    ensures info.availableMigrations == ["1.0.0"]
    ensures info.currentVersion == GetMigrationState(data, now).currentVersion
    ensures info.appliedMigrations == GetMigrationState(data, now).appliedMigrations
  {
    var state := GetMigrationState(data, now);
    MigrationInfo(state.currentVersion, CurrentVersion, NeedsMigration(data), state.appliedMigrations,
      VersionsOf(AllMigrations))
  }
}
