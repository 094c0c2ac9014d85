/** ECMAScript time values and their ISO-8601 text form.

    A time value counts milliseconds since 1970-01-01T00:00:00Z and lies
    within 8.64e15 ms of it (section 21.4.1 of ECMA-262). `toISOString`
    writes it as `YYYY-MM-DDTHH:mm:ss.sssZ`, with a signed six-digit year
    outside 0000..9999; `new Date(string)` reads that form (and the date-only
    form `YYYY-MM-DD`, taken as UTC midnight) back, giving NaN for text it
    does not accept. */
module IsoTime {
  import opened Wrappers
  import opened Text

  const MsPerDay: int := 86400000
  const MaxTime: int := 8640000000000000

  /** A time value that is not NaN. */
  type Time = t: int | -MaxTime <= t <= MaxTime

  /** A proleptic Gregorian calendar date. */
  datatype Civil = Civil(year: int, month: int, day: int)

  /** Days from 1970-01-01 to the given date (H. Hinnant's days_from_civil). */
  function DaysFromCivil(c: Civil): int
  {
    var y := if c.month <= 2 then c.year - 1 else c.year;
    var era := y / 400;
    var yoe := y - era * 400;
    var mp := if c.month > 2 then c.month - 3 else c.month + 9;
    var doy := (153 * mp + 2) / 5 + c.day - 1;
    var doe := yoe * 365 + yoe / 4 - yoe / 100 + doy;
    era * 146097 + doe - 719468
  }

  /** Splits a day of a 400-year era into the year of the era and the day of
      that year, years counted from March 1. */
  function SplitEra(doe: int): (r: (int, int))
    requires 0 <= doe < 146097
    ensures 0 <= r.0 <= 399 && 0 <= r.1 <= 365
    ensures doe == 365 * r.0 + r.0 / 4 - r.0 / 100 + r.1
  {
    var c := if doe / 36524 < 3 then doe / 36524 else 3;
    var rc := doe - 36524 * c;
    var q := rc / 1461;
    var rq := rc - 1461 * q;
    var y4 := if rq / 365 < 3 then rq / 365 else 3;
    var yoe := 100 * c + 4 * q + y4;
    assert 0 <= q <= 24;
    assert yoe / 4 == 25 * c + q;
    assert yoe / 100 == c;
    (yoe, rq - 365 * y4)
  }

  /** The calendar date of a day number: the inverse of `DaysFromCivil`. */
  function CivilFromDays(z: int): (c: Civil)
    ensures 1 <= c.month <= 12 && 1 <= c.day <= 31
    ensures DaysFromCivil(c) == z
    ensures -100000000 <= z <= 100000000 ==> -300000 < c.year < 300000
  {
    var z2 := z + 719468;
    var era := z2 / 146097;
    var doe := z2 % 146097;
    var (yoe, doy) := SplitEra(doe);
    var mp := (5 * doy + 2) / 153;
    var d := doy - (153 * mp + 2) / 5 + 1;
    var m := if mp < 10 then mp + 3 else mp - 9;
    var y := yoe + era * 400;
    var c := Civil(if m <= 2 then y + 1 else y, m, d);
    assert (if c.month <= 2 then c.year - 1 else c.year) == y;
    assert y / 400 == era;
    assert -100000000 <= z <= 100000000 ==> -700 <= era <= 700;
    c
  }

  /** The calendar and clock fields of a time value, in UTC. */
  datatype Fields = Fields(date: Civil, hour: int, minute: int, second: int, ms: int)

  predicate ValidFields(f: Fields)
  {
    && -1000000 < f.date.year < 1000000
    && 1 <= f.date.month <= 12 && 1 <= f.date.day <= 31
    && 0 <= f.hour < 24 && 0 <= f.minute < 60 && 0 <= f.second < 60 && 0 <= f.ms < 1000
  }

  /** The time value the fields denote (MakeDate of MakeDay and MakeTime). */
  function FieldsToTime(f: Fields): int
  {
    DaysFromCivil(f.date) * MsPerDay + f.hour * 3600000 + f.minute * 60000 + f.second * 1000 + f.ms
  }

  function TimeToFields(t: Time): (f: Fields)
    ensures ValidFields(f)
    ensures FieldsToTime(f) == t
  {
    var days := t / MsPerDay;
    var inDay := t % MsPerDay;
    assert -100000000 <= days <= 100000000;
    var date := CivilFromDays(days);
    var hour := inDay / 3600000;
    var r1 := inDay % 3600000;
    var minute := r1 / 60000;
    var r2 := r1 % 60000;
    var f := Fields(date, hour, minute, r2 / 1000, r2 % 1000);
    assert inDay == hour * 3600000 + minute * 60000 + f.second * 1000 + f.ms;
    f
  }

  /** The year as `toISOString` writes it. */
  function YearText(y: int): (r: string)
    requires -1000000 < y < 1000000
    ensures |r| == if 0 <= y <= 9999 then 4 else 7
  {
    if 0 <= y <= 9999 then PadDigits(y, 4)
    else if y > 9999 then "+" + PadDigits(y, 6)
    else "-" + PadDigits(-y, 6)
  }

  /** `-MM-DD`. */
  function DateTail(month: nat, day: nat): (r: string)
    requires month < 100 && day < 100
    ensures |r| == 6
  {
    "-" + PadDigits(month, 2) + "-" + PadDigits(day, 2)
  }

  /** `THH:mm:ss.sssZ`. */
  function ClockText(hour: nat, minute: nat, second: nat, ms: nat): (r: string)
    requires hour < 100 && minute < 100 && second < 100 && ms < 1000
    ensures |r| == 14
  {
    "T" + PadDigits(hour, 2) + ":" + PadDigits(minute, 2) + ":" + PadDigits(second, 2) + "." + PadDigits(ms, 3) + "Z"
  }

  /** `Date.prototype.toISOString`. */
  function ToIsoString(t: Time): (r: string)
    ensures |r| == 24 || |r| == 27
  {
    var f := TimeToFields(t);
    YearText(f.date.year) + DateTail(f.date.month, f.date.day) + ClockText(f.hour, f.minute, f.second, f.ms)
  }

  /** Reads a year: four digits, or a sign and six digits; "-000000" is refused. */
  function ParseYear(s: string): (r: Option<int>)
    ensures r.Some? ==> -1000000 < r.value < 1000000
  {
    if |s| == 4 && AllDigits(s) then
      DigitsBound(s);
      assert Pow10(4) == 10000;
      Some(DigitsValue(s))
    else if |s| == 7 && (s[0] == '+' || s[0] == '-') && AllDigits(s[1..]) then
      var v: int := DigitsValue(s[1..]);
      DigitsBound(s[1..]);
      assert Pow10(6) == 1000000;
      if s[0] == '-' && v == 0 then None
      else if s[0] == '-' then Some(-v) else Some(v)
    else None
  }

  lemma {:induction false} DigitsBound(s: string)
    requires AllDigits(s)
    ensures DigitsValue(s) < Pow10(|s|)
  {
    if s != [] {
      DigitsBound(s[..|s| - 1]);
    }
  }

  /** Reads `-MM-DD` into a month and a day. */
  function ParseDateTail(s: string): Option<(int, int)>
  {
    if |s| == 6 && s[0] == '-' && s[3] == '-' && AllDigits(s[1..3]) && AllDigits(s[4..6]) then
      var month := DigitsValue(s[1..3]);
      var day := DigitsValue(s[4..6]);
      if 1 <= month <= 12 && 1 <= day <= 31 then Some((month, day)) else None
    else None
  }

  /** Reads `THH:mm:ss.sssZ` into milliseconds since midnight. */
  function ParseClock(s: string): (r: Option<int>)
    ensures r.Some? ==> 0 <= r.value < MsPerDay
  {
    if |s| == 14 && s[0] == 'T' && s[3] == ':' && s[6] == ':' && s[9] == '.' && s[13] == 'Z'
      && AllDigits(s[1..3]) && AllDigits(s[4..6]) && AllDigits(s[7..9]) && AllDigits(s[10..13])
    then
      var hour := DigitsValue(s[1..3]);
      var minute := DigitsValue(s[4..6]);
      var second := DigitsValue(s[7..9]);
      var ms := DigitsValue(s[10..13]);
      DigitsBound(s[10..13]);
      if hour < 24 && minute < 60 && second < 60 then
        Some(hour * 3600000 + minute * 60000 + second * 1000 + ms)
      else None
    else None
  }

  /** The length of the year field that `s` starts with. */
  function YearLength(s: string): nat
  {
    if |s| > 0 && (s[0] == '+' || s[0] == '-') then 7 else 4
  }

  /** `new Date(s)` for the date-time form `toISOString` writes and the
      date-only form; `None` is NaN. */
  function ParseIso(s: string): (r: Option<Time>)
  {
    var n := YearLength(s);
    if |s| != n + 6 && |s| != n + 20 then None
    else
      match (ParseYear(s[..n]), ParseDateTail(s[n..n + 6]))
      case (Some(year), Some((month, day))) =>
        var inDay := if |s| == n + 6 then Some(0) else ParseClock(s[n + 6..]);
        if inDay.None? then None
        else
          var t := DaysFromCivil(Civil(year, month, day)) * MsPerDay + inDay.value;
          if -MaxTime <= t <= MaxTime then Some(t) else None
      case _ => None
  }

  lemma {:induction false} YearRoundTrip(y: int)
    requires -1000000 < y < 1000000
    ensures YearLength(YearText(y) + "-") == |YearText(y)|
    ensures ParseYear(YearText(y)) == Some(y)
  {
    var s := YearText(y);
    if 0 <= y <= 9999 {
      assert IsDigit(s[0]);
    } else {
      assert s[1..] == PadDigits(if y > 0 then y else -y, 6);
    }
  }

  lemma DateTailRoundTrip(month: nat, day: nat)
    requires 1 <= month <= 12 && 1 <= day <= 31
    ensures ParseDateTail(DateTail(month, day)) == Some((month, day))
  {
    var s := DateTail(month, day);
    assert s[1..3] == PadDigits(month, 2);
    assert s[4..6] == PadDigits(day, 2);
  }

  lemma ClockRoundTrip(hour: nat, minute: nat, second: nat, ms: nat)
    requires hour < 24 && minute < 60 && second < 60 && ms < 1000
    ensures ParseClock(ClockText(hour, minute, second, ms)) == Some(hour * 3600000 + minute * 60000 + second * 1000 + ms)
  {
    var s := ClockText(hour, minute, second, ms);
    assert s[1..3] == PadDigits(hour, 2);
    assert s[4..6] == PadDigits(minute, 2);
    assert s[7..9] == PadDigits(second, 2);
    assert s[10..13] == PadDigits(ms, 3);
  }

  lemma Split3(a: string, b: string, c: string)
    ensures (a + b + c)[..|a|] == a
    ensures (a + b + c)[|a|..|a| + |b|] == b
    ensures (a + b + c)[|a| + |b|..] == c
  {
  }

  /** `ParseIso` on a year, a date tail and a clock it reads. */
  lemma ParseIsoParts(y: string, dt: string, ck: string, date: Civil, inDay: int, t: int)
    requires YearLength(y + "-") == |y| && ParseYear(y) == Some(date.year)
    requires ParseDateTail(dt) == Some((date.month, date.day)) && |dt| == 6
    requires ParseClock(ck) == Some(inDay) && |ck| == 14
    requires t == DaysFromCivil(date) * MsPerDay + inDay && -MaxTime <= t <= MaxTime
    ensures ParseIso(y + dt + ck) == Some(t)
  {
    var s := y + dt + ck;
    assert YearLength(s) == |y| by {
      assert s[0] == (y + "-")[0];
    }
    Split3(y, dt, ck);
    assert Civil(date.year, date.month, date.day) == date;
  }

  /** The text `toISOString` writes for a date and a clock reads back as
      the time value they denote. */
  lemma FieldsRoundTrip(date: Civil, hour: nat, minute: nat, second: nat, ms: nat, t: int)
    requires -1000000 < date.year < 1000000 && 1 <= date.month <= 12 && 1 <= date.day <= 31
    requires hour < 24 && minute < 60 && second < 60 && ms < 1000
    requires t == DaysFromCivil(date) * MsPerDay + (hour * 3600000 + minute * 60000 + second * 1000 + ms)
    requires -MaxTime <= t <= MaxTime
    ensures ParseIso(YearText(date.year) + DateTail(date.month, date.day) + ClockText(hour, minute, second, ms)) == Some(t)
  {
    YearRoundTrip(date.year);
    DateTailRoundTrip(date.month, date.day);
    ClockRoundTrip(hour, minute, second, ms);
    ParseIsoParts(YearText(date.year), DateTail(date.month, date.day), ClockText(hour, minute, second, ms),
      date, hour * 3600000 + minute * 60000 + second * 1000 + ms, t);
  }

  /** Reading back what `toISOString` wrote gives the same time value:
      dates survive a text round trip at millisecond precision. */
  lemma IsoRoundTrip(t: Time)
    ensures ParseIso(ToIsoString(t)) == Some(t)
  {
    var f := TimeToFields(t);
    FieldsRoundTrip(f.date, f.hour, f.minute, f.second, f.ms, t);
  }

  /** `s.split(sep)[0]`: the text before the first `sep`, or all of `s`. */
  function SplitHead(s: string, sep: char): (r: string)
    ensures |r| <= |s| && r == s[..|r|] && sep !in r
  {
    if s == [] || s[0] == sep then [] else [s[0]] + SplitHead(s[1..], sep)
  }

  lemma {:induction false} SplitHeadAt(a: string, b: string, sep: char)
    requires sep !in a && b != [] && b[0] == sep
    ensures SplitHead(a + b, sep) == a
    decreases |a|
  {
    if a == [] {
      assert a + b == b;
    } else {
      assert (a + b)[1..] == a[1..] + b;
      SplitHeadAt(a[1..], b, sep);
    }
  }

  /** `ParseIso` on a year and a date tail it reads. */
  lemma ParseDateParts(y: string, dt: string, year: int, month: int, day: int)
    requires YearLength(y + "-") == |y| && ParseYear(y) == Some(year)
    requires ParseDateTail(dt) == Some((month, day)) && |dt| == 6
    requires -MaxTime <= DaysFromCivil(Civil(year, month, day)) * MsPerDay <= MaxTime
    ensures ParseIso(y + dt) == Some(DaysFromCivil(Civil(year, month, day)) * MsPerDay)
  {
    var s := y + dt;
    assert YearLength(s) == |y| by {
      assert s[0] == (y + "-")[0];
    }
    assert s[..|y|] == y && s[|y|..|y| + 6] == dt;
  }

  /** The year and the date tail hold no `T`. */
  lemma NoClockMark(year: int, month: nat, day: nat)
    requires -1000000 < year < 1000000 && month < 100 && day < 100
    ensures 'T' !in YearText(year) + DateTail(month, day)
  {
    var y := YearText(year);
    var dt := DateTail(month, day);
    assert forall i :: 0 <= i < |y| ==> y[i] == '+' || y[i] == '-' || IsDigit(y[i]);
    assert forall i :: 0 <= i < |dt| ==> dt[i] == '-' || IsDigit(dt[i]);
  }

  /** The date part of an ISO string (`toISOString().split('T')[0]`) reads
      back as UTC midnight of the same day. */
  lemma DateOnlyRoundTrip(t: Time)
    ensures ParseIso(SplitHead(ToIsoString(t), 'T')) == Some(t - t % MsPerDay)
  {
    var f := TimeToFields(t);
    var y := YearText(f.date.year);
    var dt := DateTail(f.date.month, f.date.day);
    var ck := ClockText(f.hour, f.minute, f.second, f.ms);
    assert ToIsoString(t) == (y + dt) + ck;
    NoClockMark(f.date.year, f.date.month, f.date.day);
    SplitHeadAt(y + dt, ck, 'T');
    YearRoundTrip(f.date.year);
    DateTailRoundTrip(f.date.month, f.date.day);
    var d := t / MsPerDay;
    assert t - t % MsPerDay == d * MsPerDay;
    assert DaysFromCivil(f.date) == d;
    assert -100000000 <= d <= 100000000;
    ParseDateParts(y, dt, f.date.year, f.date.month, f.date.day);
  }

  /** `Math.ceil(a / b)` for a positive divisor. */
  function CeilDiv(a: int, b: int): (q: int)
    requires b > 0
    ensures q * b >= a && (q - 1) * b < a
  {
    var f := (-a) / b;
    assert -a == f * b + (-a) % b;
    -f
  }
}
