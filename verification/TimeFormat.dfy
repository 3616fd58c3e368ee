/** The two formats of the `valid-until` annotation: a date, and a date-time as in section 5.6 of RFC 3339
    with capital `T` and `Z` and seconds below 60. */
module TimeFormat {
  import opened Wrappers
  import opened Calendar

  predicate IsDigit(c: char) {
    '0' <= c <= '9'
  }

  function DigitValue(c: char): int {
    c as int - '0' as int
  }

  predicate AllDigits(s: string) {
    forall i | 0 <= i < |s| :: IsDigit(s[i])
  }

  /** The decimal value of a run of digits. */
  function Value(s: string): int {
    if s == "" then 0 else 10 * Value(s[..|s| - 1]) + DigitValue(s[|s| - 1])
  }

  predicate TwoDigits(s: string, i: nat)
    requires i + 2 <= |s|
  {
    IsDigit(s[i]) && IsDigit(s[i + 1])
  }

  function Two(s: string, i: nat): int
    requires i + 2 <= |s|
  {
    10 * DigitValue(s[i]) + DigitValue(s[i + 1])
  }

  predicate DateShaped(s: string) {
    && |s| == 10 && s[4] == '-' && s[7] == '-'
    && TwoDigits(s, 0) && TwoDigits(s, 2) && TwoDigits(s, 5) && TwoDigits(s, 8)
  }

  function DateOf(s: string): Date
    requires DateShaped(s)
  {
    Date(100 * Two(s, 0) + Two(s, 2), Two(s, 5), Two(s, 8))
  }

  /** The layout 2006-01-02, with the day within its month. */
  function ParseDateOnly(s: string): Option<Date> {
    if DateShaped(s) && ValidDate(DateOf(s)) then Some(DateOf(s)) else None
  }

  predicate TimeShaped(s: string) {
    && |s| == 8 && s[2] == ':' && s[5] == ':'
    && TwoDigits(s, 0) && TwoDigits(s, 3) && TwoDigits(s, 6)
    && Two(s, 0) < 24 && Two(s, 3) < 60 && Two(s, 6) < 60
  }

  /** The second of the day of a time 15:04:05. */
  function ParseTime(s: string): Option<int> {
    if TimeShaped(s) then Some(3600 * Two(s, 0) + 60 * Two(s, 3) + Two(s, 6)) else None
  }

  /** Date and time, without fraction and zone. */
  function ParseLocal(s: string): Option<DateTime> {
    if |s| != 19 then None
    else
      var date, time := ParseDateOnly(s[..10]), ParseTime(s[11..]);
      if date.Some? && s[10] == 'T' && time.Some? then Some(DateTime(date.value, time.value)) else None
  }

  /** The length of the fraction of a second at the start of the string, its period included. */
  function FractionLength(s: string): (n: nat)
    ensures n <= |s|
  {
    if |s| >= 2 && s[0] == '.' && IsDigit(s[1]) then 1 + DigitRun(s[1..]) else 0
  }

  function DigitRun(s: string): (n: nat)
    ensures n <= |s| && AllDigits(s[..n]) && (n < |s| ==> !IsDigit(s[n]))
  {
    if s != "" && IsDigit(s[0]) then
      var n := DigitRun(s[1..]);
      assert s[..1 + n] == s[..1] + s[1..][..n];
      1 + n
    else 0
  }

  function Pow10(n: nat): int {
    if n == 0 then 1 else 10 * Pow10(n - 1)
  }

  /** Nanoseconds; digits after the ninth are cut off. */
  function FractionNanos(digits: string): int {
    if |digits| >= 9 then Value(digits[..9]) else Value(digits) * Pow10(9 - |digits|)
  }

  /** The offset from UTC in seconds: `Z`, or a sign with hours and minutes. */
  function ParseZone(s: string): Option<int> {
    if s == "Z" then Some(0)
    else if |s| == 6 && (s[0] == '+' || s[0] == '-') && s[3] == ':' && TwoDigits(s, 1) && TwoDigits(s, 4)
            && Two(s, 1) < 24 && Two(s, 4) < 60 then
      var offset := 3600 * Two(s, 1) + 60 * Two(s, 4);
      Some(if s[0] == '+' then offset else -offset)
    else None
  }

  /** What follows the seconds: the digits of a fraction, and the offset from UTC. */
  function ParseRest(s: string): Option<(string, int)> {
    var n := FractionLength(s);
    var zone := ParseZone(s[n..]);
    if zone.None? then None else Some((if n == 0 then "" else s[1..n], zone.value))
  }

  /** Local time, less what it is ahead of UTC. */
  function InstantOf(local: DateTime, digits: string, zoneSeconds: int): int {
    Instant(local) + FractionNanos(digits) - zoneSeconds * NANOS
  }

  /** The instant of a date-time. */
  function ParseRFC3339(s: string): Option<int> {
    if |s| < 20 then None
    else
      var local, rest := ParseLocal(s[..19]), ParseRest(s[19..]);
      if local.Some? && rest.Some? then Some(InstantOf(local.value, rest.value.0, rest.value.1)) else None
  }

  // ---- The two languages ----

  /** No string is in both formats. */
  lemma FormatsAreDisjoint(s: string)
    ensures ParseRFC3339(s).None? || ParseDateOnly(s).None?
  {
  }

  const EIGHT_OCLOCK := "T08:00:00Z"

  lemma EightOClock(s: string)
    requires |s| == 10
    ensures var t := s + EIGHT_OCLOCK;
            t[..19] == s + "T08:00:00" && t[19..] == "Z" && (s + "T08:00:00")[11..] == "08:00:00"
    ensures ParseTime("08:00:00") == Some(8 * 3600) && ParseRest("Z") == Some(("", 0))
  {
  }

  /** Neither the fraction of a second nor the zone has a `T` in it. */
  lemma NoTInRest(rest: string)
    requires ParseRest(rest).Some?
    ensures forall k | 0 <= k < |rest| :: rest[k] != 'T'
  {
  }

  lemma NoTInTime(s: string)
    requires ParseTime(s).Some?
    ensures forall k | 0 <= k < |s| :: s[k] != 'T'
  {
  }

  /** A date-time has one `T`, at its place. */
  lemma OneT(t: string)
    ensures ParseRFC3339(t).Some? ==> forall k | 11 <= k < |t| :: t[k] != 'T'
  {
    if ParseRFC3339(t).Some? {
      var local, rest := t[..19], t[19..];
      NoTInTime(local[11..]);
      NoTInRest(rest);
      assert forall k | 11 <= k < 19 :: t[k] == local[11..][k - 11];
      assert forall k | 19 <= k < |t| :: t[k] == rest[k - 19];
    }
  }

  /** Appending eight o'clock UTC to any string gives a date-time exactly if the string is a date, and then
      that of eight o'clock on that date. */
  lemma DateAtEight(s: string)
    ensures ParseRFC3339(s + EIGHT_OCLOCK) ==
            match ParseDateOnly(s)
            case Some(d) => Some(Instant(DateTime(d, 8 * 3600)))
            case None => None
  {
    var t := s + EIGHT_OCLOCK;
    if |s| == 10 {
      EightOClock(s);
      assert (s + "T08:00:00")[..10] == s && FractionNanos("") == 0;
    } else if |s| > 10 {
      assert t[|s|] == 'T';
      OneT(t);
    }
  }

  // ---- Printing and parsing ----

  function PrintTwo(n: int): string
    requires 0 <= n < 100
  {
    [('0' as int + n / 10) as char, ('0' as int + n % 10) as char]
  }

  function PrintDate(d: Date): string
    requires ValidDate(d) && 0 <= d.year <= 9999
  {
    PrintTwo(d.year / 100) + PrintTwo(d.year % 100) + "-" + PrintTwo(d.month) + "-" + PrintTwo(d.day)
  }

  function PrintTime(second: int): string
    requires 0 <= second < DAY_SECONDS
  {
    PrintTwo(second / 3600) + ":" + PrintTwo(second / 60 % 60) + ":" + PrintTwo(second % 60)
  }

  function PrintLocal(t: DateTime): string
    requires ValidDateTime(t) && 0 <= t.date.year <= 9999
  {
    PrintDate(t.date) + "T" + PrintTime(t.second)
  }

  /** What a string shows at a position if the two digits of a number were put there. */
  lemma TwoAt(p: string, i: nat, n: int)
    requires 0 <= n < 100 && i + 2 <= |p| && p[i..i + 2] == PrintTwo(n)
    ensures TwoDigits(p, i) && Two(p, i) == n
  {
  }

  lemma PrintedDate(d: Date)
    requires ValidDate(d) && 0 <= d.year <= 9999
    ensures ParseDateOnly(PrintDate(d)) == Some(d)
  {
  }

  lemma TwoIsInjective(a: string, b: string, i: nat)
    requires i + 2 <= |a| && i + 2 <= |b| && TwoDigits(a, i) && TwoDigits(b, i) && Two(a, i) == Two(b, i)
    ensures a[i] == b[i] && a[i + 1] == b[i + 1]
  {
  }

  /** Every date of a four-digit year is parsed from its printed form, and from nothing else. */
  lemma DateRoundTrip(d: Date, s: string)
    requires ValidDate(d) && 0 <= d.year <= 9999
    ensures ParseDateOnly(s) == Some(d) <==> s == PrintDate(d)
  {
    var p := PrintDate(d);
    PrintedDate(d);
    if ParseDateOnly(s) == Some(d) {
      assert Two(s, 0) == Two(p, 0) && Two(s, 2) == Two(p, 2);
      TwoIsInjective(s, p, 0);
      TwoIsInjective(s, p, 2);
      TwoIsInjective(s, p, 5);
      TwoIsInjective(s, p, 8);
      assert s == p;
    }
  }

  lemma HoursMinutesSeconds(second: int)
    requires 0 <= second < DAY_SECONDS
    ensures 0 <= second / 3600 < 24 && 0 <= second / 60 % 60 < 60 && 0 <= second % 60 < 60
    ensures second == 3600 * (second / 3600) + 60 * (second / 60 % 60) + second % 60
  {
  }

  lemma PrintedTime(second: int)
    requires 0 <= second < DAY_SECONDS
    ensures ParseTime(PrintTime(second)) == Some(second)
  {
    var p, h, m, s := PrintTime(second), PrintTwo(second / 3600), PrintTwo(second / 60 % 60), PrintTwo(second % 60);
    HoursMinutesSeconds(second);
    assert p == [h[0], h[1], ':', m[0], m[1], ':', s[0], s[1]];
    assert p[0..2] == h && p[3..5] == m && p[6..8] == s;
    TwoAt(p, 0, second / 3600);
    TwoAt(p, 3, second / 60 % 60);
    TwoAt(p, 6, second % 60);
  }

  // ---- The language of date-times ----

  /** `Z`, or an offset ahead of UTC or behind it. */
  datatype Zone = Utc | Offset(ahead: bool, hours: int, minutes: int)

  predicate ValidZone(z: Zone) {
    z.Utc? || (0 <= z.hours < 24 && 0 <= z.minutes < 60)
  }

  function ZoneText(z: Zone): string
    requires ValidZone(z)
  {
    if z.Utc? then "Z" else (if z.ahead then "+" else "-") + PrintTwo(z.hours) + ":" + PrintTwo(z.minutes)
  }

  /** How far local time is ahead of UTC. */
  function ZoneSeconds(z: Zone): int {
    if z.Utc? then 0 else (if z.ahead then 1 else -1) * (3600 * z.hours + 60 * z.minutes)
  }

  function FractionText(digits: string): string {
    if digits == "" then "" else "." + digits
  }

  /** The parts of a date-time. */
  datatype Parts = Parts(local: DateTime, fraction: string, zone: Zone)

  predicate ValidParts(p: Parts) {
    ValidDateTime(p.local) && 0 <= p.local.date.year <= 9999 && AllDigits(p.fraction) && ValidZone(p.zone)
  }

  function PartsText(p: Parts): string
    requires ValidParts(p)
  {
    PrintLocal(p.local) + (FractionText(p.fraction) + ZoneText(p.zone))
  }

  function PartsInstant(p: Parts): int {
    InstantOf(p.local, p.fraction, ZoneSeconds(p.zone))
  }

  lemma TwoIsPrinted(s: string, i: nat)
    requires i + 2 <= |s| && TwoDigits(s, i)
    ensures 0 <= Two(s, i) < 100 && s[i..i + 2] == PrintTwo(Two(s, i))
  {
  }

  lemma ZoneIsRead(z: Zone)
    requires ValidZone(z)
    ensures ParseZone(ZoneText(z)) == Some(ZoneSeconds(z))
    ensures !IsDigit(ZoneText(z)[0]) && ZoneText(z)[0] != '.'
  {
    if z.Offset? {
      var s, h, m := ZoneText(z), PrintTwo(z.hours), PrintTwo(z.minutes);
      assert s == [if z.ahead then '+' else '-', h[0], h[1], ':', m[0], m[1]];
      assert s[1..3] == h && s[4..6] == m;
      TwoAt(s, 1, z.hours);
      TwoAt(s, 4, z.minutes);
    }
  }

  lemma ZoneIsPrinted(s: string) returns (z: Zone)
    requires ParseZone(s).Some?
    ensures ValidZone(z) && ZoneText(z) == s && ParseZone(s) == Some(ZoneSeconds(z))
  {
    if s == "Z" {
      z := Utc;
    } else {
      TwoIsPrinted(s, 1);
      TwoIsPrinted(s, 4);
      z := Offset(s[0] == '+', Two(s, 1), Two(s, 4));
      assert s == [s[0]] + s[1..3] + [s[3]] + s[4..6];
    }
  }

  lemma {:induction false} DigitsThenOther(digits: string, rest: string)
    requires AllDigits(digits) && (rest != "" ==> !IsDigit(rest[0]))
    ensures DigitRun(digits + rest) == |digits|
  {
    if digits == "" {
      assert digits + rest == rest;
    } else {
      assert (digits + rest)[1..] == digits[1..] + rest;
      DigitsThenOther(digits[1..], rest);
    }
  }

  lemma FractionIsRead(digits: string, zone: string)
    requires AllDigits(digits) && zone != "" && !IsDigit(zone[0]) && zone[0] != '.'
    ensures FractionLength(FractionText(digits) + zone) == |FractionText(digits)|
  {
    if digits == "" {
      assert FractionText(digits) + zone == zone;
    } else {
      var s := FractionText(digits) + zone;
      assert s[1..] == digits + zone;
      DigitsThenOther(digits, zone);
    }
  }

  lemma FractionIsPrinted(s: string)
    ensures var n := FractionLength(s);
            && AllDigits(if n == 0 then "" else s[1..n])
            && s[..n] == FractionText(if n == 0 then "" else s[1..n])
  {
    var n := FractionLength(s);
    if n > 0 {
      assert s[1..][..n - 1] == s[1..n] && s[..n] == [s[0]] + s[1..n];
    }
  }

  lemma TimeParts(h: int, m: int, s: int)
    requires 0 <= h < 24 && 0 <= m < 60 && 0 <= s < 60
    ensures var t := 3600 * h + 60 * m + s;
            0 <= t < DAY_SECONDS && t / 3600 == h && t / 60 % 60 == m && t % 60 == s
  {
    assert (3600 * h + 60 * m + s) / 60 == 60 * h + m;
  }

  lemma TimeIsPrinted(s: string)
    requires ParseTime(s).Some?
    ensures 0 <= ParseTime(s).value < DAY_SECONDS && PrintTime(ParseTime(s).value) == s
  {
    var h, m, x, t := Two(s, 0), Two(s, 3), Two(s, 6), ParseTime(s).value;
    TwoIsPrinted(s, 0);
    TwoIsPrinted(s, 3);
    TwoIsPrinted(s, 6);
    TimeParts(h, m, x);
    assert s == s[0..2] + [s[2]] + s[3..5] + [s[5]] + s[6..8];
  }

  lemma DateIsPrinted(s: string)
    requires ParseDateOnly(s).Some?
    ensures var d := ParseDateOnly(s).value; ValidDate(d) && 0 <= d.year <= 9999 && PrintDate(d) == s
  {
    DateRoundTrip(DateOf(s), s);
  }

  lemma LocalIsRead(t: DateTime)
    requires ValidDateTime(t) && 0 <= t.date.year <= 9999
    ensures |PrintLocal(t)| == 19 && ParseLocal(PrintLocal(t)) == Some(t)
  {
    var s, date, time := PrintLocal(t), PrintDate(t.date), PrintTime(t.second);
    DateRoundTrip(t.date, date);
    PrintedTime(t.second);
    assert s == date + "T" + time && |date| == 10 && |time| == 8;
    assert s[..10] == date && s[11..] == time && s[10] == 'T';
  }

  lemma LocalIsPrinted(s: string)
    requires ParseLocal(s).Some?
    ensures var t := ParseLocal(s).value;
            ValidDateTime(t) && 0 <= t.date.year <= 9999 && PrintLocal(t) == s
  {
    DateIsPrinted(s[..10]);
    TimeIsPrinted(s[11..]);
    assert s == s[..10] + [s[10]] + s[11..];
  }

  /** The fraction and the zone of a text. */
  lemma RestIsRead(digits: string, z: Zone)
    requires AllDigits(digits) && ValidZone(z)
    ensures ParseRest(FractionText(digits) + ZoneText(z)) == Some((digits, ZoneSeconds(z)))
  {
    var zone, fraction := ZoneText(z), FractionText(digits);
    ZoneIsRead(z);
    FractionIsRead(digits, zone);
    assert (fraction + zone)[|fraction|..] == zone;
    assert digits != "" ==> (fraction + zone)[1..|fraction|] == digits;
  }

  lemma RestIsPrinted(rest: string) returns (fraction: string, zone: Zone)
    requires ParseRest(rest).Some?
    ensures AllDigits(fraction) && ValidZone(zone) && rest == FractionText(fraction) + ZoneText(zone)
    ensures ParseRest(rest) == Some((fraction, ZoneSeconds(zone)))
  {
    var n := FractionLength(rest);
    zone := ZoneIsPrinted(rest[n..]);
    FractionIsPrinted(rest);
    fraction := if n == 0 then "" else rest[1..n];
    assert rest == rest[..n] + rest[n..];
  }

  /** Every text of a date-time is read as the instant its parts mean. */
  lemma PartsAreRead(p: Parts)
    requires ValidParts(p)
    ensures ParseRFC3339(PartsText(p)) == Some(PartsInstant(p))
  {
    var s, local, rest := PartsText(p), PrintLocal(p.local), FractionText(p.fraction) + ZoneText(p.zone);
    LocalIsRead(p.local);
    RestIsRead(p.fraction, p.zone);
    assert s[..19] == local && s[19..] == rest && rest != "";
  }

  /** And nothing else is read. */
  lemma OnlyPartsAreRead(s: string) returns (p: Parts)
    requires ParseRFC3339(s).Some?
    ensures ValidParts(p) && PartsText(p) == s && ParseRFC3339(s) == Some(PartsInstant(p))
  {
    var fraction, zone := RestIsPrinted(s[19..]);
    LocalIsPrinted(s[..19]);
    p := Parts(ParseLocal(s[..19]).value, fraction, zone);
    assert s == s[..19] + s[19..];
  }

  /** The date-times of RFC 3339: a string is one exactly if it is the text of valid parts, which then say its
      instant. */
  lemma DateTimeLanguage(s: string, v: int)
    ensures ParseRFC3339(s) == Some(v) <==> exists p :: ValidParts(p) && PartsText(p) == s && PartsInstant(p) == v
  {
    if ParseRFC3339(s) == Some(v) {
      var p := OnlyPartsAreRead(s);
    }
    if p :| ValidParts(p) && PartsText(p) == s && PartsInstant(p) == v {
      PartsAreRead(p);
    }
  }

  /** In particular every civil time of a four-digit year is read from its printed form in UTC. */
  lemma DateTimeRoundTrip(t: DateTime)
    requires ValidDateTime(t) && 0 <= t.date.year <= 9999
    ensures ParseRFC3339(PrintLocal(t) + "Z") == Some(Instant(t))
  {
    var p := Parts(t, "", Utc);
    PartsAreRead(p);
    NothingAdded(t);
  }

  lemma NothingAdded(t: DateTime)
    ensures FractionText("") + ZoneText(Utc) == "Z" && InstantOf(t, "", 0) == Instant(t)
  {
    assert Value("") == 0;
  }

  /** Nine digits after the period are nanoseconds; zeros at the end change nothing, and digits after the ninth count
      for nothing. */
  lemma FractionMeans(digits: string)
    ensures |digits| == 9 ==> FractionNanos(digits) == Value(digits)
    ensures |digits| < 9 ==> FractionNanos(digits) == FractionNanos(digits + "0")
    ensures |digits| > 9 ==> FractionNanos(digits) == FractionNanos(digits[..9])
  {
    if |digits| == 9 {
      assert digits[..9] == digits;
    } else if |digits| < 9 {
      FractionPadded(digits);
    } else {
      assert digits[..9][..9] == digits[..9];
    }
  }

  lemma FractionPadded(digits: string)
    requires |digits| < 9
    ensures FractionNanos(digits) == FractionNanos(digits + "0")
  {
    var longer := digits + "0";
    ZeroAtTheEnd(digits);
    if |digits| == 8 {
      assert longer[..9] == longer;
      assert Pow10(1) == 10 * Pow10(0) == 10;
    } else {
      TenTimes(Value(digits), 8 - |digits|);
    }
  }

  lemma ZeroAtTheEnd(digits: string)
    ensures Value(digits + "0") == 10 * Value(digits)
  {
    var longer := digits + "0";
    assert longer[..|longer| - 1] == digits && longer[|longer| - 1] == '0';
  }

  lemma TenTimes(a: int, n: nat)
    ensures a * Pow10(n + 1) == 10 * a * Pow10(n)
  {
    assert Pow10(n + 1) == 10 * Pow10(n);
    Regroup(a, Pow10(n));
  }

  lemma Regroup(a: int, b: int)
    ensures a * (10 * b) == 10 * a * b
  {
  }

  // ---- Order ----

  /** Strings in the order of their first difference. */
  predicate Before(a: string, b: string)
    requires |a| == |b|
  {
    exists i | 0 <= i < |a| :: a[..i] == b[..i] && a[i] < b[i]
  }

  lemma BeforeIsTotal(a: string, b: string)
    requires |a| == |b| && a != b
    ensures Before(a, b) || Before(b, a)
    decreases |a|
  {
    var n := |a| - 1;
    if a[..n] == b[..n] {
      assert a == a[..n] + [a[n]] && b == b[..n] + [b[n]];
    } else {
      BeforeIsTotal(a[..n], b[..n]);
      if Before(a[..n], b[..n]) {
        var i :| 0 <= i < n && a[..n][..i] == b[..n][..i] && a[..n][i] < b[..n][i];
        assert a[..i] == a[..n][..i] && b[..i] == b[..n][..i];
      } else {
        var i :| 0 <= i < n && b[..n][..i] == a[..n][..i] && b[..n][i] < a[..n][i];
        assert a[..i] == a[..n][..i] && b[..i] == b[..n][..i];
      }
    }
  }

  lemma BeforeIsDateLess(a: string, b: string)
    requires DateShaped(a) && DateShaped(b) && Before(a, b)
    ensures DateLess(DateOf(a), DateOf(b))
  {
    var i :| 0 <= i < 10 && a[..i] == b[..i] && a[i] < b[i];
    assert forall j | 0 <= j < i :: a[j] == a[..i][j] && b[j] == b[..i][j];
  }

  /** Date annotations sort as text exactly like the instants they stand for. */
  lemma DatesSortLikeInstants(a: string, b: string)
    requires ParseDateOnly(a).Some? && ParseDateOnly(b).Some?
    ensures Before(a, b) <==>
            Instant(DateTime(ParseDateOnly(a).value, 8 * 3600)) < Instant(DateTime(ParseDateOnly(b).value, 8 * 3600))
  {
    var da, db := DateOf(a), DateOf(b);
    DayNumberIsMonotone(da, db);
    DayNumberIsMonotone(db, da);
    if Before(a, b) {
      BeforeIsDateLess(a, b);
    } else if a != b {
      BeforeIsTotal(a, b);
      BeforeIsDateLess(b, a);
    }
  }
}
