/**
  The time labels of the web client (web/app/utils/time.ts), with the
  current time `now` (milliseconds since the epoch) as a parameter.
  Instants are integer milliseconds; a timestamp is absent, a plain
  number (falsy when 0) or an object — a `Date` or a Firestore
  `Timestamp` — which is always truthy.
*/
module Time {
  import opened Wrappers
  import opened Strings

  datatype Stamp = Absent | Number(ms: int) | Object(ms: int)

  predicate Falsy(t: Stamp) {
    t == Absent || t == Number(0)
  }

  function MillisOf(t: Stamp): int
    requires !t.Absent?
  {
    match t
    case Number(ms) => ms
    case Object(ms) => ms
  }

  /** The label `getRelativeTime` picks; numbers are the floored counts of whole units. */
  datatype Relative = Never | JustNow | SecondsAgo(s: nat) | MinutesAgo(m: nat) | HoursAgo(h: nat) | DaysAgo(d: nat)

  /** `Math.floor(diff / 1000)`: Dafny's division by a positive divisor already floors. */
  function ElapsedSeconds(t: Stamp, now: int): int
    requires !t.Absent?
  {
    (now - MillisOf(t)) / 1000
  }

  function RelativeOf(t: Stamp, now: int): Relative {
    if Falsy(t) then Never
    else
      var seconds := ElapsedSeconds(t, now);
      var minutes := seconds / 60;
      var hours := minutes / 60;
      var days := hours / 24;
      if seconds < 30 then JustNow
      else if seconds < 60 then SecondsAgo(seconds)
      else if minutes < 60 then MinutesAgo(minutes)
      else if hours < 24 then HoursAgo(hours)
      else DaysAgo(days)
  }

  function Render(r: Relative): string {
    match r
    case Never => "Never"
    case JustNow => "Just now"
    case SecondsAgo(s) => NatToString(s) + "s ago"
    case MinutesAgo(m) => NatToString(m) + "m ago"
    case HoursAgo(h) => NatToString(h) + "h ago"
    case DaysAgo(d) => NatToString(d) + "d ago"
  }

  /** `getRelativeTime(timestamp)`. */
  function GetRelativeTime(t: Stamp, now: int): string {
    Render(RelativeOf(t, now))
  }

  /**
    Each label covers one range of elapsed seconds, and the ranges do not
    overlap: below 30 (future times included), 30 to 59, whole minutes
    below an hour, whole hours below a day, whole days.
  */
  lemma RelativeBuckets(t: Stamp, now: int)
    requires !Falsy(t)
    ensures var s := ElapsedSeconds(t, now);
      var r := RelativeOf(t, now);
      (r == JustNow <==> s < 30) &&
      (r.SecondsAgo? <==> 30 <= s < 60) &&
      (r.MinutesAgo? <==> 60 <= s < 3600) &&
      (r.HoursAgo? <==> 3600 <= s < 86400) &&
      (r.DaysAgo? <==> 86400 <= s) &&
      r != Never
    ensures var s := ElapsedSeconds(t, now);
      var r := RelativeOf(t, now);
      (r.SecondsAgo? ==> r.s == s) &&
      (r.MinutesAgo? ==> 1 <= r.m < 60 && r.m * 60 <= s < r.m * 60 + 60) &&
      (r.HoursAgo? ==> 1 <= r.h < 24 && r.h * 3600 <= s < r.h * 3600 + 3600) &&
      (r.DaysAgo? ==> 1 <= r.d && r.d * 86400 <= s < r.d * 86400 + 86400)
  {
  }

  /** A falsy timestamp, the number 0 included, is "Never"; the object at instant 0 is not. */
  lemma NeverForFalsy(now: int)
    ensures GetRelativeTime(Absent, now) == "Never"
    ensures GetRelativeTime(Number(0), now) == "Never"
    ensures RelativeOf(Object(0), now) != Never
  {
  }

  lemma NumeralInjective(a: nat, b: nat)
    requires NatToString(a) == NatToString(b)
    ensures a == b
  {
    NatToStringRoundTrip(a);
    NatToStringRoundTrip(b);
  }

  /** Different labels read differently. */
  lemma RenderInjective(a: Relative, b: Relative)
    requires Render(a) == Render(b)
    ensures a == b
  {
    var r := Render(a);
    match a
    case Never =>
      assert r[|r| - 1] == 'r';
    case JustNow =>
      assert r[|r| - 1] == 'w';
    case SecondsAgo(n) =>
      assert r[|r| - 5] == 's' && r[|r| - 1] == 'o';
      assert Render(b)[..|r| - 5] == NatToString(n);
      NumeralInjective(n, b.s);
    case MinutesAgo(n) =>
      assert r[|r| - 5] == 'm' && r[|r| - 1] == 'o';
      assert Render(b)[..|r| - 5] == NatToString(n);
      NumeralInjective(n, b.m);
    case HoursAgo(n) =>
      assert r[|r| - 5] == 'h' && r[|r| - 1] == 'o';
      assert Render(b)[..|r| - 5] == NatToString(n);
      NumeralInjective(n, b.h);
    case DaysAgo(n) =>
      assert r[|r| - 5] == 'd' && r[|r| - 1] == 'o';
      assert Render(b)[..|r| - 5] == NatToString(n);
      NumeralInjective(n, b.d);
  }

  /** `x % y` in JavaScript: the remainder takes the sign of the dividend. */
  function JsRem(x: int, y: int): (r: int)
    requires y > 0
    ensures x >= 0 ==> 0 <= r < y
    ensures x < 0 ==> -y < r <= 0
  {
    if x >= 0 then x % y else -((-x) % y)
  }

  datatype Uptime = Unknown | Up(days: int, hours: int, minutes: int)

  const MS_PER_MINUTE := 60 * 1000
  const MS_PER_HOUR := 3600 * 1000
  const MS_PER_DAY := 3600 * 24 * 1000

  /**
    `formatUptime(bootTime)`, with the boot time in whole seconds. The
    uptime `now / 1000 - bootTime` is kept in milliseconds, where the
    floors and remainders of the source are exact.
  */
  function UptimeOf(bootTime: Option<int>, now: int): Uptime {
    if bootTime.None? || bootTime.value == 0 then Unknown
    else
      var u := now - bootTime.value * 1000;
      Up(u / MS_PER_DAY, JsRem(u, MS_PER_DAY) / MS_PER_HOUR, JsRem(u, MS_PER_HOUR) / MS_PER_MINUTE)
  }

  function FormatUptime(bootTime: Option<int>, now: int): string {
    match UptimeOf(bootTime, now)
    case Unknown => "Unknown"
    case Up(d, h, m) => IntToString(d) + "d " + IntToString(h) + "h " + IntToString(m) + "m"
  }

  /** A missing or zero boot time is "Unknown". */
  lemma UptimeUnknown(now: int)
    ensures FormatUptime(None, now) == "Unknown" && FormatUptime(Some(0), now) == "Unknown"
  {
  }

  /**
    For a boot time in the past the parts are in range and make up the
    uptime down to the minute: what is left over is under a minute.
  */
  lemma UptimeParts(bootTime: int, now: int)
    requires bootTime != 0 && now >= bootTime * 1000
    ensures var r := UptimeOf(Some(bootTime), now);
      var u := now - bootTime * 1000;
      r.Up? && r.days >= 0 && 0 <= r.hours <= 23 && 0 <= r.minutes <= 59 &&
      r.days * MS_PER_DAY + r.hours * MS_PER_HOUR + r.minutes * MS_PER_MINUTE <= u <
      r.days * MS_PER_DAY + r.hours * MS_PER_HOUR + r.minutes * MS_PER_MINUTE + MS_PER_MINUTE
  {
    var u := now - bootTime * 1000;
    var d, rd := u / MS_PER_DAY, u % MS_PER_DAY;
    var h, rh := rd / MS_PER_HOUR, rd % MS_PER_HOUR;
    var m, rm := rh / MS_PER_MINUTE, rh % MS_PER_MINUTE;
    assert u == d * 86400000 + rd && 0 <= rd < 86400000;
    assert rd == h * 3600000 + rh && 0 <= rh < 3600000;
    assert rh == m * 60000 + rm && 0 <= rm < 60000;
    assert 0 <= h <= 23 && 0 <= m <= 59;
    HourRemainder(u, d * 24 + h, rh);
    assert UptimeOf(Some(bootTime), now) == Up(d, h, m);
  }

  /** The remainder by an hour is determined by any split into whole hours and a rest. */
  lemma HourRemainder(u: int, q: int, r: int)
    requires u == q * 3600000 + r && 0 <= r < 3600000
    ensures u % MS_PER_HOUR == r
  {
    var k := u / MS_PER_HOUR - q;
    assert k * 3600000 == r - u % MS_PER_HOUR;
  }

  /** A boot time in the future (a skewed clock) gives negative days. */
  lemma UptimeFuture(bootTime: int, now: int)
    requires bootTime != 0 && now < bootTime * 1000
    ensures UptimeOf(Some(bootTime), now).days < 0
    ensures UptimeOf(Some(bootTime), now).hours <= 0 && UptimeOf(Some(bootTime), now).minutes <= 0
  {
  }
}
