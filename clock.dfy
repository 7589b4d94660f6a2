/** Civil time in Asia/Manila (UTC+08:00 all year, no daylight saving) over UTC instants.
    Instants are milliseconds since the Unix epoch, as JavaScript `Date` values are.
    The server that runs the handler keeps its own clock zone at UTC. */
module Clock {

  const SecondMs: int := 1000
  const HourMs: int := 3_600_000
  const DayMs: int := 86_400_000
  const ManilaOffsetMs: int := 28_800_000

  /** A Manila calendar day (days since 1970-01-01) and an hour of that day. */
  datatype CivilTime = CivilTime(day: int, hour: int)

  /** The UTC instant at which Manila day `day` begins. */
  function ManilaMidnight(day: int): int {
    day * DayMs - ManilaOffsetMs
  }

  /** The UTC instant at which hour `hour` of Manila day `day` begins. */
  function ManilaInstant(day: int, hour: int): int {
    ManilaMidnight(day) + hour * HourMs
  }

  /** The Manila day and hour that contain instant `t`. */
  function ManilaCivil(t: int): (c: CivilTime)
    ensures 0 <= c.hour < 24
    ensures ManilaInstant(c.day, c.hour) <= t < ManilaInstant(c.day, c.hour) + HourMs
  {
    var w := t + ManilaOffsetMs;
    CivilTime(w / DayMs, (w % DayMs) / HourMs)
  }

  /** Every instant within an hour of Manila civil time reads back as that hour. */
  lemma ManilaCivilOfInstant(day: int, hour: int, t: int)
    requires 0 <= hour < 24
    requires ManilaInstant(day, hour) <= t < ManilaInstant(day, hour) + HourMs
    ensures ManilaCivil(t) == CivilTime(day, hour)
  {
    var c := ManilaCivil(t);
    var a := 24 * day + hour;
    var b := 24 * c.day + c.hour;
    assert ManilaInstant(day, hour) == a * HourMs - ManilaOffsetMs;
    assert ManilaInstant(c.day, c.hour) == b * HourMs - ManilaOffsetMs;
  }

  /** Manila midnights of distinct days are distinct instants. */
  lemma ManilaMidnightInjective(d1: int, d2: int)
    requires ManilaMidnight(d1) == ManilaMidnight(d2)
    ensures d1 == d2
  {
  }

  // ---- The handler's own arithmetic (src/pages/api/do-election-processing.tsx) ----

  /** `new Date(now.toLocaleString("en-US", {timeZone: "Asia/Manila"}))` on a UTC server:
      a `Date` whose UTC fields show Manila wall-clock time, cut to whole seconds. */
  function WallClock(now: int): int {
    ((now + ManilaOffsetMs) / SecondMs) * SecondMs
  }

  /** `d.setHours(0, 0, 0, 0)` on a UTC server. */
  function LocalMidnight(w: int): int {
    (w / DayMs) * DayMs
  }

  /** `d.setHours(h)` on a UTC server: the hour field becomes `h`; minutes, seconds and
      milliseconds are kept; an `h` outside 0..23 rolls over into neighbouring days. */
  function SetHours(w: int, h: int): int {
    LocalMidnight(w) + h * HourMs + w % HourMs
  }

  /** The date the handler queries for: wall-clock midnight shifted back eight hours. */
  function QueryDate(now: int): int {
    var midnight := LocalMidnight(WallClock(now));
    SetHours(midnight, (midnight % DayMs) / HourMs - 8)
  }

  /** The hour the handler queries for: `getHours()` of the wall-clock `Date`. */
  function QueryHour(now: int): int {
    (WallClock(now) % DayMs) / HourMs
  }

  /** Cutting an instant to whole seconds keeps its day and its hour. */
  lemma TruncateKeepsHour(x: int)
    ensures ((x / SecondMs) * SecondMs) / DayMs == x / DayMs
    ensures (((x / SecondMs) * SecondMs) % DayMs) / HourMs == (x % DayMs) / HourMs
  {
    var y := x / SecondMs;
    var q := x / DayMs;
    var z := y * SecondMs;
    assert q * DayMs <= x < q * DayMs + DayMs;
    assert x - SecondMs < z <= x;
    assert q * 86400 <= y by {
      assert q * 86400 * SecondMs <= x < y * SecondMs + SecondMs;
    }
    assert q * DayMs <= z;
    assert z / DayMs == q;
    var hx := (x - q * DayMs) / HourMs;
    assert hx * HourMs <= x - q * DayMs < hx * HourMs + HourMs;
    assert hx * 3600 <= y - q * 86400 by {
      assert hx * 3600 * SecondMs <= x - q * DayMs < (y - q * 86400) * SecondMs + SecondMs;
    }
    assert z % DayMs == z - q * DayMs;
    assert x % DayMs == x - q * DayMs;
  }

  /** The handler's shifted midnight is the UTC instant at which the current Manila day began,
      and its hour is the current Manila hour: the query matches on Manila civil time. */
  lemma QueryIsManilaCivil(now: int)
    ensures QueryDate(now) == ManilaMidnight(ManilaCivil(now).day)
    ensures QueryHour(now) == ManilaCivil(now).hour
  {
    TruncateKeepsHour(now + ManilaOffsetMs);
  }
}
