/** Time, labels and displayed state shared by every copy of the bell timer.
    A wall-clock instant is a weekday and the milliseconds since local
    midnight; a schedule time `"h:mm"` becomes the offset that
    `setHours(h, mm, 0, 0)` gives from today's midnight (daylight-saving
    shifts are not modelled). */
module Timing {
  import opened JsText

  const SecondMs: int := 1000
  const MinuteMs: int := 60000
  const HourMs: int := 3600000
  const DayMs: int := 86400000

  datatype Option<T> = None | Some(value: T)

  /** A label that JavaScript may hold as a string or as `undefined`. */
  datatype Label = Text(text: string) | Undefined

  /** How a label reads inside a template string. */
  function Render(l: Label): string
  {
    match l
    case Text(t) => t
    case Undefined => "undefined"
  }

  /** `new Date()`: `weekday` is `getDay()` (0 = Sunday), `ms` the time of day. */
  datatype Instant = Instant(weekday: int, ms: int)
  {
    predicate Valid()
    {
      0 <= weekday < 7 && 0 <= ms < DayMs
    }

    /** `getHours()` */
    function Hours(): int
    {
      ms / HourMs
    }

    /** `getMinutes()` */
    function Minutes(): int
    {
      (ms % HourMs) / MinuteMs
    }
  }

  /** Monday to Friday. */
  predicate IsSchoolDay(weekday: int)
  {
    1 <= weekday <= 5
  }

  /** The weekday `days` days after `weekday`. */
  function DayAfter(weekday: int, days: int): int
  {
    (weekday + days) % 7
  }

  /** Days from today to the morning `calculateTimeUntilNextSchoolDay` counts
      to: tomorrow, moved on to Monday when tomorrow is a weekend day. */
  function DaysAhead(weekday: int): int
  {
    var tomorrow := (weekday + 1) % 7;
    if tomorrow == 0 then 2 else if tomorrow == 6 then 3 else 1
  }

  /** A schedule time string already split at its colon: the hour digits, the
      minute digits and whatever text follows them (such as " PM"). */
  datatype ClockText = ClockText(hour: nat, minute: nat, suffix: string)

  /** Milliseconds after today's midnight of `setHours(h, m, 0, 0)`. */
  function AtHourMinute(h: int, m: int): int
  {
    h * HourMs + m * MinuteMs
  }

  /** JavaScript's `%`: truncating division, so the remainder takes the
      dividend's sign. */
  function JsRem(a: int, b: int): (r: int)
    requires b > 0
    ensures a >= 0 ==> r == a % b
    ensures -b < r < b
  {
    if a >= 0 then a % b else -((-a) % b)
  }

  datatype Hms = Hms(h: int, m: int, s: int)

  /** `setTimeValues` / `updateCountdown`: hours, minutes and seconds of a
      duration, each by `Math.floor` of a quotient and JavaScript `%`. */
  function Split(ms: int): Hms
  {
    Hms(ms / HourMs, JsRem(ms, HourMs) / MinuteMs, JsRem(ms, MinuteMs) / SecondMs)
  }

  /** The duration a triple of hours, minutes and seconds stands for. */
  function Join(t: Hms): int
  {
    t.h * HourMs + t.m * MinuteMs + t.s * SecondMs
  }

  lemma ModOfHour(ms: nat)
    ensures (ms % HourMs) % MinuteMs == ms % MinuteMs
    ensures ms % HourMs == (ms % HourMs) / MinuteMs * MinuteMs + ms % MinuteMs
  {
    var q := ms / HourMs;
    var r := ms % HourMs;
    assert ms == q * HourMs + r;
    assert q * HourMs == (q * 60) * MinuteMs;
    var r2 := r % MinuteMs;
    assert r == r / MinuteMs * MinuteMs + r2;
    assert ms == (q * 60 + r / MinuteMs) * MinuteMs + r2;
    assert ms % MinuteMs == r2;
  }

  /** A non-negative duration splits into whole hours, minutes below 60 and
      seconds below 60 that add up to it, to within the dropped milliseconds. */
  lemma SplitBounds(ms: int)
    requires ms >= 0
    ensures var t := Split(ms);
      t.h >= 0 && 0 <= t.m < 60 && 0 <= t.s < 60 && Join(t) <= ms < Join(t) + SecondMs
  {
    ModOfHour(ms);
    var t := Split(ms);
    assert ms == t.h * HourMs + ms % HourMs;
    assert ms % MinuteMs == t.s * SecondMs + (ms % MinuteMs) % SecondMs;
  }

  /** Splitting is the inverse of joining: a triple in range comes back
      unchanged from the duration it stands for, plus any sub-second rest. */
  lemma SplitJoin(t: Hms, rest: int)
    requires t.h >= 0 && 0 <= t.m < 60 && 0 <= t.s < 60 && 0 <= rest < SecondMs
    ensures Split(Join(t) + rest) == t
  {
    var ms := Join(t) + rest;
    var low := t.m * MinuteMs + t.s * SecondMs + rest;
    assert 0 <= low < HourMs;
    assert ms == t.h * HourMs + low;
    assert ms / HourMs == t.h && ms % HourMs == low;
    var low2 := t.s * SecondMs + rest;
    assert ms == (t.h * 60 + t.m) * MinuteMs + low2;
    assert 0 <= low2 < MinuteMs;
    assert ms % MinuteMs == low2;
    assert low / MinuteMs == t.m;
    assert low2 / SecondMs == t.s;
  }

  /** `formatCountdown()`: the three fields, each padded to two digits. */
  function FormatCountdown(t: Hms): string
  {
    Pad2(t.h) + ":" + Pad2(t.m) + ":" + Pad2(t.s)
  }

  /** Reading an `"hh:mm:ss"` text back: three all-digit pieces around two colons. */
  function ReadCountdown(text: string): Option<Hms>
  {
    var parts := SplitOn(text, ':');
    if |parts| == 3 && (forall k :: 0 <= k < 3 ==> AllDigits(parts[k])) then
      Some(Hms(DecimalValue(parts[0]), DecimalValue(parts[1]), DecimalValue(parts[2])))
    else
      None
  }

  predicate AllDigits(s: string)
  {
    forall i :: 0 <= i < |s| ==> IsDigit(s[i])
  }

  /** Two colons between three colon-free pieces split back into the pieces. */
  lemma SplitAtTwoColons(a: string, b: string, c: string)
    requires ':' !in a && ':' !in b && ':' !in c
    ensures SplitOn(a + ":" + b + ":" + c, ':') == [a, b, c]
  {
    var bc := b + [':'] + c;
    SplitNone(c, ':');
    SplitCons(b, ':', c);
    assert SplitOn(bc, ':') == [b, c];
    assert a + ":" + b + ":" + c == a + [':'] + bc;
    SplitCons(a, ':', bc);
  }

  /** A colon between two colon-free pieces splits back into the pieces. */
  lemma SplitAtOneColon(a: string, b: string)
    requires ':' !in a && ':' !in b
    ensures SplitOn(a + ":" + b, ':') == [a, b]
  {
    SplitNone(b, ':');
    SplitCons(a, ':', b);
  }

  lemma DigitsHaveNoColon(s: string)
    requires AllDigits(s)
    ensures ':' !in s
  {
  }

  /** Three numerals joined by colons read back as their values. */
  lemma ReadThreeNumerals(a: string, b: string, c: string)
    requires AllDigits(a) && AllDigits(b) && AllDigits(c)
    ensures ReadCountdown(a + ":" + b + ":" + c) == Some(Hms(DecimalValue(a), DecimalValue(b), DecimalValue(c)))
  {
    DigitsHaveNoColon(a);
    DigitsHaveNoColon(b);
    DigitsHaveNoColon(c);
    SplitAtTwoColons(a, b, c);
    var parts := SplitOn(a + ":" + b + ":" + c, ':');
    assert parts[0] == a && parts[1] == b && parts[2] == c;
    assert forall k :: 0 <= k < 3 ==> AllDigits(parts[k]);
  }

  /** The countdown text of non-negative fields reads back as those fields. */
  lemma ReadFormatCountdown(t: Hms)
    requires t.h >= 0 && t.m >= 0 && t.s >= 0
    ensures ReadCountdown(FormatCountdown(t)) == Some(t)
  {
    Pad2Reads(t.h);
    Pad2Reads(t.m);
    Pad2Reads(t.s);
    ReadThreeNumerals(Pad2(t.h), Pad2(t.m), Pad2(t.s));
  }

  /** What the timer shows: the React state slots `findCurrentPeriod`
      writes to (current and next label, outside school hours, time left,
      total time and progress). */
  datatype Display = Display(current: Label, next: Label, outside: bool,
                             timeLeft: int, total: int, progress: real)

  /** `Math.min(1, elapsed / total)` */
  function Fraction(elapsed: int, total: int): (r: real)
    requires total != 0
    ensures 0 <= elapsed < total ==> 0.0 <= r < 1.0 && r == elapsed as real / total as real
    ensures 0 < total <= elapsed ==> r == 1.0
  {
    var f := elapsed as real / total as real;
    if f < 1.0 then f else 1.0
  }
}
