/** The redesigned bell timer. Schedule times may carry an am/pm marker;
    a warning bell before the first class takes precedence over every other
    rule; a period lasts from its own start to its own end and the gap to the
    next start is a passing period; the countdown aims at 08:25 today when
    school has not started yet. Every countdown value the timer sets also
    sets the hours, minutes and seconds shown. */
module TimerPlus {
  import opened JsText
  import opened Timing
  import opened Schedules
  import PlusSchedules
  import Favicon

  /** The marker `m` appears in the time text, ignoring case. The digits and
      the colon cannot contain a letter, so only the suffix is searched. */
  predicate HasMarker(t: ClockText, m: string)
  {
    Contains(Lower(t.suffix), m)
  }

  /** The hour `parseTimeString` passes to `setHours`. */
  function ParseHour(t: ClockText): int
  {
    var isPM := HasMarker(t, "pm");
    var isAM := HasMarker(t, "am");
    var h := if isPM && t.hour < 12 then t.hour + 12
             else if isAM && t.hour == 12 then 0
             else t.hour;
    if !isPM && !isAM && 1 <= h <= 6 then h + 12 else h
  }

  /** `parseTimeString(timeStr)` as an offset from today's midnight. */
  function ParseTimeString(t: ClockText): int
  {
    AtHourMinute(ParseHour(t), t.minute)
  }

  function StartOf(p: Period): int
  {
    ParseTimeString(p.startTime)
  }

  function EndOf(p: Period): int
  {
    ParseTimeString(p.endTime)
  }

  /** The hour rule case by case: a pm marker adds 12 below noon, an am
      marker turns 12 into 0, and a bare hour from 1 to 6 is in the
      afternoon; every other hour is taken as written. */
  lemma ParseHourCases(t: ClockText)
    ensures HasMarker(t, "pm") && t.hour < 12 ==> ParseHour(t) == t.hour + 12
    ensures HasMarker(t, "pm") && t.hour >= 12 && !HasMarker(t, "am") ==> ParseHour(t) == t.hour
    ensures !HasMarker(t, "pm") && HasMarker(t, "am") ==> ParseHour(t) == (if t.hour == 12 then 0 else t.hour)
    ensures !HasMarker(t, "pm") && !HasMarker(t, "am") ==>
      ParseHour(t) == (if 1 <= t.hour <= 6 then t.hour + 12 else t.hour)
  {
  }

  lemma MarkersOfPM()
    ensures Contains(Lower(" PM"), "pm") && !Contains(Lower(" PM"), "am")
  {
    assert Lower(" PM") == " pm";
    assert StartsWith(" pm"[1..], "pm");
    assert !StartsWith(" pm", "am") && !StartsWith(" pm"[1..], "am") && !StartsWith(" pm"[2..], "am");
    assert " pm"[1..][1..][1..] == [];
  }

  lemma MarkersOfAM()
    ensures Contains(Lower(" AM"), "am") && !Contains(Lower(" AM"), "pm")
  {
    assert Lower(" AM") == " am";
    assert StartsWith(" am"[1..], "am");
    assert !StartsWith(" am", "pm") && !StartsWith(" am"[1..], "pm") && !StartsWith(" am"[2..], "pm");
    assert " am"[1..][1..][1..] == [];
  }

  /** A 12-hour reading with a marker follows the 12-hour clock: 12 AM is
      midnight, 12 PM noon, and `h` PM is `h + 12` otherwise. */
  lemma TwelveHourConvention(h: nat, m: nat)
    requires 1 <= h <= 12
    ensures ParseHour(ClockText(h, m, " PM")) == h % 12 + 12
    ensures ParseHour(ClockText(h, m, " AM")) == h % 12
  {
    MarkersOfPM();
    MarkersOfAM();
  }

  /** The countdown fields the timer shows, next to the state slots of
      `Display`: hours, minutes and seconds and whether they are shown. */
  datatype View = View(display: Display, clock: Hms, showCountdown: bool)

  /** `setTimeValues(remainingMs)`. */
  function SetTimeValues(v: View, remainingMs: int): View
  {
    View(v.display.(timeLeft := remainingMs), Split(remainingMs), true)
  }

  /** Opening time of a school day. */
  const Opening: int := AtHourMinute(8, 25)

  /** `now.getHours() < 8 || (now.getHours() === 8 && now.getMinutes() < 25)` */
  predicate BeforeOpening(now: Instant)
  {
    now.Hours() < 8 || (now.Hours() == 8 && now.Minutes() < 25)
  }

  lemma BeforeOpeningIsBefore0825(now: Instant)
    requires now.Valid()
    ensures BeforeOpening(now) <==> now.ms < Opening
  {
  }

  /** Whole days from today to the morning the countdown aims at. */
  function DaysToTarget(now: Instant): int
  {
    if BeforeOpening(now) && IsSchoolDay(now.weekday) then 0 else DaysAhead(now.weekday)
  }

  /** `calculateTimeUntilNextSchoolDay()`, with its clock reading taken as `now`. */
  function CalculateTimeUntilNextSchoolDay(now: Instant): (r: int)
    requires now.Valid()
    ensures 0 < r < 4 * DayMs
  {
    BeforeOpeningIsBefore0825(now);
    DaysToTarget(now) * DayMs + Opening - now.ms
  }

  /** The target is the first 08:25 of a school day that still lies ahead:
      the target day is a school day, its 08:25 is in the future, and no
      earlier day has a school-day 08:25 still to come. */
  lemma NextSchoolDayIsFirstOpeningAhead(now: Instant)
    requires now.Valid()
    ensures var k := DaysToTarget(now);
      0 <= k <= 3 && IsSchoolDay(DayAfter(now.weekday, k)) &&
      k * DayMs + Opening > now.ms &&
      (forall j :: 0 <= j < k ==> !(IsSchoolDay(DayAfter(now.weekday, j)) && j * DayMs + Opening > now.ms)) &&
      CalculateTimeUntilNextSchoolDay(now) == k * DayMs + Opening - now.ms
  {
    BeforeOpeningIsBefore0825(now);
    var d := now.weekday;
    assert d == 0 || d == 1 || d == 2 || d == 3 || d == 4 || d == 5 || d == 6;
  }

  /** Row `i` is a warning bell and `t` lies in its window. */
  predicate WarningBellAt(ps: seq<Period>, i: int, t: int)
    requires 0 <= i < |ps|
  {
    ps[i].name == "Warning Bell" && StartOf(ps[i]) <= t < EndOf(ps[i])
  }

  /** The warning-bell loop of `findCurrentPeriod` from row `from` on. */
  function FindWarningBell(ps: seq<Period>, from: nat, t: int): (r: Option<nat>)
    ensures r.Some? ==> from <= r.value < |ps| && WarningBellAt(ps, r.value, t) &&
                        (forall j :: from <= j < r.value ==> !WarningBellAt(ps, j, t))
    ensures r.None? ==> forall j :: from <= j < |ps| ==> !WarningBellAt(ps, j, t)
    decreases |ps| - from
  {
    if from >= |ps| then None
    else if WarningBellAt(ps, from, t) then Some(from)
    else FindWarningBell(ps, from + 1, t)
  }

  /** Period `i` runs from its start to its end. */
  predicate InPeriod(ps: seq<Period>, i: int, t: int)
    requires 0 <= i < |ps|
  {
    StartOf(ps[i]) <= t < EndOf(ps[i])
  }

  /** The passing period after row `i` runs from its end to the next start. */
  predicate InPassing(ps: seq<Period>, i: int, t: int)
    requires 0 <= i < |ps| - 1
  {
    EndOf(ps[i]) <= t < StartOf(ps[i + 1])
  }

  /** Row `i` is examined by the main loop and `t` falls in it or in the
      passing period after it. */
  predicate Matches(ps: seq<Period>, i: int, t: int)
    requires 0 <= i < |ps| - 1
  {
    ps[i].name != "Warning Bell" && (InPeriod(ps, i, t) || InPassing(ps, i, t))
  }

  /** The main loop of `findCurrentPeriod` from row `from` on. */
  function FindMatch(ps: seq<Period>, from: nat, t: int): (r: Option<nat>)
    ensures r.Some? ==> from <= r.value < |ps| - 1 && Matches(ps, r.value, t) &&
                        (forall j :: from <= j < r.value ==> !Matches(ps, j, t))
    ensures r.None? ==> forall j :: from <= j < |ps| - 1 ==> !Matches(ps, j, t)
    decreases |ps| - from
  {
    if from >= |ps| - 1 then None
    else if Matches(ps, from, t) then Some(from)
    else FindMatch(ps, from + 1, t)
  }

  /** The current period's display name: renamed on the assembly schedule. */
  function RenameCurrent(currentSchedule: string, letter: string, name: string): Label
  {
    if currentSchedule == "assembly" then PlusSchedules.GetAssemblyPeriodName(letter, name) else Text(name)
  }

  /** A following period's display name: renamed on the assembly schedule
      unless it is "Free". */
  function RenameNext(currentSchedule: string, letter: string, name: string): Label
  {
    if currentSchedule == "assembly" && name != "Free" then PlusSchedules.GetAssemblyPeriodName(letter, name)
    else Text(name)
  }

  /** The view is consistent when its split fields are those of its time
      left and its bar lies between empty and full. */
  predicate Consistent(v: View)
  {
    v.clock == Split(v.display.timeLeft) && 0.0 <= v.display.progress <= 1.0
  }

  /** The warning bell of row `i`: the label, and when a row follows it the
      next row's name and the time until that row starts, with an empty
      progress bar. Whether school is in session is left as it was. */
  function WarningBellView(v: View, ps: seq<Period>, i: int, t: int): (r: View)
    requires 0 <= i < |ps|
    ensures Consistent(v) ==> Consistent(r)
  {
    var v1 := v.(display := v.display.(current := Text("Warning Bell")));
    if i < |ps| - 1 then
      var v2 := SetTimeValues(v1.(display := v1.display.(next := Text(ps[i + 1].name))), StartOf(ps[i + 1]) - t);
      v2.(display := v2.display.(progress := 0.0))
    else v1
  }

  /** Outside school hours, and the fallback when nothing matched: Free,
      counting down to the next school day with a full progress bar. */
  function OutsideView(v: View, now: Instant): (r: View)
    requires now.Valid()
    ensures Consistent(r) && r.display.timeLeft > 0
  {
    var v1 := v.(display := v.display.(current := Text("Free"), next := Text("Next School Day"), outside := true));
    var v2 := SetTimeValues(v1, CalculateTimeUntilNextSchoolDay(now));
    v2.(display := v2.display.(progress := 1.0))
  }

  /** A timed interval from `s` to `e` holding `t`: every displayed slot set. */
  function Interval(current: Label, next: Label, s: int, e: int, t: int): (r: View)
    requires s <= t < e
    ensures Consistent(r) && !r.display.outside && r.display.timeLeft > 0
  {
    View(Display(current, next, false, e - t, e - s, Fraction(t - s, e - s)), Split(e - t), true)
  }

  /** Inside school hours, after the warning-bell loop: the first period or
      passing period holding `t`, else the last period, else the fallback. */
  function InSchoolView(v: View, ps: seq<Period>, currentSchedule: string, letter: string, now: Instant): View
    requires now.Valid() && |ps| > 0
  {
    var t := now.ms;
    match FindMatch(ps, 0, t)
    case Some(i) =>
      if InPeriod(ps, i, t) then
        Interval(RenameCurrent(currentSchedule, letter, ps[i].name),
                 RenameNext(currentSchedule, letter, ps[i + 1].name), StartOf(ps[i]), EndOf(ps[i]), t)
      else
        Interval(Text("Passing"), RenameNext(currentSchedule, letter, ps[i + 1].name),
                 EndOf(ps[i]), StartOf(ps[i + 1]), t)
    case None =>
      var last := ps[|ps| - 1];
      if StartOf(last) <= t < EndOf(last) then
        Interval(RenameNext(currentSchedule, letter, last.name), Text("Free"), StartOf(last), EndOf(last), t)
      else OutsideView(v, now)
  }

  /** `findCurrentPeriod(now)`: the state after its setters have run on `v`. */
  function Resolve(v: View, sched: Schedule, currentSchedule: string, letter: string, now: Instant): View
    requires now.Valid()
  {
    var ps := sched.periods;
    var t := now.ms;
    if |ps| == 0 then v.(display := v.display.(current := Text("No schedule available")))
    else match FindWarningBell(ps, 0, t)
      case Some(i) => WarningBellView(v, ps, i, t)
      case None =>
        if t < StartOf(ps[0]) || t >= EndOf(ps[|ps| - 1]) then OutsideView(v, now)
        else InSchoolView(v, ps, currentSchedule, letter, now)
  }

  /** The warning-bell loop: the first warning bell whose window holds `t`. */
  method ScanWarningBells(periods: seq<Period>, t: int) returns (r: Option<nat>)
    ensures r == FindWarningBell(periods, 0, t)
  {
    var i := 0;
    while i < |periods|
      invariant 0 <= i <= |periods|
      invariant FindWarningBell(periods, i, t) == FindWarningBell(periods, 0, t)
    {
      if periods[i].name == "Warning Bell" {
        var warningBellTime := ParseTimeString(periods[i].startTime);
        var endWarningBellTime := ParseTimeString(periods[i].endTime);
        if t >= warningBellTime && t < endWarningBellTime {
          return Some(i);
        }
      }
      i := i + 1;
    }
    return None;
  }

  /** The main loop: the first row other than a warning bell whose period or
      following passing period holds `t`. */
  method ScanPeriods(periods: seq<Period>, t: int) returns (r: Option<nat>)
    ensures r == FindMatch(periods, 0, t)
  {
    if |periods| == 0 {
      return None;
    }
    var i := 0;
    while i < |periods| - 1
      invariant 0 <= i <= |periods| - 1
      invariant FindMatch(periods, i, t) == FindMatch(periods, 0, t)
    {
      if periods[i].name != "Warning Bell" {
        var currentPeriodStart := ParseTimeString(periods[i].startTime);
        var currentPeriodEnd := ParseTimeString(periods[i].endTime);
        var nextPeriodStart := ParseTimeString(periods[i + 1].startTime);
        if t >= currentPeriodStart && t < currentPeriodEnd {
          return Some(i);
        }
        if t >= currentPeriodEnd && t < nextPeriodStart {
          return Some(i);
        }
      }
      i := i + 1;
    }
    return None;
  }

  /** The body of `findCurrentPeriod(now)`, applying its setters to `v`. */
  method ChooseView(v: View, sched: Schedule, currentSchedule: string, letter: string, now: Instant)
    returns (r: View)
    requires now.Valid()
    ensures r == Resolve(v, sched, currentSchedule, letter, now)
  {
    var periods := sched.periods;
    if |periods| == 0 {
      return v.(display := v.display.(current := Text("No schedule available")));
    }
    var bell := ScanWarningBells(periods, now.ms);
    if bell.Some? {
      return WarningBellView(v, periods, bell.value, now.ms);
    }
    var firstPeriodStart := ParseTimeString(periods[0].startTime);
    var lastPeriodEnd := ParseTimeString(periods[|periods| - 1].endTime);
    if now.ms < firstPeriodStart || now.ms >= lastPeriodEnd {
      return OutsideView(v, now);
    }
    r := ChooseInSchool(v, periods, currentSchedule, letter, now);
  }

  /** The main loop and what follows it in `findCurrentPeriod(now)`. */
  method ChooseInSchool(v: View, periods: seq<Period>, currentSchedule: string, letter: string, now: Instant)
    returns (r: View)
    requires now.Valid() && |periods| > 0
    ensures r == InSchoolView(v, periods, currentSchedule, letter, now)
  {
    var found := ScanPeriods(periods, now.ms);
    if found.Some? {
      var i := found.value;
      var currentPeriodStart := ParseTimeString(periods[i].startTime);
      var currentPeriodEnd := ParseTimeString(periods[i].endTime);
      var nextPeriodStart := ParseTimeString(periods[i + 1].startTime);
      if now.ms >= currentPeriodStart && now.ms < currentPeriodEnd {
        return Interval(RenameCurrent(currentSchedule, letter, periods[i].name),
                        RenameNext(currentSchedule, letter, periods[i + 1].name),
                        currentPeriodStart, currentPeriodEnd, now.ms);
      }
      return Interval(Text("Passing"), RenameNext(currentSchedule, letter, periods[i + 1].name),
                      currentPeriodEnd, nextPeriodStart, now.ms);
    }
    var lastPeriod := periods[|periods| - 1];
    var lastPeriodStart := ParseTimeString(lastPeriod.startTime);
    var finalPeriodEnd := ParseTimeString(lastPeriod.endTime);
    if now.ms >= lastPeriodStart && now.ms < finalPeriodEnd {
      return Interval(RenameNext(currentSchedule, letter, lastPeriod.name), Text("Free"),
                      lastPeriodStart, finalPeriodEnd, now.ms);
    }
    return OutsideView(v, now);
  }
  /** The minute of the day a parsed time falls on, as `getHours() * 60 +
      getMinutes()` reads it from the date `setHours` produced. */
  function MinuteOfDay(t: int): int
  {
    (t % DayMs) / MinuteMs
  }

  /** The tick's search for the next event: the first row before the last
      whose start minute is after the current minute. */
  function FindUpcoming(ps: seq<Period>, from: nat, nowMinutes: int): (r: Option<nat>)
    ensures r.Some? ==> from <= r.value < |ps| - 1 && StartsAfterMinute(ps, r.value, nowMinutes) &&
                        (forall j :: from <= j < r.value ==> !StartsAfterMinute(ps, j, nowMinutes))
    ensures r.None? ==> forall j :: from <= j < |ps| - 1 ==> !StartsAfterMinute(ps, j, nowMinutes)
    decreases |ps| - from
  {
    if from >= |ps| - 1 then None
    else if StartsAfterMinute(ps, from, nowMinutes) then Some(from)
    else FindUpcoming(ps, from + 1, nowMinutes)
  }

  /** Row `j` starts in a later minute of the day than `nowMinutes`. */
  predicate StartsAfterMinute(ps: seq<Period>, j: int, nowMinutes: int)
    requires 0 <= j < |ps|
  {
    nowMinutes < MinuteOfDay(StartOf(ps[j]))
  }

  /** What one tick counts down to: the time left, the next event's name and
      whether `setNextPeriodName` is called. */
  datatype TickTarget = TickTarget(remaining: int, nextEvent: Label, setsNext: bool)

  /** The first half of `updateCountdown()`: `elapsed` is the wall-clock time
      since the previous tick. */
  function TickTargetOf(d: Display, ps: seq<Period>, now: Instant, elapsed: int): TickTarget
    requires now.Valid()
  {
    if d.outside then TickTarget(CalculateTimeUntilNextSchoolDay(now), Text("Next School Day"), false)
    else if d.timeLeft > 0 then
      TickTarget(if d.timeLeft - elapsed > 0 then d.timeLeft - elapsed else 0, d.next, false)
    else
      match FindUpcoming(ps, 0, now.Hours() * 60 + now.Minutes())
      case Some(i) => TickTarget(StartOf(ps[i]) - now.ms, Text(ps[i].name), true)
      case None => TickTarget(CalculateTimeUntilNextSchoolDay(now), Text("Next School Day"), true)
  }

  /** A time of at least zero whose minute of the day is later than that of
      `ms` lies after `ms`. */
  lemma LaterMinuteIsLater(t: int, ms: int)
    requires t >= 0 && 0 <= ms < DayMs && ms / MinuteMs < MinuteOfDay(t)
    ensures t > ms
  {
    if t < DayMs {
      assert t % DayMs == t;
    }
  }

  /** A tick never counts below zero. */
  lemma TickNeverNegative(d: Display, ps: seq<Period>, now: Instant, elapsed: int)
    requires now.Valid()
    ensures TickTargetOf(d, ps, now, elapsed).remaining >= 0
  {
    if !d.outside && d.timeLeft <= 0 {
      assert now.Hours() * 60 + now.Minutes() == now.ms / MinuteMs;
      var f := FindUpcoming(ps, 0, now.ms / MinuteMs);
      if f.Some? {
        LaterMinuteIsLater(StartOf(ps[f.value]), now.ms);
      }
    }
  }

  /** At zero within school hours, when row `i` is the first row before
      the last that starts in a later minute, the countdown runs to its
      start and it becomes the next event. */
  lemma TickAtZeroUpcoming(d: Display, ps: seq<Period>, now: Instant, elapsed: int, i: int)
    requires now.Valid() && !d.outside && d.timeLeft <= 0
    requires 0 <= i < |ps| - 1 && StartsAfterMinute(ps, i, now.ms / MinuteMs)
    requires forall j :: 0 <= j < i ==> !StartsAfterMinute(ps, j, now.ms / MinuteMs)
    ensures TickTargetOf(d, ps, now, elapsed) == TickTarget(StartOf(ps[i]) - now.ms, Text(ps[i].name), true)
  {
    assert now.Hours() * 60 + now.Minutes() == now.ms / MinuteMs;
  }

  /** At zero within school hours, when no row before the last starts in a
      later minute, the countdown runs to the next school day. */
  lemma TickAtZeroDayOver(d: Display, ps: seq<Period>, now: Instant, elapsed: int)
    requires now.Valid() && !d.outside && d.timeLeft <= 0
    requires forall j :: 0 <= j < |ps| - 1 ==> !StartsAfterMinute(ps, j, now.ms / MinuteMs)
    ensures TickTargetOf(d, ps, now, elapsed) == TickTarget(CalculateTimeUntilNextSchoolDay(now), Text("Next School Day"), true)
  {
    assert now.Hours() * 60 + now.Minutes() == now.ms / MinuteMs;
  }

  /** The tick's own split of the time left, through whole seconds. */
  function SecondsSplit(remainingMs: int): Hms
  {
    var totalSeconds := remainingMs / SecondMs;
    Hms(totalSeconds / 3600, JsRem(totalSeconds, 3600) / 60, JsRem(totalSeconds, 60))
  }

  /** For a time left that is not negative, splitting through whole seconds
      gives the same hours, minutes and seconds as `setTimeValues`. */
  lemma SecondsSplitAgrees(remainingMs: int)
    requires remainingMs >= 0
    ensures SecondsSplit(remainingMs) == Split(remainingMs)
  {
    var ts := remainingMs / SecondMs;
    var t := SecondsSplit(remainingMs);
    assert remainingMs == ts * SecondMs + remainingMs % SecondMs;
    assert 0 <= t.m < 60 && 0 <= t.s < 60 && t.h >= 0;
    assert ts == t.h * 3600 + t.m * 60 + t.s;
    assert remainingMs == Join(t) + remainingMs % SecondMs;
    SplitJoin(t, remainingMs % SecondMs);
  }

  /** The progress the tick writes when a total is known, as written: a
      percentage, `100 - remaining / total * 100`, clamped to [0, 100]. */
  function TickProgress(remaining: int, total: int): (r: real)
    requires total > 0
    ensures 0.0 <= r <= 100.0
  {
    var p := 100.0 - (remaining as real / total as real) * 100.0;
    if p < 0.0 then 0.0 else if p > 100.0 then 100.0 else p
  }

  /** Half way through a 46-minute period the tick writes about 50, where
      `findCurrentPeriod` writes a fraction of at most 1 in the same slot,
      which the bar draws as `progress * 100`%. */
  lemma TickProgressIsPercent()
    ensures TickProgress(23 * MinuteMs, 46 * MinuteMs) == 50.0
    ensures Fraction(23 * MinuteMs, 46 * MinuteMs) == 0.5
  {
  }

  /** The progress the tick evidently means: the elapsed fraction, clamped
      to [0, 1]. */
  function TickProgressFraction(remaining: int, total: int): (r: real)
    requires total > 0
    ensures 0.0 <= r <= 1.0
  {
    var p := 1.0 - remaining as real / total as real;
    if p < 0.0 then 0.0 else if p > 1.0 then 1.0 else p
  }

  /** The corrected tick progress is the fraction `findCurrentPeriod` writes
      for the same interval, and the written percentage is it times 100. */
  lemma TickProgressFractionAgrees(elapsed: int, total: int)
    requires 0 <= elapsed < total
    ensures TickProgressFraction(total - elapsed, total) == Fraction(elapsed, total)
    ensures TickProgress(total - elapsed, total) == 100.0 * TickProgressFraction(total - elapsed, total)
  {
    var T, E := total as real, elapsed as real;
    assert (T - E) / T == T / T - E / T;
  }

  /** The state after one tick's setters ran on `v`; the tick never sets the
      current period or whether school is in session. */
  function TickView(v: View, o: TickTarget): View
  {
    var t := SecondsSplit(o.remaining);
    var d := v.display.(timeLeft := o.remaining, next := if o.setsNext then o.nextEvent else v.display.next);
    var d2 := if v.display.total > 0 then d.(progress := TickProgress(o.remaining, v.display.total)) else d;
    View(d2, t, true)
  }

  /** `hrs:mm:ss` when there are whole hours left, else `mm:ss`. */
  function TitleCountdown(t: Hms): string
  {
    if t.h > 0 then IntToString(t.h) + ":" + Pad2(t.m) + ":" + Pad2(t.s)
    else Pad2(t.m) + ":" + Pad2(t.s)
  }

  /** The title's countdown reads back as the hours, minutes and seconds
      left; without whole hours it has just the minutes and seconds. */
  lemma TitleCountdownReads(t: Hms)
    requires t.h >= 0 && 0 <= t.m < 60 && 0 <= t.s < 60
    ensures t.h > 0 ==> ReadCountdown(TitleCountdown(t)) == Some(t)
    ensures t.h == 0 ==> var parts := SplitOn(TitleCountdown(t), ':');
      |parts| == 2 && AllDigits(parts[0]) && AllDigits(parts[1]) &&
      DecimalValue(parts[0]) == t.m && DecimalValue(parts[1]) == t.s
  {
    Pad2Reads(t.m);
    Pad2Reads(t.s);
    if t.h > 0 {
      DecimalValueOfNatToString(t.h);
      ReadThreeNumerals(NatToString(t.h), Pad2(t.m), Pad2(t.s));
    } else {
      DigitsHaveNoColon(Pad2(t.m));
      DigitsHaveNoColon(Pad2(t.s));
      SplitAtOneColon(Pad2(t.m), Pad2(t.s));
    }
  }

  /** The title's name for the next event: "Next Day" for the next school
      day, on the assembly schedule a lone letter A to H renamed. */
  function TitleNextEvent(next: Label, currentSchedule: string, letter: string): string
  {
    if next == Text("Next School Day") then "Next Day"
    else if currentSchedule == "assembly" && next.Text? && IsAssemblyLetter(next.text) then
      (if next.text == letter then "Assembly"
       else AssemblyLetterKeys(next.text); AssemblyToPeriodMap[next.text])
    else Render(next)
  }

  /** On the assembly schedule the title renames a letter as the schedules'
      `getAssemblyPeriodName` does, and it never spells out "Next School Day". */
  lemma TitleNextEventRenames(next: Label, currentSchedule: string, letter: string)
    ensures TitleNextEvent(next, currentSchedule, letter) != "Next School Day"
    ensures currentSchedule == "assembly" && next.Text? && IsAssemblyLetter(next.text) ==>
      TitleNextEvent(next, currentSchedule, letter) == Render(Schedules.GetAssemblyPeriodName(letter, next.text))
  {
    if currentSchedule == "assembly" && next.Text? && IsAssemblyLetter(next.text) {
      AssemblyLetterKeys(next.text);
      var x := next.text;
      assert AssemblyToPeriodMap[x] != "Next School Day";
    }
  }

  /** `document.title` as one tick writes it. */
  function TickTitle(t: Hms, o: TickTarget, currentSchedule: string, letter: string): string
  {
    TitleCountdown(t) + " | " + TitleNextEvent(o.nextEvent, currentSchedule, letter)
  }

  /** The arguments of the tick's `updateFavicon` call. */
  datatype FaviconCall = FaviconCall(minutes: int, seconds: int, outside: bool)

  /** The favicon is passed the minutes within the hour, so with an hour and
      ten seconds left it flashes red as if ten seconds were left. */
  lemma FaviconAtAnHourAsWritten()
    ensures var t := SecondsSplit(HourMs + 10 * SecondMs);
      var call := FaviconCall(t.m, t.s, false);
      t == Hms(1, 0, 10) &&
      Favicon.IntendedColor(call.minutes, call.seconds, call.outside) == Favicon.RedBright
  {
    assert Favicon.ShouldFlash(0, 10);
  }

  /** The arguments the favicon evidently wants: the minutes of the whole
      time left. */
  function FaviconCallFixed(t: Hms, outside: bool): FaviconCall
  {
    FaviconCall(t.h * 60 + t.m, t.s, outside)
  }

  /** With the whole minutes passed, the icon is red exactly when at most
      two minutes are left. */
  lemma FaviconCallFixedBands(remainingMs: int)
    requires remainingMs >= 0
    ensures var t := SecondsSplit(remainingMs);
      var call := FaviconCallFixed(t, false);
      var c := Favicon.IntendedColor(call.minutes, call.seconds, false);
      (c == Favicon.RedBright || c == Favicon.RedDark) <==> remainingMs / SecondMs <= 120
  {
    var t := SecondsSplit(remainingMs);
    SecondsSplitAgrees(remainingMs);
    SplitBounds(remainingMs);
    var call := FaviconCallFixed(t, false);
    Favicon.BandsBySeconds(call.minutes, call.seconds, Favicon.ShouldFlash(call.minutes, call.seconds));
    assert 60 * call.minutes + call.seconds == t.h * 3600 + t.m * 60 + t.s;
    assert remainingMs / SecondMs == t.h * 3600 + t.m * 60 + t.s;
  }

  /** With no periods only the current label changes. */
  lemma EmptySchedule(v: View, sched: Schedule, currentSchedule: string, letter: string, now: Instant)
    requires now.Valid() && |sched.periods| == 0
    ensures var r := Resolve(v, sched, currentSchedule, letter, now);
      r == v.(display := v.display.(current := Text("No schedule available")))
  {
  }

  /** A warning bell whose window holds the time wins over every other rule:
      the label reads "Warning Bell", and when a row follows it the
      countdown runs to that row's start with an empty bar; the total and
      whether school is in session are left as they were. */
  lemma WarningBellTakesPrecedence(v: View, sched: Schedule, currentSchedule: string, letter: string,
                                   now: Instant, i: int)
    requires now.Valid()
    requires 0 <= i < |sched.periods| && WarningBellAt(sched.periods, i, now.ms)
    requires forall j :: 0 <= j < i ==> !WarningBellAt(sched.periods, j, now.ms)
    ensures var r := Resolve(v, sched, currentSchedule, letter, now);
      var ps := sched.periods;
      r.display.current == Text("Warning Bell") && r.display.outside == v.display.outside &&
      r.display.total == v.display.total &&
      (i < |ps| - 1 ==>
         r.display.next == Text(ps[i + 1].name) && r.display.timeLeft == StartOf(ps[i + 1]) - now.ms &&
         r.clock == Split(r.display.timeLeft) && r.showCountdown && r.display.progress == 0.0) &&
      (i == |ps| - 1 ==> r == v.(display := v.display.(current := Text("Warning Bell"))))
  {
  }

  /** No warning bell holds the time. */
  predicate NoWarningBell(ps: seq<Period>, t: int)
  {
    forall j :: 0 <= j < |ps| ==> !WarningBellAt(ps, j, t)
  }

  /** Before the first row starts or from the last row's end on, the timer
      shows Free until the next school day with a full bar, and says school
      is out. */
  lemma OutsideSchoolHours(v: View, sched: Schedule, currentSchedule: string, letter: string, now: Instant)
    requires now.Valid() && |sched.periods| > 0 && NoWarningBell(sched.periods, now.ms)
    requires now.ms < StartOf(sched.periods[0]) || now.ms >= EndOf(sched.periods[|sched.periods| - 1])
    ensures var r := Resolve(v, sched, currentSchedule, letter, now);
      r.display == v.display.(current := Text("Free"), next := Text("Next School Day"), outside := true,
                              timeLeft := CalculateTimeUntilNextSchoolDay(now), progress := 1.0) &&
      r.clock == Split(r.display.timeLeft) && r.showCountdown && r.display.timeLeft > 0
  {
  }

  /** Inside school hours and away from warning bells the in-school rules
      decide. */
  lemma ResolveInSchool(v: View, sched: Schedule, currentSchedule: string, letter: string, now: Instant)
    requires now.Valid() && |sched.periods| > 0 && NoWarningBell(sched.periods, now.ms)
    requires StartOf(sched.periods[0]) <= now.ms < EndOf(sched.periods[|sched.periods| - 1])
    ensures Resolve(v, sched, currentSchedule, letter, now) == InSchoolView(v, sched.periods, currentSchedule, letter, now)
  {
    assert FindWarningBell(sched.periods, 0, now.ms).None?;
  }

  /** Inside school hours and away from warning bells, the first row other
      than a warning bell (before the last) whose period holds the time is
      the one shown, counting down to its end and followed by the next
      row. */
  lemma InPeriodSelected(v: View, sched: Schedule, currentSchedule: string, letter: string,
                         now: Instant, i: int)
    requires now.Valid() && NoWarningBell(sched.periods, now.ms)
    requires 0 <= i < |sched.periods| - 1 && StartOf(sched.periods[0]) <= now.ms < EndOf(sched.periods[|sched.periods| - 1])
    requires sched.periods[i].name != "Warning Bell" && InPeriod(sched.periods, i, now.ms)
    requires forall j :: 0 <= j < i ==> !Matches(sched.periods, j, now.ms)
    ensures var ps := sched.periods;
      Resolve(v, sched, currentSchedule, letter, now) ==
        Interval(RenameCurrent(currentSchedule, letter, ps[i].name), RenameNext(currentSchedule, letter, ps[i + 1].name),
                 StartOf(ps[i]), EndOf(ps[i]), now.ms)
  {
    ResolveInSchool(v, sched, currentSchedule, letter, now);
    FoundMatch(sched.periods, now.ms, i);
  }

  /** Between a row's end and the next row's start, with no earlier row
      matching, the timer shows "Passing" until the next row starts. */
  lemma PassingSelected(v: View, sched: Schedule, currentSchedule: string, letter: string,
                        now: Instant, i: int)
    requires now.Valid() && NoWarningBell(sched.periods, now.ms)
    requires 0 <= i < |sched.periods| - 1 && StartOf(sched.periods[0]) <= now.ms < EndOf(sched.periods[|sched.periods| - 1])
    requires sched.periods[i].name != "Warning Bell" && InPassing(sched.periods, i, now.ms) &&
             !InPeriod(sched.periods, i, now.ms)
    requires forall j :: 0 <= j < i ==> !Matches(sched.periods, j, now.ms)
    ensures var ps := sched.periods;
      Resolve(v, sched, currentSchedule, letter, now) ==
        Interval(Text("Passing"), RenameNext(currentSchedule, letter, ps[i + 1].name),
                 EndOf(ps[i]), StartOf(ps[i + 1]), now.ms)
  {
    ResolveInSchool(v, sched, currentSchedule, letter, now);
    FoundMatch(sched.periods, now.ms, i);
  }

  /** The first matching row is the one `FindMatch` finds. */
  lemma FoundMatch(ps: seq<Period>, t: int, i: int)
    requires 0 <= i < |ps| - 1 && Matches(ps, i, t)
    requires forall j :: 0 <= j < i ==> !Matches(ps, j, t)
    ensures FindMatch(ps, 0, t) == Some(i)
  {
  }

  /** When no earlier row matches and the time lies in the last row, that
      row is shown with "Free" to follow. */
  lemma LastPeriodSelected(v: View, sched: Schedule, currentSchedule: string, letter: string, now: Instant)
    requires now.Valid() && |sched.periods| > 0 && NoWarningBell(sched.periods, now.ms)
    requires forall j :: 0 <= j < |sched.periods| - 1 ==> !Matches(sched.periods, j, now.ms)
    requires InPeriod(sched.periods, |sched.periods| - 1, now.ms) && StartOf(sched.periods[0]) <= now.ms
    ensures var last := sched.periods[|sched.periods| - 1];
      Resolve(v, sched, currentSchedule, letter, now) ==
        Interval(RenameNext(currentSchedule, letter, last.name), Text("Free"), StartOf(last), EndOf(last), now.ms)
  {
    ResolveInSchool(v, sched, currentSchedule, letter, now);
  }

  /** A timed interval's countdown, total and bar agree: the time left and
      the time elapsed add up to the total, the bar is the elapsed fraction
      below 1, and the split fields are those of the time left. */
  lemma IntervalConsistent(current: Label, next: Label, s: int, e: int, t: int)
    requires s <= t < e
    ensures var r := Interval(current, next, s, e, t);
      !r.display.outside && r.display.timeLeft > 0 && r.display.total > 0 &&
      r.display.timeLeft + (t - s) == r.display.total &&
      0.0 <= r.display.progress < 1.0 && r.display.progress == (t - s) as real / (e - s) as real &&
      r.clock == Split(r.display.timeLeft)
  {
  }

  /** The in-school part keeps the view consistent, and says school is out
      only on its fallback. */
  lemma InSchoolConsistent(v: View, ps: seq<Period>, currentSchedule: string, letter: string, now: Instant)
    requires now.Valid() && |ps| > 0 && Consistent(v)
    ensures var r := InSchoolView(v, ps, currentSchedule, letter, now);
      Consistent(r) &&
      (r.display.outside ==> r.display.current == Text("Free") && r.display.next == Text("Next School Day"))
  {
  }

  /** `findCurrentPeriod` keeps the view consistent, and school counts as
      out only with the Free label, or when a warning bell or an empty
      schedule left it so. */
  lemma ResolveKeepsConsistent(v: View, sched: Schedule, currentSchedule: string, letter: string, now: Instant)
    requires now.Valid() && Consistent(v)
    ensures var r := Resolve(v, sched, currentSchedule, letter, now);
      Consistent(r) &&
      (r.display.outside ==>
         (r.display.current == Text("Free") && r.display.next == Text("Next School Day")) ||
         (v.display.outside &&
          (r.display.current == Text("Warning Bell") || r.display.current == Text("No schedule available"))))
  {
    var ps := sched.periods;
    if |ps| > 0 {
      var bell := FindWarningBell(ps, 0, now.ms);
      if bell.None? && StartOf(ps[0]) <= now.ms < EndOf(ps[|ps| - 1]) {
        InSchoolConsistent(v, ps, currentSchedule, letter, now);
      }
    }
  }

  /** `formatTime(date)`: `H:MM AM` on the 12-hour clock, `HH:MM` otherwise. */
  function FormatTime(use12HourFormat: bool, now: Instant): string
  {
    var hours, minutes := now.Hours(), now.Minutes();
    if use12HourFormat then
      var hour12 := if hours % 12 == 0 then 12 else hours % 12;
      IntToString(hour12) + ":" + Pad2(minutes) + " " + (if hours >= 12 then "PM" else "AM")
    else Pad2(hours) + ":" + Pad2(minutes)
  }

  /** The 24-hour text is two two-digit numerals around a colon that read
      back as the hour and the minute. */
  lemma FormatTime24Reads(now: Instant)
    requires now.Valid()
    ensures var parts := SplitOn(FormatTime(false, now), ':');
      |parts| == 2 && |parts[0]| == 2 && |parts[1]| == 2 && AllDigits(parts[0]) && AllDigits(parts[1]) &&
      DecimalValue(parts[0]) == now.Hours() && DecimalValue(parts[1]) == now.Minutes()
  {
    var h, m := now.Hours(), now.Minutes();
    Pad2Reads(h);
    Pad2Reads(m);
    NatToStringShort(h);
    NatToStringShort(m);
    DigitsHaveNoColon(Pad2(h));
    DigitsHaveNoColon(Pad2(m));
    SplitAtOneColon(Pad2(h), Pad2(m));
  }

  /** The 12-hour text is an hour from 1 to 12, the padded minute and a
      marker that is PM exactly from noon on; read back by the timer's own
      `parseTimeString` it is the hour of the day it was made from. */
  lemma FormatTime12Reads(now: Instant)
    requires now.Valid()
    ensures var hours := now.Hours();
      var hour12 := if hours % 12 == 0 then 12 else hours % 12;
      var marker := if hours >= 12 then " PM" else " AM";
      1 <= hour12 <= 12 && (marker == " PM" <==> hours >= 12) &&
      FormatTime(true, now) == NatToString(hour12) + ":" + Pad2(now.Minutes()) + marker &&
      ParseHour(ClockText(hour12, now.Minutes(), marker)) == hours
  {
    var hours := now.Hours();
    assert 0 <= hours < 24;
    var hour12 := if hours % 12 == 0 then 12 else hours % 12;
    assert hour12 % 12 == hours % 12;
    assert hours == hours % 12 + (if hours >= 12 then 12 else 0);
    TwelveHourConvention(hour12, now.Minutes());
  }

  /** `formatCountdown()` as written: memoised with no dependencies, it keeps
      the hours, minutes and seconds of the first render, so the large
      countdown reads `00:00:00` whatever is left. */
  function ShownCountdownAsWritten(v: View): string
  {
    FormatCountdown(Hms(0, 0, 0))
  }

  /** With an hour left the large countdown still reads `00:00:00`. */
  lemma StaleCountdownAsWritten()
    ensures var v := SetTimeValues(View(Display(Text("Period 1"), Text("Period 2"), false, 0, 0, 0.0), Hms(0, 0, 0), false), HourMs);
      v.clock == Hms(1, 0, 0) && ShownCountdownAsWritten(v) == "00:00:00" && FormatCountdown(v.clock) == "01:00:00"
  {
  }

  /** The countdown evidently meant: the current hours, minutes and seconds. */
  function ShownCountdown(v: View): string
  {
    FormatCountdown(v.clock)
  }

  /** In a consistent view with time left, the countdown reads back as the
      split of that time. */
  lemma ShownCountdownReads(v: View)
    requires Consistent(v) && v.display.timeLeft >= 0
    ensures ReadCountdown(ShownCountdown(v)) == Some(Split(v.display.timeLeft))
  {
    SplitBounds(v.display.timeLeft);
    ReadFormatCountdown(v.clock);
  }

  /** At 08:20 on a Monday school is out. */
  lemma MondayEarlyIsOutside(v: View)
    ensures Resolve(v, PlusSchedules.Monday, "monday", "B", Instant(1, AtHourMinute(8, 20))).display.outside
  {
    var ps := PlusSchedules.Monday.periods;
    var t := AtHourMinute(8, 20);
    assert StartOf(ps[0]) == AtHourMinute(8, 25);
    forall j | 0 <= j < |ps|
      ensures !WarningBellAt(ps, j, t)
    {
      if j != 0 {
        assert ps[j].name != "Warning Bell";
      }
    }
    OutsideSchoolHours(v, PlusSchedules.Monday, "monday", "B", Instant(1, t));
  }

  /** At 08:26 on a Monday the warning bell of the first row is shown and
      the outside flag is left as it was. */
  lemma MondayBellKeepsFlag(v: View)
    ensures var r := Resolve(v, PlusSchedules.Monday, "monday", "B", Instant(1, AtHourMinute(8, 26)));
      r.display.current == Text("Warning Bell") && r.display.outside == v.display.outside
  {
    var ps := PlusSchedules.Monday.periods;
    assert StartOf(ps[0]) == AtHourMinute(8, 25) && EndOf(ps[0]) == AtHourMinute(8, 30);
    WarningBellTakesPrecedence(v, PlusSchedules.Monday, "monday", "B", Instant(1, AtHourMinute(8, 26)), 0);
  }

  /** A tick at 08:26 on a Monday with school marked out counts down to
      Tuesday's 08:25 and titles the tab `23:59:00 | Next Day`. */
  lemma MondayOutsideTick(d: Display, ps: seq<Period>, elapsed: int)
    requires d.outside
    ensures var o := TickTargetOf(d, ps, Instant(1, AtHourMinute(8, 26)), elapsed);
      o.remaining == 23 * HourMs + 59 * MinuteMs &&
      TickTitle(SecondsSplit(o.remaining), o, "monday", "B") == "23:59:00 | Next Day"
  {
    var now := Instant(1, AtHourMinute(8, 26));
    assert !BeforeOpening(now);
    var o := TickTargetOf(d, ps, now, elapsed);
    assert o == TickTarget(23 * HourMs + 59 * MinuteMs, Text("Next School Day"), false);
    NextDayTitle(o);
  }

  /** The title of 23 hours 59 minutes left until the next school day. */
  lemma NextDayTitle(o: TickTarget)
    requires o == TickTarget(23 * HourMs + 59 * MinuteMs, Text("Next School Day"), false)
    ensures TickTitle(SecondsSplit(o.remaining), o, "monday", "B") == "23:59:00 | Next Day"
  {
    assert SecondsSplit(o.remaining) == Hms(23, 59, 0);
    TitleOfNearlyADay();
    assert TitleNextEvent(o.nextEvent, "monday", "B") == "Next Day";
  }

  lemma TitleOfNearlyADay()
    ensures TitleCountdown(Hms(23, 59, 0)) == "23:59:00"
  {
    assert NatToString(2) == "2";
    assert NatToString(23) == "23";
    assert NatToString(5) == "5";
    assert NatToString(59) == "59";
    assert Pad2(59) == "59";
    assert Pad2(0) == "00";
  }

  /** Reading the schedule at 08:20 on a Monday, then at 08:26 during the
      warning bell, leaves school marked out: the next tick counts down to
      Tuesday's 08:25 and titles the tab `23:59:00 | Next Day`. */
  lemma WarningBellStaysOutsideAsWritten(v: View)
    ensures var ps := PlusSchedules.Monday.periods;
      var early := Resolve(v, PlusSchedules.Monday, "monday", "B", Instant(1, AtHourMinute(8, 20)));
      var bell := Resolve(early, PlusSchedules.Monday, "monday", "B", Instant(1, AtHourMinute(8, 26)));
      var o := TickTargetOf(bell.display, ps, Instant(1, AtHourMinute(8, 26)), 1000);
      bell.display.current == Text("Warning Bell") && bell.display.outside &&
      TickTitle(SecondsSplit(o.remaining), o, "monday", "B") == "23:59:00 | Next Day"
  {
    MondayEarlyIsOutside(v);
    var early := Resolve(v, PlusSchedules.Monday, "monday", "B", Instant(1, AtHourMinute(8, 20)));
    MondayBellKeepsFlag(early);
    var bell := Resolve(early, PlusSchedules.Monday, "monday", "B", Instant(1, AtHourMinute(8, 26)));
    MondayOutsideTick(bell.display, PlusSchedules.Monday.periods, 1000);
  }

  /** `findCurrentPeriod` with the warning bell evidently counted as school
      time: the bell branch also clears the outside flag. */
  function ResolveBellInSchool(v: View, sched: Schedule, currentSchedule: string, letter: string, now: Instant): (r: View)
    requires now.Valid()
  {
    var r := Resolve(v, sched, currentSchedule, letter, now);
    if |sched.periods| > 0 && FindWarningBell(sched.periods, 0, now.ms).Some? then
      r.(display := r.display.(outside := false))
    else r
  }

  /** With the correction, school is out only under the Free label, or on an
      empty schedule that leaves the flag as it was; during a warning bell
      the next tick counts down the time to the following row. */
  lemma BellInSchoolCountsDown(v: View, sched: Schedule, currentSchedule: string, letter: string,
                               now: Instant, elapsed: int, i: int)
    requires now.Valid() && Consistent(v)
    requires 0 <= i < |sched.periods| - 1 && WarningBellAt(sched.periods, i, now.ms)
    requires forall j :: 0 <= j < i ==> !WarningBellAt(sched.periods, j, now.ms)
    requires StartOf(sched.periods[i + 1]) > now.ms
    ensures var r := ResolveBellInSchool(v, sched, currentSchedule, letter, now);
      var left := StartOf(sched.periods[i + 1]) - now.ms;
      !r.display.outside && r.display.timeLeft == left &&
      TickTargetOf(r.display, sched.periods, now, elapsed).remaining == (if left - elapsed > 0 then left - elapsed else 0)
  {
    WarningBellTakesPrecedence(v, sched, currentSchedule, letter, now, i);
  }

  lemma BellInSchoolOutsideMeansFree(v: View, sched: Schedule, currentSchedule: string, letter: string, now: Instant)
    requires now.Valid() && Consistent(v)
    ensures var r := ResolveBellInSchool(v, sched, currentSchedule, letter, now);
      Consistent(r) &&
      (r.display.outside ==>
         (r.display.current == Text("Free") && r.display.next == Text("Next School Day")) ||
         (|sched.periods| == 0 && v.display.outside))
  {
    ResolveKeepsConsistent(v, sched, currentSchedule, letter, now);
  }

  /** The tick's loop over the rows before the last: the first row whose
      start minute is after `currentTimeMinutes`. */
  method ScanUpcoming(periods: seq<Period>, currentTimeMinutes: int) returns (r: Option<nat>)
    ensures r == FindUpcoming(periods, 0, currentTimeMinutes)
  {
    var i := 0;
    while i < |periods| - 1
      invariant 0 <= i <= |periods|
      invariant FindUpcoming(periods, i, currentTimeMinutes) == FindUpcoming(periods, 0, currentTimeMinutes)
    {
      var periodStart := ParseTimeString(periods[i].startTime);
      var periodStartMinutes := (periodStart % DayMs) / HourMs * 60 + ((periodStart % DayMs) % HourMs) / MinuteMs;
      assert periodStartMinutes == MinuteOfDay(periodStart) by {
        ModOfHour(periodStart % DayMs);
      }
      if currentTimeMinutes < periodStartMinutes {
        return Some(i);
      }
      i := i + 1;
    }
    return None;
  }

  /** The first half of `updateCountdown()`: the time left and next event. */
  method ChooseTickTarget(d: Display, periods: seq<Period>, now: Instant, timeDiff: int) returns (o: TickTarget)
    requires now.Valid()
    ensures o == TickTargetOf(d, periods, now, timeDiff)
  {
    if d.outside {
      return TickTarget(CalculateTimeUntilNextSchoolDay(now), Text("Next School Day"), false);
    } else if d.timeLeft > 0 {
      return TickTarget(if d.timeLeft - timeDiff > 0 then d.timeLeft - timeDiff else 0, d.next, false);
    }
    var currentTimeMinutes := now.Hours() * 60 + now.Minutes();
    var found := ScanUpcoming(periods, currentTimeMinutes);
    if found.Some? {
      var periodStart := ParseTimeString(periods[found.value].startTime);
      return TickTarget(periodStart - now.ms, Text(periods[found.value].name), true);
    }
    return TickTarget(CalculateTimeUntilNextSchoolDay(now), Text("Next School Day"), true);
  }

  /** The `schedules` key of a weekday, as the mount effect's `switch` picks it. */
  function DayKey(weekday: int): (r: string)
    ensures r == PlusSchedules.GetCurrentDaySchedule(weekday).name
  {
    match weekday
    case 0 => "sunday"
    case 1 => "monday"
    case 2 => "tuesday"
    case 3 => "wednesday"
    case 4 => "thursday"
    case 5 => "friday"
    case 6 => "saturday"
    case _ => "monday"
  }

  /** The view before anything has been computed. */
  const InitialView: View := View(Display(Text("Loading..."), Text(""), false, 0, 0, 0.0), Hms(0, 0, 0), false)

  /** The state of the redesigned timer component: its React state slots,
      the `lastUpdateTimeRef` ref, the document's title and the favicon
      module it drives. Clock readings are passed in: `now` is `new Date()`
      and `clockMs` is `Date.now()`. */
  class BellTimer {
    var view: View
    var currentTime: Instant
    var activeSchedule: Schedule
    var currentSchedule: string
    var scheduleName: string
    var assemblyLetter: string
    var mounted: bool
    var use12HourFormat: bool
    var lastUpdateTime: int
    var title: string
    const favicon: Favicon.IconCache

    /** The initial `useState` and `useRef` values. */
    constructor(now: Instant, clockMs: int, pageTitle: string, icons: Favicon.IconCache)
      ensures view == InitialView && currentTime == now
      ensures activeSchedule == PlusSchedules.GetCurrentDaySchedule(now.weekday)
      ensures currentSchedule == "" && scheduleName == "" && assemblyLetter == "B"
      ensures !mounted && !use12HourFormat && lastUpdateTime == clockMs
      ensures title == pageTitle && favicon == icons
    {
      view := InitialView;
      currentTime := now;
      activeSchedule := PlusSchedules.GetCurrentDaySchedule(now.weekday);
      currentSchedule := "";
      scheduleName := "";
      assemblyLetter := "B";
      mounted := false;
      use12HourFormat := false;
      lastUpdateTime := clockMs;
      title := pageTitle;
      favicon := icons;
    }

    /** The first effect: the component is mounted. */
    method Mount()
      modifies this
      ensures mounted
      ensures view == old(view) && currentTime == old(currentTime) && activeSchedule == old(activeSchedule)
      ensures currentSchedule == old(currentSchedule) && scheduleName == old(scheduleName)
      ensures assemblyLetter == old(assemblyLetter) && use12HourFormat == old(use12HourFormat)
      ensures lastUpdateTime == old(lastUpdateTime) && title == old(title)
    {
      mounted := true;
    }

    /** `checkClockFormat()`: the stored flag is on exactly when it reads "true". */
    method CheckClockFormat(stored: Option<string>)
      modifies this
      ensures use12HourFormat == (stored == Some("true"))
      ensures view == old(view) && currentTime == old(currentTime) && activeSchedule == old(activeSchedule)
      ensures currentSchedule == old(currentSchedule) && scheduleName == old(scheduleName)
      ensures assemblyLetter == old(assemblyLetter) && mounted == old(mounted)
      ensures lastUpdateTime == old(lastUpdateTime) && title == old(title)
    {
      use12HourFormat := stored == Some("true");
    }

    /** `findCurrentPeriod(now)`, the only writer of the displayed period. */
    method FindCurrentPeriod(now: Instant)
      requires now.Valid()
      modifies this
      ensures view == Resolve(old(view), activeSchedule, currentSchedule, assemblyLetter, now)
      ensures Consistent(old(view)) ==> Consistent(view)
      ensures currentTime == old(currentTime) && activeSchedule == old(activeSchedule)
      ensures currentSchedule == old(currentSchedule) && scheduleName == old(scheduleName)
      ensures assemblyLetter == old(assemblyLetter) && mounted == old(mounted)
      ensures use12HourFormat == old(use12HourFormat) && lastUpdateTime == old(lastUpdateTime) && title == old(title)
    {
      if Consistent(view) {
        ResolveKeepsConsistent(view, activeSchedule, currentSchedule, assemblyLetter, now);
      }
      view := ChooseView(view, activeSchedule, currentSchedule, assemblyLetter, now);
    }

    /** The mount effect: once mounted, today's schedule is selected and
        the rest follows `LoadTodaySchedule`. */
    method InitialiseSchedule(now: Instant, clockMs: int)
      requires now.Valid()
      modifies this, favicon
      ensures old(mounted) ==>
        currentTime == now && activeSchedule == PlusSchedules.GetCurrentDaySchedule(now.weekday) &&
        currentSchedule == activeSchedule.name && scheduleName == activeSchedule.displayName &&
        view == Resolve(old(view), old(activeSchedule), old(currentSchedule), assemblyLetter, now) &&
        lastUpdateTime == clockMs &&
        favicon.State() == Favicon.UpdateFaviconState(old(favicon.State()), 60, 0, false)
      ensures !old(mounted) ==>
        view == old(view) && currentTime == old(currentTime) && activeSchedule == old(activeSchedule) &&
        currentSchedule == old(currentSchedule) && scheduleName == old(scheduleName) &&
        lastUpdateTime == old(lastUpdateTime) && favicon.State() == old(favicon.State())
      ensures assemblyLetter == old(assemblyLetter) && mounted == old(mounted)
      ensures use12HourFormat == old(use12HourFormat) && title == old(title)
    {
      if mounted {
        LoadTodaySchedule(now, clockMs);
      }
    }

    /** The body of the mount effect: today's schedule is selected, the
        period found with the schedule of the render that scheduled the
        effect, the tick reference reset and the favicon shown at an hour
        left. */
    method LoadTodaySchedule(now: Instant, clockMs: int)
      requires now.Valid()
      modifies this, favicon
      ensures currentTime == now && activeSchedule == PlusSchedules.GetCurrentDaySchedule(now.weekday)
      ensures currentSchedule == activeSchedule.name && scheduleName == activeSchedule.displayName
      ensures view == Resolve(old(view), old(activeSchedule), old(currentSchedule), assemblyLetter, now)
      ensures lastUpdateTime == clockMs
      ensures favicon.State() == Favicon.UpdateFaviconState(old(favicon.State()), 60, 0, false)
      ensures assemblyLetter == old(assemblyLetter) && mounted == old(mounted)
      ensures use12HourFormat == old(use12HourFormat) && title == old(title)
    {
      currentTime := now;
      var scheduleKey := DayKey(now.weekday);
      ghost var today := PlusSchedules.GetCurrentDaySchedule(now.weekday);
      assert scheduleKey == today.name && scheduleKey in PlusSchedules.Table;
      var todaySchedule := PlusSchedules.Table[scheduleKey];
      assert todaySchedule == today;
      var found := ChooseView(view, activeSchedule, currentSchedule, assemblyLetter, now);
      view := found;
      activeSchedule := todaySchedule;
      currentSchedule := scheduleKey;
      scheduleName := todaySchedule.displayName;
      lastUpdateTime := clockMs;
      favicon.UpdateFavicon(60, 0, false);
    }

    /** `handleScheduleChange(name)`: a name with no schedule changes nothing. */
    method HandleScheduleChange(name: string)
      modifies this
      ensures name in PlusSchedules.Table ==>
        activeSchedule == PlusSchedules.Table[name] && currentSchedule == name &&
        scheduleName == PlusSchedules.Table[name].displayName
      ensures name !in PlusSchedules.Table ==>
        activeSchedule == old(activeSchedule) && currentSchedule == old(currentSchedule) && scheduleName == old(scheduleName)
      ensures view == old(view) && currentTime == old(currentTime) && assemblyLetter == old(assemblyLetter)
      ensures mounted == old(mounted) && use12HourFormat == old(use12HourFormat)
      ensures lastUpdateTime == old(lastUpdateTime) && title == old(title)
    {
      if name in PlusSchedules.Table {
        var newSchedule := PlusSchedules.Table[name];
        activeSchedule := newSchedule;
        currentSchedule := name;
        scheduleName := newSchedule.displayName;
      }
    }

    /** `handleAssemblyLetterChange(letter)` */
    method HandleAssemblyLetterChange(letter: string)
      modifies this
      ensures assemblyLetter == letter
      ensures view == old(view) && currentTime == old(currentTime) && activeSchedule == old(activeSchedule)
      ensures currentSchedule == old(currentSchedule) && scheduleName == old(scheduleName)
      ensures mounted == old(mounted) && use12HourFormat == old(use12HourFormat)
      ensures lastUpdateTime == old(lastUpdateTime) && title == old(title)
    {
      assemblyLetter := letter;
    }

    /** `updateCountdown()`: one tick. The countdown, progress and next
        event follow `TickView`, the favicon is passed the minutes within
        the hour, and the title is written once the component is mounted
        and a period has been found. */
    method UpdateCountdown(now: Instant, clockMs: int)
      requires now.Valid()
      modifies this, favicon
      ensures var o := TickTargetOf(old(view.display), activeSchedule.periods, now, clockMs - old(lastUpdateTime));
        var t := SecondsSplit(o.remaining);
        view == TickView(old(view), o) &&
        favicon.State() == Favicon.UpdateFaviconState(old(favicon.State()), t.m, t.s, old(view.display.outside)) &&
        title == (if mounted && view.display.current != Text("Loading...")
                  then TickTitle(t, o, currentSchedule, assemblyLetter) else old(title))
      ensures lastUpdateTime == clockMs && currentTime == now
      ensures activeSchedule == old(activeSchedule) && currentSchedule == old(currentSchedule)
      ensures scheduleName == old(scheduleName) && assemblyLetter == old(assemblyLetter)
      ensures mounted == old(mounted) && use12HourFormat == old(use12HourFormat)
    {
      var timeDiff := clockMs - lastUpdateTime;
      lastUpdateTime := clockMs;
      currentTime := now;
      var o := ChooseTickTarget(view.display, activeSchedule.periods, now, timeDiff);
      var split := SecondsSplit(o.remaining);
      var outside := view.display.outside;
      var ticked := TickView(view, o);
      view := ticked;
      favicon.UpdateFavicon(split.m, split.s, outside);
      if mounted && ticked.display.current != Text("Loading...") {
        title := TickTitle(split, o, currentSchedule, assemblyLetter);
      }
    }

    /** The unmount cleanup: the title and a grey icon are restored. */
    method Unmount()
      modifies this, favicon
      ensures title == "Bell Timer"
      ensures favicon.State() == Favicon.UpdateFaviconState(old(favicon.State()), 60, 0, true)
      ensures view == old(view) && currentTime == old(currentTime) && activeSchedule == old(activeSchedule)
      ensures currentSchedule == old(currentSchedule) && scheduleName == old(scheduleName)
      ensures assemblyLetter == old(assemblyLetter) && mounted == old(mounted)
      ensures use12HourFormat == old(use12HourFormat) && lastUpdateTime == old(lastUpdateTime)
    {
      title := "Bell Timer";
      favicon.UpdateFavicon(60, 0, true);
    }

    /** The large countdown as rendered. */
    function ShownCountdown(): string
      reads this
    {
      ShownCountdownAsWritten(view)
    }

    /** The clock line as rendered. */
    function ShownTime(): string
      reads this
    {
      FormatTime(use12HourFormat, currentTime)
    }
  }
}
