/** The stand-alone timer: a reduced copy that always uses today's schedule
    of the redesigned timer, reads schedule hours literally, skips warning
    bell rows, and counts down to the next morning's warning bell. Its state
    is the current and next label, the time left and the countdown fields. */
module TimerStandalone {
  import opened JsText
  import opened Timing
  import opened Schedules
  import PlusSchedules
  import TimerPlus

  /** How schedule hours are read: as written (`Literal`, what this timer
      does), or with the redesigned timer's afternoon rule (`SchoolDay`). */
  datatype HourRule = Literal | SchoolDay

  /** `parseTimeString(timeString)`: `split(':').map(Number)` then
      `setHours(h, m, 0, 0)`. */
  function ParseTimeString(rule: HourRule, t: ClockText): int
  {
    match rule
    case Literal => AtHourMinute(t.hour, t.minute)
    case SchoolDay => TimerPlus.ParseTimeString(t)
  }

  function StartOf(rule: HourRule, p: Period): int
  {
    ParseTimeString(rule, p.startTime)
  }

  function EndOf(rule: HourRule, p: Period): int
  {
    ParseTimeString(rule, p.endTime)
  }

  /** Hours are taken as written: "1:28" is 01:28. */
  lemma LiteralHours(h: nat, m: nat)
    ensures ParseTimeString(Literal, ClockText(h, m, "")) == h * HourMs + m * MinuteMs
    ensures 1 <= h <= 6 ==> ParseTimeString(SchoolDay, ClockText(h, m, "")) == (h + 12) * HourMs + m * MinuteMs
  {
    if 1 <= h <= 6 {
      assert !TimerPlus.HasMarker(ClockText(h, m, ""), "pm") by {
        assert Lower("") == "";
      }
      assert !TimerPlus.HasMarker(ClockText(h, m, ""), "am") by {
        assert Lower("") == "";
      }
    }
  }

  /** `now.getHours() >= 15 || (now.getHours() === 15 && now.getMinutes() >= 3)` */
  predicate PastSchoolHoursAsWritten(now: Instant)
  {
    now.Hours() >= 15 || (now.Hours() == 15 && now.Minutes() >= 3)
  }

  /** The roll-over test the comment beside it describes: after 3:03 PM. */
  predicate PastSchoolHours(now: Instant)
  {
    now.Hours() > 15 || (now.Hours() == 15 && now.Minutes() >= 3)
  }

  /** The warning bell time of a weekday: 09:12 on Wednesday, else 08:25. */
  function BellTime(weekday: int): int
  {
    if weekday == 3 then AtHourMinute(9, 12) else AtHourMinute(8, 25)
  }

  /** Days ahead and time of day of the target, from the roll-over test:
      the target day is today or tomorrow, set to its bell time, and a
      weekend target moves on to Monday 08:25. */
  function Target(now: Instant, rolled: bool): (int, int)
  {
    var day := if rolled then 1 else 0;
    var targetDay := DayAfter(now.weekday, day);
    if targetDay == 0 then (day + 1, AtHourMinute(8, 25))
    else if targetDay == 6 then (day + 2, AtHourMinute(8, 25))
    else (day, BellTime(targetDay))
  }

  /** `calculateTimeUntilNextSchoolDay()`, with its clock reading taken as `now`. */
  function CalculateTimeUntilNextSchoolDay(now: Instant): int
  {
    var target := Target(now, PastSchoolHoursAsWritten(now));
    target.0 * DayMs + target.1 - now.ms
  }

  /** The target is always a school day's warning bell: Monday to Friday,
      at 09:12 exactly on a Wednesday, today or up to three days on. */
  lemma TargetIsSchoolMorning(now: Instant, rolled: bool)
    requires now.Valid()
    ensures var target := Target(now, rolled);
      var day := DayAfter(now.weekday, target.0);
      0 <= target.0 <= 3 && IsSchoolDay(day) && target.1 == BellTime(day)
  {
  }

  /** The test as written rolls over from 15:00; its second half adds nothing. */
  lemma RollOverAsWritten(now: Instant)
    requires now.Valid()
    ensures PastSchoolHoursAsWritten(now) <==> now.ms >= AtHourMinute(15, 0)
  {
  }

  /** The corrected test rolls over from 15:03. */
  lemma RollOverCorrected(now: Instant)
    requires now.Valid()
    ensures PastSchoolHours(now) <==> now.ms >= AtHourMinute(15, 3)
  {
  }

  /** The result is negative exactly on the days the target stays today after
      its bell has rung: a school day before the roll-over, after 08:25 (or
      09:12 on a Wednesday). Monday at 10:00 gives almost minus two hours. */
  lemma NegativeBeforeRollOver(now: Instant)
    requires now.Valid()
    ensures CalculateTimeUntilNextSchoolDay(now) < 0 <==>
      IsSchoolDay(now.weekday) && !PastSchoolHoursAsWritten(now) && now.ms > BellTime(now.weekday)
    ensures CalculateTimeUntilNextSchoolDay(Instant(1, AtHourMinute(10, 0))) == AtHourMinute(8, 25) - AtHourMinute(10, 0)
  {
  }

  /** The displayed state: current and next label, time left and the
      countdown fields. */
  datatype Shown = Shown(current: string, next: string, timeLeft: int, clock: Hms)

  /** `setTimeValues(ms)` */
  function SetTimeValues(v: Shown, ms: int): (r: Shown)
    ensures r.timeLeft == ms && r.clock == Split(ms) && r.current == v.current && r.next == v.next
  {
    v.(timeLeft := ms, clock := Split(ms))
  }

  /** Row `i` holds `t` and is not a warning bell. */
  predicate InRow(rule: HourRule, ps: seq<Period>, i: int, t: int)
    requires 0 <= i < |ps|
  {
    ps[i].name != "Warning Bell" && StartOf(rule, ps[i]) <= t < EndOf(rule, ps[i])
  }

  /** `t` lies between the end of row `i`, not a warning bell, and the next start. */
  predicate InGap(rule: HourRule, ps: seq<Period>, i: int, t: int)
    requires 0 <= i < |ps| - 1
  {
    ps[i].name != "Warning Bell" && EndOf(rule, ps[i]) <= t < StartOf(rule, ps[i + 1])
  }

  predicate Hits(rule: HourRule, ps: seq<Period>, i: int, t: int)
    requires 0 <= i < |ps| - 1
  {
    InRow(rule, ps, i, t) || InGap(rule, ps, i, t)
  }

  /** The loop of `findCurrentPeriod` from index `from` on: the first row
      before the last that holds `t` or whose following gap does. */
  function FindHit(rule: HourRule, ps: seq<Period>, from: nat, t: int): (r: Option<nat>)
    ensures r.Some? ==> from <= r.value < |ps| - 1 && Hits(rule, ps, r.value, t) &&
                        (forall j :: from <= j < r.value ==> !Hits(rule, ps, j, t))
    ensures r.None? ==> forall j :: from <= j < |ps| - 1 ==> !Hits(rule, ps, j, t)
    decreases |ps| - from
  {
    if from >= |ps| - 1 then None
    else if Hits(rule, ps, from, t) then Some(from)
    else FindHit(rule, ps, from + 1, t)
  }

  /** The countdown to the next warning bell, labelled `current`. */
  function Waiting(v: Shown, current: string, now: Instant): (r: Shown)
    ensures r.current == current && r.next == "Next Warning Bell"
    ensures r.timeLeft == CalculateTimeUntilNextSchoolDay(now) && r.clock == Split(r.timeLeft)
  {
    SetTimeValues(v.(current := current, next := "Next Warning Bell"), CalculateTimeUntilNextSchoolDay(now))
  }

  /** The state for a hit at row `i`: the row itself, or the passing gap after it. */
  function HitView(v: Shown, rule: HourRule, ps: seq<Period>, i: int, t: int): (r: Shown)
    requires 0 <= i < |ps| - 1 && Hits(rule, ps, i, t)
    ensures r.next == ps[i + 1].name && r.timeLeft > 0 && r.clock == Split(r.timeLeft)
    ensures InRow(rule, ps, i, t) ==> r.current == ps[i].name && r.timeLeft == EndOf(rule, ps[i]) - t
    ensures !InRow(rule, ps, i, t) ==> r.current == "Passing" && r.timeLeft == StartOf(rule, ps[i + 1]) - t
  {
    if InRow(rule, ps, i, t) then
      SetTimeValues(v.(current := ps[i].name, next := ps[i + 1].name), EndOf(rule, ps[i]) - t)
    else
      SetTimeValues(v.(current := "Passing", next := ps[i + 1].name), StartOf(rule, ps[i + 1]) - t)
  }

  /** `findCurrentPeriod(now)` on the schedule `sched`, reading hours by `rule`. */
  function Resolve(v: Shown, rule: HourRule, sched: Schedule, now: Instant): Shown
  {
    var ps := sched.periods;
    var t := now.ms;
    if |ps| == 0 then Waiting(v, "No schedule available", now)
    else if t < StartOf(rule, ps[0]) || t >= EndOf(rule, ps[|ps| - 1]) then Waiting(v, "Free", now)
    else
      match FindHit(rule, ps, 0, t)
      case Some(i) => HitView(v, rule, ps, i, t)
      case None =>
        var last := ps[|ps| - 1];
        if StartOf(rule, last) <= t < EndOf(rule, last) then
          SetTimeValues(v.(current := last.name, next := "Free"), EndOf(rule, last) - t)
        else Waiting(v, "Free", now)
  }

  /** An empty schedule or a time outside school hours counts down to the
      next warning bell, as "No schedule available" or "Free". */
  lemma EmptyOrOutside(v: Shown, rule: HourRule, sched: Schedule, now: Instant)
    requires |sched.periods| == 0 ||
      now.ms < StartOf(rule, sched.periods[0]) || now.ms >= EndOf(rule, sched.periods[|sched.periods| - 1])
    ensures var r := Resolve(v, rule, sched, now);
      r.current == (if |sched.periods| == 0 then "No schedule available" else "Free") &&
      r.next == "Next Warning Bell" && r.timeLeft == CalculateTimeUntilNextSchoolDay(now)
  {
  }

  /** Inside school hours the result is one of four: the first row or gap
      that holds `now` (never a warning bell row), the last row with "Free"
      next, or the fallback to "Free" counting down to the next warning
      bell. Every countdown but the fallback's is positive. */
  lemma InsideHoursCases(v: Shown, rule: HourRule, sched: Schedule, now: Instant)
    requires |sched.periods| > 0
    requires StartOf(rule, sched.periods[0]) <= now.ms < EndOf(rule, sched.periods[|sched.periods| - 1])
    ensures var ps := sched.periods;
      var r := Resolve(v, rule, sched, now);
      var last := ps[|ps| - 1];
      r.clock == Split(r.timeLeft) &&
      ((exists i :: 0 <= i < |ps| - 1 && Hits(rule, ps, i, now.ms) &&
          (r.current == ps[i].name || r.current == "Passing") && r.current != "Warning Bell" &&
          r.next == ps[i + 1].name && r.timeLeft > 0) ||
       (StartOf(rule, last) <= now.ms && r.current == last.name && r.next == "Free" &&
          r.timeLeft == EndOf(rule, last) - now.ms && r.timeLeft > 0) ||
       (r.current == "Free" && r.next == "Next Warning Bell" && r.timeLeft == CalculateTimeUntilNextSchoolDay(now)))
  {
    var ps := sched.periods;
    var f := FindHit(rule, ps, 0, now.ms);
    if f.Some? {
      var i := f.value;
      assert Hits(rule, ps, i, now.ms);
    }
  }

  /** A "Warning Bell" label is shown only when the last row carries it:
      the loop skips every warning bell row before it. */
  lemma WarningBellNeverShown(v: Shown, rule: HourRule, sched: Schedule, now: Instant)
    requires |sched.periods| > 0 ==> sched.periods[|sched.periods| - 1].name != "Warning Bell"
    ensures Resolve(v, rule, sched, now).current != "Warning Bell"
  {
  }

  /** Monday at 13:30, in the middle of Period 6, read as written: every row
      from Lunch on starts in the small hours, so nothing before the last row
      matches and the trailing Free row, from 03:03 to 23:59, is shown. */
  lemma MondayAfternoonAsWritten(v: Shown)
    ensures var r := Resolve(v, Literal, PlusSchedules.Monday, Instant(1, AtHourMinute(13, 30)));
      r.current == "Free" && r.next == "Free" && r.timeLeft == AtHourMinute(23, 59) - AtHourMinute(13, 30)
  {
    var ps := PlusSchedules.Monday.periods;
    var t := AtHourMinute(13, 30);
    assert FindHit(Literal, ps, 10, t) == None;
    assert FindHit(Literal, ps, 9, t) == None;
    assert FindHit(Literal, ps, 8, t) == None;
    assert FindHit(Literal, ps, 7, t) == None;
    assert FindHit(Literal, ps, 6, t) == None;
    assert FindHit(Literal, ps, 5, t) == None;
    assert FindHit(Literal, ps, 4, t) == None;
    assert FindHit(Literal, ps, 3, t) == None;
    assert FindHit(Literal, ps, 2, t) == None;
    assert FindHit(Literal, ps, 1, t) == None;
    assert FindHit(Literal, ps, 0, t) == None;
  }

  /** A time with no marker, read by the afternoon rule. */
  lemma BareTime(t: ClockText)
    requires t.suffix == ""
    ensures ParseTimeString(SchoolDay, t) == AtHourMinute(if 1 <= t.hour <= 6 then t.hour + 12 else t.hour, t.minute)
  {
    assert Lower(t.suffix) == "";
  }

  /** With the redesigned timer's afternoon rule, Monday at 13:30 is in
      Period 6, 44 minutes before it ends, with Period 7 next. */
  lemma MondayAfternoonCorrected(v: Shown)
    ensures var r := Resolve(v, SchoolDay, PlusSchedules.Monday, Instant(1, AtHourMinute(13, 30)));
      r.current == "Period 6" && r.next == "Period 7" && r.timeLeft == 44 * MinuteMs
  {
    var ps := PlusSchedules.Monday.periods;
    var t := AtHourMinute(13, 30);
    BareTime(ps[0].startTime); BareTime(ps[0].endTime);
    BareTime(ps[1].startTime); BareTime(ps[1].endTime);
    BareTime(ps[2].startTime); BareTime(ps[2].endTime);
    BareTime(ps[3].startTime); BareTime(ps[3].endTime);
    BareTime(ps[4].startTime); BareTime(ps[4].endTime);
    BareTime(ps[5].startTime); BareTime(ps[5].endTime);
    BareTime(ps[6].startTime); BareTime(ps[6].endTime);
    BareTime(ps[7].startTime); BareTime(ps[7].endTime);
    BareTime(ps[8].startTime); BareTime(ps[8].endTime);
    assert InRow(SchoolDay, ps, 8, t);
    assert FindHit(SchoolDay, ps, 8, t) == Some(8);
    assert FindHit(SchoolDay, ps, 7, t) == Some(8);
    assert FindHit(SchoolDay, ps, 6, t) == Some(8);
    assert FindHit(SchoolDay, ps, 5, t) == Some(8);
    assert FindHit(SchoolDay, ps, 4, t) == Some(8);
    assert FindHit(SchoolDay, ps, 3, t) == Some(8);
    assert FindHit(SchoolDay, ps, 2, t) == Some(8);
    assert FindHit(SchoolDay, ps, 1, t) == Some(8);
    assert FindHit(SchoolDay, ps, 0, t) == Some(8);
  }

  /** The countdown fields agree with the time left. */
  predicate Consistent(v: Shown)
  {
    v.clock == Split(v.timeLeft)
  }

  /** One tick's state: the time left counts down to zero; once it is not
      positive the period is found again on today's schedule. */
  function Tick(v: Shown, now: Instant, elapsed: int): (r: Shown)
  {
    if v.timeLeft > 0 then
      var remaining := if v.timeLeft - elapsed > 0 then v.timeLeft - elapsed else 0;
      v.(timeLeft := remaining, clock := TimerPlus.SecondsSplit(remaining))
    else Resolve(v, Literal, PlusSchedules.GetCurrentDaySchedule(now.weekday), now)
  }

  /** A tick keeps the countdown fields in step with the time left; a
      positive time left decreases to no less than zero with the labels
      kept, and only a time left of zero or below finds the period again. */
  lemma TickKeepsConsistent(v: Shown, now: Instant, elapsed: int)
    ensures var r := Tick(v, now, elapsed);
      (Consistent(v) || v.timeLeft > 0 ==> Consistent(r)) &&
      (v.timeLeft > 0 ==> r.current == v.current && r.next == v.next && 0 <= r.timeLeft &&
                          (elapsed >= 0 ==> r.timeLeft <= v.timeLeft)) &&
      (v.timeLeft <= 0 ==> r == Resolve(v, Literal, PlusSchedules.GetCurrentDaySchedule(now.weekday), now))
  {
    if v.timeLeft > 0 {
      var remaining := if v.timeLeft - elapsed > 0 then v.timeLeft - elapsed else 0;
      TimerPlus.SecondsSplitAgrees(remaining);
    }
  }

  /** `findCurrentPeriod(now)`'s scan, from the first row to the one before the last. */
  method ScanRows(rule: HourRule, periods: seq<Period>, t: int) returns (r: Option<nat>)
    ensures r == FindHit(rule, periods, 0, t)
  {
    var i := 0;
    while i < |periods| - 1
      invariant 0 <= i <= |periods|
      invariant FindHit(rule, periods, i, t) == FindHit(rule, periods, 0, t)
    {
      if periods[i].name != "Warning Bell" {
        var currentPeriodStart := ParseTimeString(rule, periods[i].startTime);
        var currentPeriodEnd := ParseTimeString(rule, periods[i].endTime);
        var nextPeriodStart := ParseTimeString(rule, periods[i + 1].startTime);
        if t >= currentPeriodStart && t < currentPeriodEnd {
          return Some(i);
        }
        if t >= currentPeriodEnd && t < nextPeriodStart {
          return Some(i);
        }
      }
      i := i + 1;
    }
    return None;
  }

  /** The body of `findCurrentPeriod(now)` on the schedule `sched`. */
  method ChooseShown(v: Shown, rule: HourRule, sched: Schedule, now: Instant) returns (r: Shown)
    ensures r == Resolve(v, rule, sched, now)
  {
    var periods := sched.periods;
    if |periods| == 0 {
      return Waiting(v, "No schedule available", now);
    }
    var firstPeriodStart := ParseTimeString(rule, periods[0].startTime);
    var lastPeriodEnd := ParseTimeString(rule, periods[|periods| - 1].endTime);
    if now.ms < firstPeriodStart || now.ms >= lastPeriodEnd {
      return Waiting(v, "Free", now);
    }
    var hit := ScanRows(rule, periods, now.ms);
    if hit.Some? {
      return HitView(v, rule, periods, hit.value, now.ms);
    }
    var lastPeriod := periods[|periods| - 1];
    var lastPeriodStart := ParseTimeString(rule, lastPeriod.startTime);
    var finalPeriodEnd := ParseTimeString(rule, lastPeriod.endTime);
    if now.ms >= lastPeriodStart && now.ms < finalPeriodEnd {
      return SetTimeValues(v.(current := lastPeriod.name, next := "Free"), finalPeriodEnd - now.ms);
    }
    return Waiting(v, "Free", now);
  }

  /** The component's state: its React state slots, the
      `lastUpdateTimeRef` ref and the document's title. */
  class StandaloneBellTimer {
    var view: Shown
    var currentTime: Instant
    var mounted: bool
    var lastUpdateTime: int
    var title: string

    /** The initial `useState` and `useRef` values. */
    constructor(now: Instant, clockMs: int, pageTitle: string)
      ensures view == Shown("Loading...", "", 0, Hms(0, 0, 0)) && currentTime == now
      ensures !mounted && lastUpdateTime == clockMs && title == pageTitle
    {
      view := Shown("Loading...", "", 0, Hms(0, 0, 0));
      currentTime := now;
      mounted := false;
      lastUpdateTime := clockMs;
      title := pageTitle;
    }

    /** The first effect: the component is mounted. */
    method Mount()
      modifies this
      ensures mounted && view == old(view) && currentTime == old(currentTime)
      ensures lastUpdateTime == old(lastUpdateTime) && title == old(title)
    {
      mounted := true;
    }

    /** `findCurrentPeriod(now)`, on the schedule of the day `now` falls on. */
    method FindCurrentPeriod(now: Instant)
      modifies this
      ensures view == Resolve(old(view), Literal, PlusSchedules.GetCurrentDaySchedule(now.weekday), now)
      ensures currentTime == old(currentTime) && mounted == old(mounted)
      ensures lastUpdateTime == old(lastUpdateTime) && title == old(title)
    {
      var activeSchedule := PlusSchedules.GetCurrentDaySchedule(now.weekday);
      view := ChooseShown(view, Literal, activeSchedule, now);
    }

    /** The timer effect, once mounted: the clock is read, the period found
        and the tick reference reset. */
    method StartTimer(now: Instant, clockMs: int)
      modifies this
      ensures old(mounted) ==>
        (currentTime == now && lastUpdateTime == clockMs &&
         view == Resolve(old(view), Literal, PlusSchedules.GetCurrentDaySchedule(now.weekday), now))
      ensures !old(mounted) ==> view == old(view) && currentTime == old(currentTime) && lastUpdateTime == old(lastUpdateTime)
      ensures mounted == old(mounted) && title == old(title)
    {
      if !mounted {
        return;
      }
      currentTime := now;
      FindCurrentPeriod(now);
      lastUpdateTime := clockMs;
    }

    /** `updateCountdown()` at `now`, read as `clockMs` on the wall clock.
        The title is built from the countdown and the label of the render
        the tick runs in, so it shows the state before this tick. */
    method UpdateCountdown(now: Instant, clockMs: int)
      modifies this
      ensures view == Tick(old(view), now, clockMs - old(lastUpdateTime))
      ensures title == (if mounted then Timing.FormatCountdown(old(view.clock)) + " | " + old(view.current) else old(title))
      ensures currentTime == now && lastUpdateTime == clockMs && mounted == old(mounted)
    {
      var timeDiff := clockMs - lastUpdateTime;
      lastUpdateTime := clockMs;
      currentTime := now;
      var rendered := view;
      if view.timeLeft > 0 {
        var remainingMs := if view.timeLeft - timeDiff > 0 then view.timeLeft - timeDiff else 0;
        var totalSeconds := remainingMs / SecondMs;
        var hoursValue := totalSeconds / 3600;
        var minutesValue := JsRem(totalSeconds, 3600) / 60;
        var secondsValue := JsRem(totalSeconds, 60);
        view := view.(timeLeft := remainingMs, clock := Hms(hoursValue, minutesValue, secondsValue));
      } else {
        FindCurrentPeriod(now);
      }
      if mounted {
        title := Timing.FormatCountdown(rendered.clock) + " | " + rendered.current;
      }
    }

    /** The large countdown as rendered. */
    function ShownCountdown(): string
      reads this
    {
      Timing.FormatCountdown(view.clock)
    }
  }
}
