/** The main bell timer: which period `now` falls in, how long is left until
    the next one starts, and the countdown to the next school morning.
    A period here lasts from its own start until the next period's start,
    so there is no passing state. */
module TimerMain {
  import opened JsText
  import opened Timing
  import opened Schedules

  /** `parseTimeString`: hours 1 to 7 are afternoon hours. */
  function ParseTimeString(t: ClockText): int
  {
    AtHourMinute(if 1 <= t.hour < 8 then t.hour + 12 else t.hour, t.minute)
  }

  /** Hours 1 to 7 move twelve hours on, every other hour is read as
      written, and the minutes are kept: the time lands on the day's
      afternoon exactly for the bare hours 1 to 7. */
  lemma ParseTimeStringHours(t: ClockText)
    requires 0 <= t.hour < 24 && 0 <= t.minute < 60
    ensures 1 <= t.hour < 8 ==> ParseTimeString(t) == AtHourMinute(t.hour + 12, t.minute)
    ensures !(1 <= t.hour < 8) ==> ParseTimeString(t) == AtHourMinute(t.hour, t.minute)
    ensures 0 <= ParseTimeString(t) < DayMs
    ensures ParseTimeString(t) % HourMs == t.minute * MinuteMs
    ensures AtHourMinute(13, 0) <= ParseTimeString(t) < AtHourMinute(20, 0) <==> 1 <= t.hour < 8 || 13 <= t.hour < 20
  {
  }

  function StartOf(p: Period): int
  {
    ParseTimeString(p.startTime)
  }

  function EndOf(p: Period): int
  {
    ParseTimeString(p.endTime)
  }

  /** `calculateTimeUntilNextSchoolDay()`, with the clock reading that
      function takes passed in as `now`. */
  function CalculateTimeUntilNextSchoolDay(now: Instant): (r: int)
    requires now.Valid()
    ensures 0 < r < 4 * DayMs
  {
    DaysAhead(now.weekday) * DayMs + AtHourMinute(8, 25) - now.ms
  }

  /** The countdown always aims at 08:25 of the first school day strictly
      after today, even when today is a school day that has not begun. */
  lemma NextSchoolDayIsFirstAfterToday(now: Instant)
    requires now.Valid()
    ensures var k := DaysAhead(now.weekday);
      1 <= k <= 3 && IsSchoolDay(DayAfter(now.weekday, k)) &&
      (forall j :: 1 <= j < k ==> !IsSchoolDay(DayAfter(now.weekday, j))) &&
      CalculateTimeUntilNextSchoolDay(now) == k * DayMs + AtHourMinute(8, 25) - now.ms
  {
    var d := now.weekday;
    assert d == 0 || d == 1 || d == 2 || d == 3 || d == 4 || d == 5 || d == 6;
  }

  /** A school morning before 08:25 still counts down to tomorrow (or Monday). */
  lemma EarlyMorningSkipsToday(now: Instant)
    requires now.Valid() && IsSchoolDay(now.weekday) && now.ms < AtHourMinute(8, 25)
    ensures CalculateTimeUntilNextSchoolDay(now) > DayMs
  {
  }

  /** The display name of a period: on the assembly schedule, letters are
      renamed through `getAssemblyPeriodName`. */
  function Rename(currentSchedule: string, letter: string, name: string): Label
  {
    if currentSchedule == "assembly" then GetAssemblyPeriodName(letter, name) else Text(name)
  }

  /** Period `i` runs from its own start to the start of period `i + 1`. */
  predicate InSlot(ps: seq<Period>, i: int, t: int)
    requires 0 <= i < |ps| - 1
  {
    StartOf(ps[i]) <= t < StartOf(ps[i + 1])
  }

  /** The loop of `findCurrentPeriod` from index `from` on: the first slot
      that holds `t`. The uploaded copy's loop has the same shape over its
      own `InSlot`, whose time reading differs on a bare 7 and on am/pm
      markers, so each copy keeps its own search. */
  function FindSlot(ps: seq<Period>, from: nat, t: int): (r: Option<nat>)
    ensures r.Some? ==> from <= r.value < |ps| - 1 && InSlot(ps, r.value, t) &&
                        (forall j :: from <= j < r.value ==> !InSlot(ps, j, t))
    ensures r.None? ==> forall j :: from <= j < |ps| - 1 ==> !InSlot(ps, j, t)
    decreases |ps| - from
  {
    if from >= |ps| - 1 then None
    else if InSlot(ps, from, t) then Some(from)
    else FindSlot(ps, from + 1, t)
  }

  /** An empty schedule: only the current label is set. */
  function NoSchedule(d: Display): Display
  {
    d.(current := Text("No schedule available"))
  }

  /** Outside school hours: Free, counting down to the next school day; the
      total time is not set. */
  function Outside(d: Display, now: Instant): Display
    requires now.Valid()
  {
    d.(current := Text("Free"), next := Text("Next School Day"), outside := true,
       timeLeft := CalculateTimeUntilNextSchoolDay(now), progress := 1.0)
  }

  /** In slot `i`: period `i` now, period `i + 1` next, timed against the next start. */
  function InSlotDisplay(ps: seq<Period>, i: int, currentSchedule: string, letter: string, t: int): Display
    requires 0 <= i < |ps| - 1 && InSlot(ps, i, t)
  {
    var s, n := StartOf(ps[i]), StartOf(ps[i + 1]);
    Display(Rename(currentSchedule, letter, ps[i].name), Rename(currentSchedule, letter, ps[i + 1].name),
            false, n - t, n - s, Fraction(t - s, n - s))
  }

  /** No slot matched: the last period's name, counting down to the next
      school day; the total time is not set. */
  function AfterSlots(d: Display, ps: seq<Period>, currentSchedule: string, letter: string, now: Instant): Display
    requires now.Valid() && |ps| > 0
  {
    d.(current := Rename(currentSchedule, letter, ps[|ps| - 1].name), next := Text("Next School Day"),
       outside := true, timeLeft := CalculateTimeUntilNextSchoolDay(now), progress := 1.0)
  }

  /** `findCurrentPeriod(now)`: the displayed state after its setters have run
      on `d`, with the schedule, the selected schedule's key and the assembly
      letter it sees. */
  function Resolve(d: Display, sched: Schedule, currentSchedule: string, letter: string, now: Instant): Display
    requires now.Valid()
  {
    var ps := sched.periods;
    if |ps| == 0 then NoSchedule(d)
    else if now.ms < StartOf(ps[0]) || now.ms >= EndOf(ps[|ps| - 1]) then Outside(d, now)
    else
      match FindSlot(ps, 0, now.ms)
      case Some(i) => InSlotDisplay(ps, i, currentSchedule, letter, now.ms)
      case None => AfterSlots(d, ps, currentSchedule, letter, now)
  }

  /** Start times that strictly increase down the schedule. */
  predicate StartsAscending(ps: seq<Period>)
  {
    forall j, k :: 0 <= j < k < |ps| ==> StartOf(ps[j]) < StartOf(ps[k])
  }

  /** Rows are said to be ascending when each starts after the one before. */
  predicate StartsAscendingFrom(ps: seq<Period>, i: nat)
    decreases |ps| - i
  {
    i + 1 >= |ps| || (StartOf(ps[i]) < StartOf(ps[i + 1]) && StartsAscendingFrom(ps, i + 1))
  }

  lemma {:induction false} StartsAscendingFromBounds(ps: seq<Period>, i: nat, j: int, k: int)
    requires StartsAscendingFrom(ps, i) && i <= j < k < |ps|
    ensures StartOf(ps[j]) < StartOf(ps[k])
    decreases |ps| - i, k - j
  {
    if j > i {
      StartsAscendingFromBounds(ps, i + 1, j, k);
    } else if k == j + 1 {
    } else {
      StartsAscendingFromBounds(ps, i + 1, j + 1, k);
    }
  }

  /** Neighbouring starts in order are enough for all starts to be in order. */
  lemma AscendingFromNeighbours(ps: seq<Period>)
    requires StartsAscendingFrom(ps, 0)
    ensures StartsAscending(ps)
  {
    forall j, k | 0 <= j < k < |ps|
      ensures StartOf(ps[j]) < StartOf(ps[k])
    {
      StartsAscendingFromBounds(ps, 0, j, k);
    }
  }

  /** With ascending starts, at most one slot holds a given time. */
  lemma SlotUnique(ps: seq<Period>, i: int, j: int, t: int)
    requires StartsAscending(ps) && 0 <= i < |ps| - 1 && 0 <= j < |ps| - 1
    requires InSlot(ps, i, t) && InSlot(ps, j, t)
    ensures i == j
  {
  }

  /** An empty schedule sets the "No schedule available" label and nothing else. */
  lemma EmptySchedule(d: Display, sched: Schedule, currentSchedule: string, letter: string, now: Instant)
    requires now.Valid() && |sched.periods| == 0
    ensures var r := Resolve(d, sched, currentSchedule, letter, now);
      r.current == Text("No schedule available") && r.next == d.next && r.outside == d.outside &&
      r.timeLeft == d.timeLeft && r.total == d.total && r.progress == d.progress
  {
  }

  /** Before the first start or from the last end on, the timer reports Free,
      counts down to the next school day and fills the progress bar; the
      total time is left as it was. */
  lemma OutsideSchoolHours(d: Display, sched: Schedule, currentSchedule: string, letter: string, now: Instant)
    requires now.Valid() && |sched.periods| > 0
    requires now.ms < StartOf(sched.periods[0]) || now.ms >= EndOf(sched.periods[|sched.periods| - 1])
    ensures var r := Resolve(d, sched, currentSchedule, letter, now);
      r.current == Text("Free") && r.next == Text("Next School Day") && r.outside &&
      r.total == d.total && r.progress == 1.0 && r.timeLeft > 0
  {
  }

  /** Inside school hours, when `now` lies in slot `i` of a schedule with
      ascending starts, the timer shows period `i`, names period `i + 1` as
      next, and measures the time left and the total against the next start. */
  lemma ResolvesToSlot(d: Display, sched: Schedule, currentSchedule: string, letter: string, now: Instant, i: int)
    requires now.Valid() && StartsAscending(sched.periods)
    requires 0 <= i < |sched.periods| - 1 && InSlot(sched.periods, i, now.ms)
    requires now.ms < EndOf(sched.periods[|sched.periods| - 1])
    ensures var ps := sched.periods;
      var r := Resolve(d, sched, currentSchedule, letter, now);
      var s, n := StartOf(ps[i]), StartOf(ps[i + 1]);
      r.current == Rename(currentSchedule, letter, ps[i].name) &&
      r.next == Rename(currentSchedule, letter, ps[i + 1].name) &&
      !r.outside && r.timeLeft == n - now.ms && r.total == n - s &&
      r.progress == (now.ms - s) as real / (n - s) as real
  {
    var ps := sched.periods;
    assert StartOf(ps[0]) <= StartOf(ps[i]) by {
      assert i > 0 ==> StartOf(ps[0]) < StartOf(ps[i]);
    }
    var f := FindSlot(ps, 0, now.ms);
    assert InSlot(ps, i, now.ms);
    SlotUnique(ps, i, f.value, now.ms);
  }

  /** From the last period's start until its end, no slot matches: the timer
      shows the last period, yet already counts as outside school hours and
      counts down to the next school day. */
  lemma LastPeriodCountsAsOutside(d: Display, sched: Schedule, currentSchedule: string, letter: string, now: Instant)
    requires now.Valid() && StartsAscending(sched.periods) && |sched.periods| > 0
    requires StartOf(sched.periods[0]) <= now.ms
    requires StartOf(sched.periods[|sched.periods| - 1]) <= now.ms < EndOf(sched.periods[|sched.periods| - 1])
    ensures var ps := sched.periods;
      var r := Resolve(d, sched, currentSchedule, letter, now);
      r.current == Rename(currentSchedule, letter, ps[|ps| - 1].name) &&
      r.next == Text("Next School Day") && r.outside && r.progress == 1.0 &&
      r.timeLeft == CalculateTimeUntilNextSchoolDay(now) && r.total == d.total
  {
    var ps := sched.periods;
    forall j | 0 <= j < |ps| - 1
      ensures !InSlot(ps, j, now.ms)
    {
      assert StartOf(ps[j + 1]) <= StartOf(ps[|ps| - 1]) by {
        assert j + 1 < |ps| - 1 ==> StartOf(ps[j + 1]) < StartOf(ps[|ps| - 1]);
      }
    }
    assert FindSlot(ps, 0, now.ms).None?;
  }

  /** Whatever the schedule and the time: for a non-empty schedule the
      progress is a fraction in [0, 1] and the time left is positive, and
      whenever the timer is outside school hours it counts down to the next
      school day. */
  lemma ResolveBounds(d: Display, sched: Schedule, currentSchedule: string, letter: string, now: Instant)
    requires now.Valid() && |sched.periods| > 0
    ensures var r := Resolve(d, sched, currentSchedule, letter, now);
      0.0 <= r.progress <= 1.0 && r.timeLeft > 0 &&
      (r.outside ==> r.next == Text("Next School Day") && r.timeLeft == CalculateTimeUntilNextSchoolDay(now)) &&
      (r.total != d.total ==> !r.outside)
  {
  }

  /** No row named "Passing" means no "Passing" label: this timer has no
      passing periods between classes. */
  lemma NoPassingState(d: Display, sched: Schedule, currentSchedule: string, letter: string, now: Instant)
    requires now.Valid() && d.current != Text("Passing")
    requires forall k :: 0 <= k < |sched.periods| ==> sched.periods[k].name != "Passing"
    ensures Resolve(d, sched, currentSchedule, letter, now).current != Text("Passing")
  {
  }

  /** `formatTime(date)`: the hour unpadded, the minutes padded. */
  function FormatTime(now: Instant): string
  {
    IntToString(now.Hours()) + ":" + Pad2(now.Minutes())
  }

  /** The clock text splits at its colon into the hour and the two-digit minutes. */
  lemma FormatTimeReads(now: Instant)
    requires now.Valid()
    ensures var parts := SplitOn(FormatTime(now), ':');
      |parts| == 2 && AllDigits(parts[0]) && AllDigits(parts[1]) && |parts[1]| == 2 &&
      DecimalValue(parts[0]) == now.Hours() && DecimalValue(parts[1]) == now.Minutes()
  {
    var h, m := now.Hours(), now.Minutes();
    assert h >= 0 && 0 <= m < 60;
    var a, b := NatToString(h), Pad2(m);
    assert FormatTime(now) == a + ":" + b;
    DecimalValueOfNatToString(h);
    Pad2Reads(m);
    NatToStringShort(m);
    DigitsHaveNoColon(a);
    DigitsHaveNoColon(b);
    SplitAtOneColon(a, b);
  }

  /** `updateCountdown()`: the countdown fields it sets, or `None` when it
      returns early because nothing is left and school is in session. */
  function CountdownFor(timeLeftMs: int, outside: bool, now: Instant): Option<Hms>
    requires now.Valid()
  {
    if timeLeftMs <= 0 && !outside then None
    else Some(Split(if outside then CalculateTimeUntilNextSchoolDay(now) else timeLeftMs))
  }

  /** A countdown is shown only for a positive time left, and its fields are
      the hours, minutes below 60 and seconds below 60 of that time. */
  lemma CountdownInRange(timeLeftMs: int, outside: bool, now: Instant)
    requires now.Valid()
    ensures var c := CountdownFor(timeLeftMs, outside, now);
      var remaining := if outside then CalculateTimeUntilNextSchoolDay(now) else timeLeftMs;
      (c.Some? <==> remaining > 0) &&
      (c.Some? ==> 0 <= c.value.m < 60 && 0 <= c.value.s < 60 && Join(c.value) <= remaining < Join(c.value) + SecondMs)
  {
    var remaining := if outside then CalculateTimeUntilNextSchoolDay(now) else timeLeftMs;
    if remaining > 0 {
      SplitBounds(remaining);
    }
  }

  /** The body of `findCurrentPeriod(now)`: the checks and the scan over
      the periods, applying its setters to the displayed state `d`. */
  method ChooseDisplay(d: Display, sched: Schedule, currentSchedule: string, letter: string, now: Instant)
    returns (r: Display)
    requires now.Valid()
    ensures r == Resolve(d, sched, currentSchedule, letter, now)
  {
    var periods := sched.periods;
    if |periods| == 0 {
      return d.(current := Text("No schedule available"));
    }
    var firstPeriodStart := ParseTimeString(periods[0].startTime);
    var lastPeriodEnd := ParseTimeString(periods[|periods| - 1].endTime);
    if now.ms < firstPeriodStart || now.ms >= lastPeriodEnd {
      return d.(current := Text("Free"), next := Text("Next School Day"), outside := true,
                timeLeft := CalculateTimeUntilNextSchoolDay(now), progress := 1.0);
    }
    var i := 0;
    while i < |periods| - 1
      invariant 0 <= i <= |periods| - 1
      invariant FindSlot(periods, i, now.ms) == FindSlot(periods, 0, now.ms)
    {
      var currentPeriodStart := ParseTimeString(periods[i].startTime);
      var nextPeriodStart := ParseTimeString(periods[i + 1].startTime);
      if now.ms >= currentPeriodStart && now.ms < nextPeriodStart {
        var totalMs := nextPeriodStart - currentPeriodStart;
        var elapsedMs := now.ms - currentPeriodStart;
        var remainingMs := nextPeriodStart - now.ms;
        return Display(Rename(currentSchedule, letter, periods[i].name),
                       Rename(currentSchedule, letter, periods[i + 1].name), false,
                       remainingMs, totalMs, Fraction(elapsedMs, totalMs));
      }
      i := i + 1;
    }
    return d.(current := Rename(currentSchedule, letter, periods[|periods| - 1].name),
              next := Text("Next School Day"), outside := true,
              timeLeft := CalculateTimeUntilNextSchoolDay(now), progress := 1.0);
  }

  /** The component's state slots that the modelled functions read and
      write; `display` holds the six slots `findCurrentPeriod` sets and
      `clock` the hours, minutes and seconds of the countdown. */
  class BellTimer {
    var display: Display
    var clock: Hms
    var showCountdown: bool
    var activeSchedule: Schedule
    var currentSchedule: string
    var scheduleName: string
    var assemblyLetter: string
    var mounted: bool

    /** The initial `useState` values, on the weekday the component mounts. */
    constructor(today: int)
      ensures display == Display(Text("Loading..."), Text(""), false, 0, 0, 0.0)
      ensures clock == Hms(0, 0, 0) && !showCountdown
      ensures activeSchedule == GetCurrentDaySchedule(today) && currentSchedule == "" && assemblyLetter == "B"
      ensures scheduleName == "" && !mounted
    {
      display := Display(Text("Loading..."), Text(""), false, 0, 0, 0.0);
      clock := Hms(0, 0, 0);
      showCountdown := false;
      activeSchedule := GetCurrentDaySchedule(today);
      currentSchedule := "";
      scheduleName := "";
      assemblyLetter := "B";
      mounted := false;
    }

    /** The mount effect: the schedule named after the weekday `today` is
        selected, Saturday and Sunday included, under its own name. */
    method Mount(today: int)
      modifies this
      ensures mounted
      ensures activeSchedule == GetCurrentDaySchedule(today)
      ensures currentSchedule == activeSchedule.name && scheduleName == activeSchedule.displayName
      ensures display == old(display) && clock == old(clock) && showCountdown == old(showCountdown)
      ensures assemblyLetter == old(assemblyLetter)
    {
      mounted := true;
      var scheduleToUse: string;
      match today {
        case 0 => scheduleToUse := "sunday";
        case 1 => scheduleToUse := "monday";
        case 2 => scheduleToUse := "tuesday";
        case 3 => scheduleToUse := "wednesday";
        case 4 => scheduleToUse := "thursday";
        case 5 => scheduleToUse := "friday";
        case 6 => scheduleToUse := "saturday";
        case _ => scheduleToUse := "monday";
      }
      TableKeyedByName();
      var defaultSchedule := Table[scheduleToUse];
      activeSchedule := defaultSchedule;
      currentSchedule := scheduleToUse;
      scheduleName := defaultSchedule.displayName;
    }

    /** `handleScheduleChange(name)`: a name with no schedule changes nothing. */
    method HandleScheduleChange(name: string)
      modifies this
      ensures name in Table ==>
        activeSchedule == Table[name] && currentSchedule == name && scheduleName == Table[name].displayName
      ensures name !in Table ==>
        activeSchedule == old(activeSchedule) && currentSchedule == old(currentSchedule) &&
        scheduleName == old(scheduleName)
      ensures display == old(display) && clock == old(clock) && showCountdown == old(showCountdown)
      ensures assemblyLetter == old(assemblyLetter) && mounted == old(mounted)
    {
      if name in Table {
        var newSchedule := Table[name];
        activeSchedule := newSchedule;
        currentSchedule := name;
        scheduleName := newSchedule.displayName;
      }
    }

    /** `handleAssemblyLetterChange(letter)` */
    method HandleAssemblyLetterChange(letter: string)
      modifies this
      ensures assemblyLetter == letter
      ensures display == old(display) && clock == old(clock) && showCountdown == old(showCountdown)
      ensures activeSchedule == old(activeSchedule) && currentSchedule == old(currentSchedule)
      ensures scheduleName == old(scheduleName) && mounted == old(mounted)
    {
      assemblyLetter := letter;
    }

    /** `formatCountdown()` */
    function FormatCountdown(): string
      reads this
    {
      Timing.FormatCountdown(clock)
    }

    /** `findCurrentPeriod(now)`: React applies the setters it calls once
        the handler returns, so the new state is computed first and then
        stored. */
    method FindCurrentPeriod(now: Instant)
      requires now.Valid()
      modifies this
      ensures display == Resolve(old(display), activeSchedule, currentSchedule, assemblyLetter, now)
      ensures activeSchedule == old(activeSchedule) && currentSchedule == old(currentSchedule)
      ensures assemblyLetter == old(assemblyLetter) && clock == old(clock) && showCountdown == old(showCountdown)
      ensures scheduleName == old(scheduleName) && mounted == old(mounted)
    {
      display := ChooseDisplay(display, activeSchedule, currentSchedule, assemblyLetter, now);
    }

    /** `updateCountdown()` */
    method UpdateCountdown(now: Instant)
      requires now.Valid()
      modifies this
      ensures var c := CountdownFor(old(display.timeLeft), old(display.outside), now);
        if c.None? then clock == old(clock) && showCountdown == old(showCountdown)
        else clock == c.value && showCountdown
      ensures display == old(display) && activeSchedule == old(activeSchedule)
      ensures currentSchedule == old(currentSchedule) && assemblyLetter == old(assemblyLetter)
      ensures scheduleName == old(scheduleName) && mounted == old(mounted)
    {
      if display.timeLeft <= 0 && !display.outside {
        return;
      }
      var remainingMs := display.timeLeft;
      if display.outside {
        remainingMs := CalculateTimeUntilNextSchoolDay(now);
      }
      clock := Hms(remainingMs / HourMs, JsRem(remainingMs, HourMs) / MinuteMs, JsRem(remainingMs, MinuteMs) / SecondMs);
      showCountdown := true;
    }
  }
}
