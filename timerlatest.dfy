/** The uploaded copy of the redesigned timer. Schedule times may carry an
    am/pm marker and a bare hour from 1 to 7 is in the afternoon; a period
    lasts from its own start to the next period's start, with no warning
    bell or passing state; the tick sets only the countdown. The schedules
    are those of the redesigned timer, and the next-school-day countdown is
    the redesigned timer's, whose text this copy repeats. */
module TimerLatest {
  import opened JsText
  import opened Timing
  import opened Schedules
  import PlusSchedules
  import TimerPlus
  import FaviconLatest

  /** The hour `parseTimeString` passes to `setHours`. */
  function ParseHour(t: ClockText): int
  {
    var isPM := TimerPlus.HasMarker(t, "pm");
    var isAM := TimerPlus.HasMarker(t, "am");
    var h := if isPM && t.hour < 12 then t.hour + 12
             else if isAM && t.hour == 12 then 0
             else t.hour;
    if !isPM && !isAM && h < 8 && h != 0 then h + 12 else h
  }

  /** `parseTimeString(timeStr)` as an offset from today's midnight. */
  function ParseTimeString(t: ClockText): int
  {
    AtHourMinute(ParseHour(t), t.minute)
  }

  function StartOf(p: Period): int
  {
    ParseTimeString(p.startTime)
  }

  function EndOf(p: Period): int
  {
    ParseTimeString(p.endTime)
  }

  /** The hour rule case by case: with a marker the 12-hour clock applies,
      and a bare hour from 1 to 7 is in the afternoon. */
  lemma ParseHourCases(t: ClockText)
    ensures TimerPlus.HasMarker(t, "pm") && t.hour < 12 ==> ParseHour(t) == t.hour + 12
    ensures !TimerPlus.HasMarker(t, "pm") && TimerPlus.HasMarker(t, "am") ==>
      ParseHour(t) == (if t.hour == 12 then 0 else t.hour)
    ensures !TimerPlus.HasMarker(t, "pm") && !TimerPlus.HasMarker(t, "am") ==>
      ParseHour(t) == (if 1 <= t.hour <= 7 then t.hour + 12 else t.hour)
  {
  }

  /** This copy and the redesigned timer read a time differently exactly
      for a bare hour of 7, which this copy puts in the afternoon. */
  lemma ParseDiffersOnlyAtSeven(t: ClockText)
    ensures ParseHour(t) != TimerPlus.ParseHour(t) <==>
      !TimerPlus.HasMarker(t, "pm") && !TimerPlus.HasMarker(t, "am") && t.hour == 7
    ensures ParseHour(t) != TimerPlus.ParseHour(t) ==> ParseHour(t) == 19 && TimerPlus.ParseHour(t) == 7
  {
  }

  /** The display name of a period: on the assembly schedule, letters are
      renamed through `getAssemblyPeriodName`. */
  function Rename(currentSchedule: string, letter: string, name: string): Label
  {
    if currentSchedule == "assembly" then PlusSchedules.GetAssemblyPeriodName(letter, name) else Text(name)
  }

  /** Period `i` runs from its own start to the start of period `i + 1`. */
  predicate InSlot(ps: seq<Period>, i: int, t: int)
    requires 0 <= i < |ps| - 1
  {
    StartOf(ps[i]) <= t < StartOf(ps[i + 1])
  }

  /** The loop of `findCurrentPeriod` from index `from` on: the first slot
      that holds `t`. It reads like the main timer's, but its slots are
      measured with this copy's `parseTimeString`. */
  function FindSlot(ps: seq<Period>, from: nat, t: int): (r: Option<nat>)
    ensures r.Some? ==> from <= r.value < |ps| - 1 && InSlot(ps, r.value, t) &&
                        (forall j :: from <= j < r.value ==> !InSlot(ps, j, t))
    ensures r.None? ==> forall j :: from <= j < |ps| - 1 ==> !InSlot(ps, j, t)
    decreases |ps| - from
  {
    if from >= |ps| - 1 then None
    else if InSlot(ps, from, t) then Some(from)
    else FindSlot(ps, from + 1, t)
  }

  /** Outside school hours, or after the last slot: `current` is shown,
      "Next School Day" is next, and the countdown aims at the next school
      day with a full progress bar; the total time is kept. */
  function Closing(v: TimerPlus.View, current: Label, now: Instant): (r: TimerPlus.View)
    requires now.Valid()
    ensures TimerPlus.Consistent(r) && r.display.outside && r.display.timeLeft > 0
  {
    var d := v.display.(current := current, next := Text("Next School Day"), outside := true);
    TimerPlus.SetTimeValues(v.(display := d), TimerPlus.CalculateTimeUntilNextSchoolDay(now))
      .(display := d.(timeLeft := TimerPlus.CalculateTimeUntilNextSchoolDay(now), progress := 1.0))
  }

  /** In slot `i`: period `i` now, period `i + 1` next, timed against the
      next start. */
  function InSlotView(v: TimerPlus.View, ps: seq<Period>, i: int, currentSchedule: string, letter: string, t: int)
    : (r: TimerPlus.View)
    requires 0 <= i < |ps| - 1 && InSlot(ps, i, t)
    ensures TimerPlus.Consistent(r) && !r.display.outside && r.display.timeLeft > 0
  {
    var s, n := StartOf(ps[i]), StartOf(ps[i + 1]);
    var d := Display(Rename(currentSchedule, letter, ps[i].name), Rename(currentSchedule, letter, ps[i + 1].name),
                     false, n - t, n - s, Fraction(t - s, n - s));
    TimerPlus.SetTimeValues(v.(display := d), n - t)
  }

  /** `findCurrentPeriod(now)`: the state after its setters have run on `v`,
      with the schedule, the selected schedule's key and the assembly letter
      it sees. */
  function Resolve(v: TimerPlus.View, sched: Schedule, currentSchedule: string, letter: string, now: Instant)
    : TimerPlus.View
    requires now.Valid()
  {
    var ps := sched.periods;
    if |ps| == 0 then v.(display := v.display.(current := Text("No schedule available")))
    else if now.ms < StartOf(ps[0]) || now.ms >= EndOf(ps[|ps| - 1]) then Closing(v, Text("Free"), now)
    else
      match FindSlot(ps, 0, now.ms)
      case Some(i) => InSlotView(v, ps, i, currentSchedule, letter, now.ms)
      case None => Closing(v, Rename(currentSchedule, letter, ps[|ps| - 1].name), now)
  }

  /** An empty schedule sets the "No schedule available" label and nothing else. */
  lemma EmptySchedule(v: TimerPlus.View, sched: Schedule, currentSchedule: string, letter: string, now: Instant)
    requires now.Valid() && |sched.periods| == 0
    ensures var r := Resolve(v, sched, currentSchedule, letter, now);
      r.display.current == Text("No schedule available") &&
      r == v.(display := r.display) && r.display == v.display.(current := r.display.current)
  {
  }

  /** Before the first start or from the last end on: Free, counting down
      to the next school day with a full progress bar. */
  lemma OutsideSchoolHours(v: TimerPlus.View, sched: Schedule, currentSchedule: string, letter: string, now: Instant)
    requires now.Valid() && |sched.periods| > 0
    requires now.ms < StartOf(sched.periods[0]) || now.ms >= EndOf(sched.periods[|sched.periods| - 1])
    ensures var r := Resolve(v, sched, currentSchedule, letter, now);
      r.display.current == Text("Free") && r.display.next == Text("Next School Day") && r.display.outside &&
      r.display.progress == 1.0 && r.display.total == v.display.total &&
      r.display.timeLeft == TimerPlus.CalculateTimeUntilNextSchoolDay(now) &&
      r.clock == Split(r.display.timeLeft) && r.showCountdown
  {
  }

  /** Start times that strictly increase down the schedule. */
  predicate StartsAscending(ps: seq<Period>)
  {
    forall j, k :: 0 <= j < k < |ps| ==> StartOf(ps[j]) < StartOf(ps[k])
  }

  /** Inside school hours, when `now` lies in slot `i` of a schedule with
      ascending starts, the timer shows period `i`, names period `i + 1` as
      next, and measures the time left, the total and the progress against
      the next start. */
  lemma ResolvesToSlot(v: TimerPlus.View, sched: Schedule, currentSchedule: string, letter: string, now: Instant, i: int)
    requires now.Valid() && StartsAscending(sched.periods)
    requires 0 <= i < |sched.periods| - 1 && InSlot(sched.periods, i, now.ms)
    requires now.ms < EndOf(sched.periods[|sched.periods| - 1])
    ensures var ps := sched.periods;
      var r := Resolve(v, sched, currentSchedule, letter, now);
      var s, n := StartOf(ps[i]), StartOf(ps[i + 1]);
      r.display.current == Rename(currentSchedule, letter, ps[i].name) &&
      r.display.next == Rename(currentSchedule, letter, ps[i + 1].name) &&
      !r.display.outside && r.display.timeLeft == n - now.ms && r.display.total == n - s &&
      r.display.progress == (now.ms - s) as real / (n - s) as real &&
      r.clock == Split(n - now.ms) && r.showCountdown
  {
    var ps := sched.periods;
    assert StartOf(ps[0]) <= StartOf(ps[i]) by {
      assert i > 0 ==> StartOf(ps[0]) < StartOf(ps[i]);
    }
    FindsSlot(ps, i, now.ms);
    ResolveInSlot(v, sched, currentSchedule, letter, now, i);
    InSlotFields(v, ps, i, currentSchedule, letter, now.ms);
  }

  lemma InSlotFields(v: TimerPlus.View, ps: seq<Period>, i: int, currentSchedule: string, letter: string, t: int)
    requires 0 <= i < |ps| - 1 && InSlot(ps, i, t)
    ensures var r := InSlotView(v, ps, i, currentSchedule, letter, t);
      var s, n := StartOf(ps[i]), StartOf(ps[i + 1]);
      r.display.current == Rename(currentSchedule, letter, ps[i].name) &&
      r.display.next == Rename(currentSchedule, letter, ps[i + 1].name) &&
      !r.display.outside && r.display.timeLeft == n - t && r.display.total == n - s &&
      r.display.progress == (t - s) as real / (n - s) as real &&
      r.clock == Split(n - t) && r.showCountdown
  {
  }

  lemma FindsSlot(ps: seq<Period>, i: int, t: int)
    requires StartsAscending(ps) && 0 <= i < |ps| - 1 && InSlot(ps, i, t)
    ensures FindSlot(ps, 0, t) == Some(i)
  {
    var found := FindSlot(ps, 0, t);
    assert found.Some?;
    SlotUnique(ps, i, found.value, t);
  }

  lemma ResolveInSlot(v: TimerPlus.View, sched: Schedule, currentSchedule: string, letter: string, now: Instant, i: int)
    requires now.Valid() && 0 <= i < |sched.periods| - 1
    requires StartOf(sched.periods[0]) <= now.ms < EndOf(sched.periods[|sched.periods| - 1])
    requires FindSlot(sched.periods, 0, now.ms) == Some(i)
    ensures Resolve(v, sched, currentSchedule, letter, now) == InSlotView(v, sched.periods, i, currentSchedule, letter, now.ms)
  {
  }

  /** With ascending starts, at most one slot holds a given time. */
  lemma SlotUnique(ps: seq<Period>, i: int, j: int, t: int)
    requires StartsAscending(ps) && 0 <= i < |ps| - 1 && 0 <= j < |ps| - 1
    requires InSlot(ps, i, t) && InSlot(ps, j, t)
    ensures i == j
  {
  }

  /** From the last period's start until its end, no slot matches: the
      last period's name is shown, but the timer counts as outside school
      hours and counts down to the next school day. */
  lemma LastPeriodCountsAsOutside(v: TimerPlus.View, sched: Schedule, currentSchedule: string, letter: string, now: Instant)
    requires now.Valid() && StartsAscending(sched.periods) && |sched.periods| > 0
    requires StartOf(sched.periods[0]) <= now.ms
    requires StartOf(sched.periods[|sched.periods| - 1]) <= now.ms < EndOf(sched.periods[|sched.periods| - 1])
    ensures var ps := sched.periods;
      var r := Resolve(v, sched, currentSchedule, letter, now);
      r.display.current == Rename(currentSchedule, letter, ps[|ps| - 1].name) &&
      r.display.next == Text("Next School Day") && r.display.outside && r.display.progress == 1.0 &&
      r.display.timeLeft == TimerPlus.CalculateTimeUntilNextSchoolDay(now) && r.display.total == v.display.total
  {
    var ps := sched.periods;
    forall j | 0 <= j < |ps| - 1
      ensures !InSlot(ps, j, now.ms)
    {
      assert StartOf(ps[j + 1]) <= StartOf(ps[|ps| - 1]) by {
        assert j + 1 < |ps| - 1 ==> StartOf(ps[j + 1]) < StartOf(ps[|ps| - 1]);
      }
    }
    assert FindSlot(ps, 0, now.ms).None?;
  }

  /** Whatever the schedule and the time, a consistent view stays
      consistent: the countdown fields match the time left and the progress
      lies in [0, 1]. With a non-empty schedule the time left is positive and
      outside school hours it is the countdown to the next school day. */
  lemma ResolveKeepsConsistent(v: TimerPlus.View, sched: Schedule, currentSchedule: string, letter: string, now: Instant)
    requires now.Valid()
    ensures var r := Resolve(v, sched, currentSchedule, letter, now);
      (TimerPlus.Consistent(v) ==> TimerPlus.Consistent(r)) &&
      (|sched.periods| > 0 ==>
        (r.display.timeLeft > 0 && r.showCountdown &&
         (r.display.outside <==> (r.display.next == Text("Next School Day") && r.display.progress == 1.0 &&
                                  r.display.timeLeft == TimerPlus.CalculateTimeUntilNextSchoolDay(now)))))
  {
    var ps := sched.periods;
    if |ps| > 0 && StartOf(ps[0]) <= now.ms < EndOf(ps[|ps| - 1]) {
      var f := FindSlot(ps, 0, now.ms);
      if f.Some? {
        var i := f.value;
        var s, n := StartOf(ps[i]), StartOf(ps[i + 1]);
        var r := Resolve(v, sched, currentSchedule, letter, now);
        assert r.display.progress < 1.0 by {
          assert 0 <= now.ms - s < n - s;
        }
      }
    }
  }

  /** The body of `findCurrentPeriod(now)`: the checks and the scan over the
      periods, applying its setters to `v`. */
  method ChooseView(v: TimerPlus.View, sched: Schedule, currentSchedule: string, letter: string, now: Instant)
    returns (r: TimerPlus.View)
    requires now.Valid()
    ensures r == Resolve(v, sched, currentSchedule, letter, now)
  {
    var periods := sched.periods;
    if |periods| == 0 {
      return v.(display := v.display.(current := Text("No schedule available")));
    }
    var firstPeriodStart := ParseTimeString(periods[0].startTime);
    var lastPeriodEnd := ParseTimeString(periods[|periods| - 1].endTime);
    if now.ms < firstPeriodStart || now.ms >= lastPeriodEnd {
      return Closing(v, Text("Free"), now);
    }
    var i := 0;
    while i < |periods| - 1
      invariant 0 <= i <= |periods| - 1
      invariant FindSlot(periods, i, now.ms) == FindSlot(periods, 0, now.ms)
    {
      var currentPeriodStart := ParseTimeString(periods[i].startTime);
      var nextPeriodStart := ParseTimeString(periods[i + 1].startTime);
      if now.ms >= currentPeriodStart && now.ms < nextPeriodStart {
        return InSlotView(v, periods, i, currentSchedule, letter, now.ms);
      }
      i := i + 1;
    }
    return Closing(v, Rename(currentSchedule, letter, periods[|periods| - 1].name), now);
  }

  /** The time left one tick computes from the state it sees: recomputed
      outside school hours, else the previous time left less the elapsed
      time, never below zero. */
  function TickRemaining(d: Display, now: Instant, elapsed: int): (r: int)
    requires now.Valid()
    ensures r >= 0
    ensures d.outside ==> r == TimerPlus.CalculateTimeUntilNextSchoolDay(now)
    ensures !d.outside ==> r <= (if d.timeLeft > 0 then d.timeLeft else 0) + (if elapsed < 0 then -elapsed else 0)
    ensures !d.outside && d.timeLeft > 0 && 0 <= elapsed < d.timeLeft ==> r == d.timeLeft - elapsed
  {
    if d.outside then TimerPlus.CalculateTimeUntilNextSchoolDay(now)
    else if d.timeLeft > 0 then (if d.timeLeft - elapsed > 0 then d.timeLeft - elapsed else 0)
    else 0
  }

  /** `updateCountdown()`'s state slots: only the time left, the hours,
      minutes and seconds and the countdown's visibility change; each is
      set only when it differs, which leaves the same state as setting it. */
  function Tick(v: TimerPlus.View, now: Instant, elapsed: int): (r: TimerPlus.View)
    requires now.Valid()
  {
    TimerPlus.SetTimeValues(v, TickRemaining(v.display, now, elapsed))
  }

  /** A tick keeps a consistent view consistent and changes nothing about
      the period: labels, the outside flag, the total and the progress
      stay as the last `findCurrentPeriod` left them. */
  lemma TickKeepsPeriod(v: TimerPlus.View, now: Instant, elapsed: int)
    requires now.Valid()
    ensures var r := Tick(v, now, elapsed);
      r.display.current == v.display.current && r.display.next == v.display.next &&
      r.display.outside == v.display.outside && r.display.total == v.display.total &&
      r.display.progress == v.display.progress && r.showCountdown &&
      (TimerPlus.Consistent(v) ==> TimerPlus.Consistent(r))
  {
  }

  /** Ticks applied in turn, at the given instants and elapsed times. */
  function Ticks(v: TimerPlus.View, nows: seq<Instant>, elapsed: seq<int>): TimerPlus.View
    requires |nows| == |elapsed| && forall k :: 0 <= k < |nows| ==> nows[k].Valid()
    decreases |nows|
  {
    if |nows| == 0 then v else Ticks(Tick(v, nows[0], elapsed[0]), nows[1..], elapsed[1..])
  }

  /** In school hours the countdown stops at zero and stays there: later
      ticks keep it at zero and keep the period shown, since nothing but a
      new `findCurrentPeriod` moves the timer on. */
  lemma {:induction false} StuckAtZero(v: TimerPlus.View, nows: seq<Instant>, elapsed: seq<int>)
    requires |nows| == |elapsed| && forall k :: 0 <= k < |nows| ==> nows[k].Valid()
    requires !v.display.outside && v.display.timeLeft <= 0
    ensures var r := Ticks(v, nows, elapsed);
      r.display.current == v.display.current && r.display.next == v.display.next &&
      !r.display.outside && (|nows| > 0 ==> r.display.timeLeft == 0 && r.clock == Hms(0, 0, 0))
    decreases |nows|
  {
    if |nows| > 0 {
      var w := Tick(v, nows[0], elapsed[0]);
      assert w.display.timeLeft == 0;
      StuckAtZero(w, nows[1..], elapsed[1..]);
    }
  }

  /** The title's name for a label: on the assembly schedule a lone letter
      A to H is "Assembly" when it holds the assembly and its period
      otherwise. */
  function TitleName(l: Label, currentSchedule: string, letter: string): string
  {
    if currentSchedule == "assembly" && l.Text? && IsAssemblyLetter(l.text) then
      (if l.text == letter then "Assembly"
       else AssemblyLetterKeys(l.text); AssemblyToPeriodMap[l.text])
    else Render(l)
  }

  /** The letter renaming of the title agrees with `getAssemblyPeriodName`. */
  lemma TitleNameRenames(l: Label, currentSchedule: string, letter: string)
    ensures currentSchedule == "assembly" && l.Text? && IsAssemblyLetter(l.text) ==>
      TitleName(l, currentSchedule, letter) == Render(PlusSchedules.GetAssemblyPeriodName(letter, l.text))
    ensures !(currentSchedule == "assembly" && l.Text? && IsAssemblyLetter(l.text)) ==>
      TitleName(l, currentSchedule, letter) == Render(l)
  {
    if currentSchedule == "assembly" && l.Text? && IsAssemblyLetter(l.text) {
      AssemblyLetterKeys(l.text);
    }
  }

  /** A label `findCurrentPeriod` has already renamed is never a lone
      letter, so the title's renaming leaves it as it is. */
  lemma RenamedLabelsKeepTheirTitle(currentSchedule: string, letter: string, name: string)
    ensures var l := Rename(currentSchedule, letter, name);
      currentSchedule == "assembly" ==> TitleName(l, currentSchedule, letter) == Render(l)
  {
    var l := Rename(currentSchedule, letter, name);
    if currentSchedule == "assembly" && l.Text? {
      if name != "Brunch" && name != "Lunch" && name != letter && name in AssemblyToPeriodMap {
        AssemblyLetterKeys(name);
        assert l.text == AssemblyToPeriodMap[name];
        assert !IsAssemblyLetter(l.text) by {
          assert |l.text| != 1;
        }
      }
    }
  }

  /** `document.title` as one tick writes it from the fields it computes
      and the period state it sees: outside school hours or in a Free
      period the next event, otherwise the current period. */
  function TickTitle(t: Hms, d: Display, currentSchedule: string, letter: string): string
  {
    TimerPlus.TitleCountdown(t) + " | " +
      (if d.outside || d.current == Text("Free") then TimerPlus.TitleNextEvent(d.next, currentSchedule, letter)
       else TitleName(d.current, currentSchedule, letter))
  }

  /** In school, away from a Free period, the title names the period now
      running; otherwise it names what comes next, and never spells out
      "Next School Day". */
  lemma TickTitleNames(t: Hms, d: Display, currentSchedule: string, letter: string)
    ensures var title := TickTitle(t, d, currentSchedule, letter);
      var head := TimerPlus.TitleCountdown(t) + " | ";
      |head| <= |title| && title[..|head|] == head &&
      (!d.outside && d.current != Text("Free") && currentSchedule != "assembly" ==>
        title[|head|..] == Render(d.current)) &&
      (d.outside || d.current == Text("Free") ==> title[|head|..] != "Next School Day")
    ensures var title := TickTitle(t, d, currentSchedule, letter);
      var head := TimerPlus.TitleCountdown(t) + " | ";
      d.outside || d.current == Text("Free") ==>
        title[|head|..] == (if d.next == Text("Next School Day") then "Next Day"
                            else if currentSchedule == "assembly" && d.next.Text? && IsAssemblyLetter(d.next.text)
                            then Render(PlusSchedules.GetAssemblyPeriodName(letter, d.next.text))
                            else Render(d.next))
  {
    TimerPlus.TitleNextEventRenames(d.next, currentSchedule, letter);
    var title := TickTitle(t, d, currentSchedule, letter);
    var head := TimerPlus.TitleCountdown(t) + " | ";
    assert title == head + title[|head|..];
  }

  /** The component's state: React state slots, the `lastUpdateTimeRef`
      ref, the document's title and the icon links it drives. */
  class BellTimer {
    var view: TimerPlus.View
    var currentTime: Instant
    var activeSchedule: Schedule
    var currentSchedule: string
    var scheduleName: string
    var assemblyLetter: string
    var mounted: bool
    var lastUpdateTime: int
    var title: string
    const favicon: FaviconLatest.Icons

    /** The initial `useState` and `useRef` values. */
    constructor(now: Instant, clockMs: int, pageTitle: string, icons: FaviconLatest.Icons)
      ensures view == TimerPlus.InitialView && currentTime == now
      ensures activeSchedule == PlusSchedules.GetCurrentDaySchedule(now.weekday)
      ensures currentSchedule == "" && scheduleName == "" && assemblyLetter == "B"
      ensures !mounted && lastUpdateTime == clockMs && title == pageTitle && favicon == icons
    {
      view := TimerPlus.InitialView;
      currentTime := now;
      activeSchedule := PlusSchedules.GetCurrentDaySchedule(now.weekday);
      currentSchedule := "";
      scheduleName := "";
      assemblyLetter := "B";
      mounted := false;
      lastUpdateTime := clockMs;
      title := pageTitle;
      favicon := icons;
    }

    /** The first effect: the component is mounted. */
    method Mount()
      modifies this
      ensures mounted
      ensures view == old(view) && currentTime == old(currentTime) && activeSchedule == old(activeSchedule)
      ensures currentSchedule == old(currentSchedule) && scheduleName == old(scheduleName)
      ensures assemblyLetter == old(assemblyLetter) && lastUpdateTime == old(lastUpdateTime) && title == old(title)
    {
      mounted := true;
    }

    /** `findCurrentPeriod(now)` */
    method FindCurrentPeriod(now: Instant)
      requires now.Valid()
      modifies this
      ensures view == Resolve(old(view), activeSchedule, currentSchedule, assemblyLetter, now)
      ensures TimerPlus.Consistent(old(view)) ==> TimerPlus.Consistent(view)
      ensures currentTime == old(currentTime) && activeSchedule == old(activeSchedule)
      ensures currentSchedule == old(currentSchedule) && scheduleName == old(scheduleName)
      ensures assemblyLetter == old(assemblyLetter) && mounted == old(mounted)
      ensures lastUpdateTime == old(lastUpdateTime) && title == old(title)
    {
      ResolveKeepsConsistent(view, activeSchedule, currentSchedule, assemblyLetter, now);
      view := ChooseView(view, activeSchedule, currentSchedule, assemblyLetter, now);
    }

    /** The effect that re-resolves at the stored `currentTime` once mounted. */
    method RefreshPeriod()
      requires currentTime.Valid()
      modifies this
      ensures currentTime == old(currentTime)
      ensures mounted ==> view == Resolve(old(view), activeSchedule, currentSchedule, assemblyLetter, currentTime)
      ensures !mounted ==> view == old(view)
      ensures activeSchedule == old(activeSchedule)
      ensures currentSchedule == old(currentSchedule) && scheduleName == old(scheduleName)
      ensures assemblyLetter == old(assemblyLetter) && mounted == old(mounted)
      ensures lastUpdateTime == old(lastUpdateTime) && title == old(title)
    {
      if mounted {
        FindCurrentPeriod(currentTime);
      }
    }

    /** The mount effect: once mounted, today's schedule is selected and
        the rest follows `LoadTodaySchedule`. */
    method InitialiseSchedule(now: Instant, clockMs: int)
      requires now.Valid()
      modifies this, favicon
      ensures old(mounted) ==>
        currentTime == now && activeSchedule == PlusSchedules.GetCurrentDaySchedule(now.weekday) &&
        currentSchedule == activeSchedule.name && scheduleName == activeSchedule.displayName &&
        view == Resolve(old(view), old(activeSchedule), old(currentSchedule), assemblyLetter, now) &&
        lastUpdateTime == clockMs && favicon.links == FaviconLatest.UpdateFaviconLinks(old(favicon.links), 60, 0, false)
      ensures !old(mounted) ==>
        view == old(view) && currentTime == old(currentTime) && activeSchedule == old(activeSchedule) &&
        currentSchedule == old(currentSchedule) && scheduleName == old(scheduleName) &&
        lastUpdateTime == old(lastUpdateTime) && favicon.links == old(favicon.links)
      ensures assemblyLetter == old(assemblyLetter) && mounted == old(mounted) && title == old(title)
    {
      if mounted {
        LoadTodaySchedule(now, clockMs);
      }
    }

    /** The body of the mount effect: today's schedule is selected, the
        period found with the schedule of the render that scheduled the
        effect, the tick reference reset and the icon shown at an hour left. */
    method LoadTodaySchedule(now: Instant, clockMs: int)
      requires now.Valid()
      modifies this, favicon
      ensures currentTime == now && activeSchedule == PlusSchedules.GetCurrentDaySchedule(now.weekday)
      ensures currentSchedule == activeSchedule.name && scheduleName == activeSchedule.displayName
      ensures view == Resolve(old(view), old(activeSchedule), old(currentSchedule), assemblyLetter, now)
      ensures lastUpdateTime == clockMs
      ensures favicon.links == FaviconLatest.UpdateFaviconLinks(old(favicon.links), 60, 0, false)
      ensures assemblyLetter == old(assemblyLetter) && mounted == old(mounted) && title == old(title)
    {
      currentTime := now;
      var scheduleKey := TimerPlus.DayKey(now.weekday);
      var todaySchedule := PlusSchedules.Table[scheduleKey];
      var found := ChooseView(view, activeSchedule, currentSchedule, assemblyLetter, now);
      view := found;
      activeSchedule := todaySchedule;
      currentSchedule := scheduleKey;
      scheduleName := todaySchedule.displayName;
      lastUpdateTime := clockMs;
      favicon.UpdateFavicon(60, 0, false);
    }

    /** `handleScheduleChange(name)`: a name with no schedule changes nothing. */
    method HandleScheduleChange(name: string)
      modifies this
      ensures name in PlusSchedules.Table ==>
        activeSchedule == PlusSchedules.Table[name] && currentSchedule == name &&
        scheduleName == PlusSchedules.Table[name].displayName
      ensures name !in PlusSchedules.Table ==>
        activeSchedule == old(activeSchedule) && currentSchedule == old(currentSchedule) && scheduleName == old(scheduleName)
      ensures view == old(view) && currentTime == old(currentTime) && assemblyLetter == old(assemblyLetter)
      ensures mounted == old(mounted) && lastUpdateTime == old(lastUpdateTime) && title == old(title)
    {
      if name in PlusSchedules.Table {
        var newSchedule := PlusSchedules.Table[name];
        activeSchedule := newSchedule;
        currentSchedule := name;
        scheduleName := newSchedule.displayName;
      }
    }

    /** `handleAssemblyLetterChange(letter)` */
    method HandleAssemblyLetterChange(letter: string)
      modifies this
      ensures assemblyLetter == letter
      ensures view == old(view) && currentTime == old(currentTime) && activeSchedule == old(activeSchedule)
      ensures currentSchedule == old(currentSchedule) && scheduleName == old(scheduleName)
      ensures mounted == old(mounted) && lastUpdateTime == old(lastUpdateTime) && title == old(title)
    {
      assemblyLetter := letter;
    }

    /** `updateCountdown()`: one tick at wall-clock `clockMs`, with `now`
        the instant `calculateTimeUntilNextSchoolDay` reads. */
    method UpdateCountdown(now: Instant, clockMs: int)
      requires now.Valid()
      modifies this, favicon
      ensures view == Tick(old(view), now, clockMs - old(lastUpdateTime))
      ensures favicon.links == FaviconLatest.UpdateFaviconLinks(old(favicon.links), view.clock.m, view.clock.s, view.display.outside)
      ensures title == (if mounted && view.display.current != Text("Loading...")
                        then TickTitle(view.clock, view.display, currentSchedule, assemblyLetter) else old(title))
      ensures lastUpdateTime == clockMs && currentTime == old(currentTime)
      ensures activeSchedule == old(activeSchedule) && currentSchedule == old(currentSchedule)
      ensures scheduleName == old(scheduleName) && assemblyLetter == old(assemblyLetter) && mounted == old(mounted)
    {
      var timeDiff := clockMs - lastUpdateTime;
      lastUpdateTime := clockMs;
      var remainingMs := TickRemaining(view.display, now, timeDiff);
      var hrs := remainingMs / HourMs;
      var mins := JsRem(remainingMs, HourMs) / MinuteMs;
      var secs := JsRem(remainingMs, MinuteMs) / SecondMs;
      var ticked := TimerPlus.SetTimeValues(view, remainingMs);
      view := ticked;
      favicon.UpdateFavicon(mins, secs, ticked.display.outside);
      if mounted && ticked.display.current != Text("Loading...") {
        title := TickTitle(Hms(hrs, mins, secs), ticked.display, currentSchedule, assemblyLetter);
      }
    }

    /** The unmount cleanup: the title and a grey icon are restored. */
    method Unmount()
      modifies this, favicon
      ensures title == "Bell Timer"
      ensures favicon.links == FaviconLatest.UpdateFaviconLinks(old(favicon.links), 60, 0, true)
      ensures view == old(view) && currentTime == old(currentTime) && activeSchedule == old(activeSchedule)
      ensures currentSchedule == old(currentSchedule) && scheduleName == old(scheduleName)
      ensures assemblyLetter == old(assemblyLetter) && mounted == old(mounted) && lastUpdateTime == old(lastUpdateTime)
    {
      title := "Bell Timer";
      favicon.UpdateFavicon(60, 0, true);
    }

    /** The large countdown as rendered. */
    function ShownCountdown(): string
      reads this
    {
      TimerPlus.ShownCountdown(view)
    }

    /** The clock line as rendered: `HH:MM`. */
    function ShownTime(): string
      reads this
    {
      TimerPlus.FormatTime(false, currentTime)
    }
  }
}
