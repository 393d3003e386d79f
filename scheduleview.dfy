/** The schedule list of the main timer: every row of the day's schedule
    with its start time, marked complete, current or upcoming, and a marker
    on passing periods. Times are read in minutes after midnight, a bare
    hour from 1 to 7 counting as the afternoon. */
module ScheduleView {
  import opened JsText
  import opened Timing
  import opened Schedules
  import TimerMain

  /** 23:59, where the last row ends. */
  const EndOfDay: int := 23 * 60 + 59

  /** `timeToMinutes(timeStr)`. `parseInt` reads the digits and ignores
      whatever follows the minutes, so a suffix never matters here. The
      result is the main timer's reading of the same text, in minutes. */
  function TimeToMinutes(t: ClockText): (r: int)
    ensures r * MinuteMs == TimerMain.ParseTimeString(t)
    ensures r >= 0
  {
    var hours := if 1 <= t.hour < 8 then t.hour + 12 else t.hour;
    hours * 60 + t.minute
  }

  function StartMinutes(p: Period): int
  {
    TimeToMinutes(p.startTime)
  }

  /** `getHours() * 60 + getMinutes()`: the clock the rows are drawn against. */
  function ClockMinutes(now: Instant): int
  {
    now.Hours() * 60 + now.Minutes()
  }

  /** The clock as `findCurrentPeriod` reads it: written out as `"h:mm"` and
      passed through `timeToMinutes`, so an hour from 1 to 7 in the morning
      is taken for the same hour in the afternoon. */
  function NowMinutes(now: Instant): (r: int)
    requires now.Valid()
    ensures 1 <= now.Hours() <= 7 ==> r == ClockMinutes(now) + 12 * 60
    ensures !(1 <= now.Hours() <= 7) ==> r == ClockMinutes(now)
  {
    TimeToMinutes(ClockText(now.Hours(), now.Minutes(), ""))
  }

  /** Row `i` of the loop lasts from its own start to the next row's start. */
  predicate InWindow(ps: seq<Period>, i: int, t: int)
    requires 0 <= i < |ps| - 1
  {
    StartMinutes(ps[i]) <= t < StartMinutes(ps[i + 1])
  }

  /** The loop of `findCurrentPeriod` from index `from` on: the first row
      whose window holds `t`, if there is one. */
  function FirstWindow(ps: seq<Period>, from: nat, t: int): (r: Option<nat>)
    ensures r.Some? ==> from <= r.value < |ps| - 1 && InWindow(ps, r.value, t) &&
                        (forall j :: from <= j < r.value ==> !InWindow(ps, j, t))
    ensures r.None? ==> forall j :: from <= j < |ps| - 1 ==> !InWindow(ps, j, t)
    decreases |ps| - from
  {
    if from >= |ps| - 1 then None
    else if InWindow(ps, from, t) then Some(from)
    else FirstWindow(ps, from + 1, t)
  }

  /** The name `findCurrentPeriod` leaves in `currentPeriod`: the row found,
      or, when no window holds the time, whatever was there before. */
  function PeriodAt(ps: seq<Period>, t: int, previous: string): string
  {
    match FirstWindow(ps, 0, t)
    case Some(i) => ps[i].name
    case None => previous
  }

  /** Start times strictly ascending, in minutes. */
  predicate Ascending(ps: seq<Period>)
  {
    forall j, k :: 0 <= j < k < |ps| ==> StartMinutes(ps[j]) < StartMinutes(ps[k])
  }

  /** Ascending for the timer is ascending for the list. */
  lemma AscendingAsTimer(ps: seq<Period>)
    requires TimerMain.StartsAscending(ps)
    ensures Ascending(ps)
  {
    forall j, k | 0 <= j < k < |ps|
      ensures StartMinutes(ps[j]) < StartMinutes(ps[k])
    {
      assert TimerMain.StartOf(ps[j]) < TimerMain.StartOf(ps[k]);
      assert StartMinutes(ps[j]) * MinuteMs < StartMinutes(ps[k]) * MinuteMs;
    }
  }

  /** With ascending starts a time lies in at most one window. */
  lemma WindowUnique(ps: seq<Period>, i: int, j: int, t: int)
    requires Ascending(ps) && 0 <= i < |ps| - 1 && 0 <= j < |ps| - 1
    requires InWindow(ps, i, t) && InWindow(ps, j, t)
    ensures i == j
  {
  }

  /** With ascending starts the loop finds the one window that holds the
      time, and reports that row's name. */
  lemma FindsTheWindow(ps: seq<Period>, i: int, t: int, previous: string)
    requires Ascending(ps) && 0 <= i < |ps| - 1 && InWindow(ps, i, t)
    ensures FirstWindow(ps, 0, t) == Some(i)
    ensures PeriodAt(ps, t, previous) == ps[i].name
  {
    var f := FirstWindow(ps, 0, t);
    WindowUnique(ps, i, f.value, t);
  }

  /** How one row of the list is drawn. */
  datatype Row = Row(displayName: Label, isComplete: bool, isCurrent: bool, isPassing: bool)

  /** A row ends where the next one starts; the last row ends at 23:59. */
  function EndMinutes(ps: seq<Period>, i: int): int
    requires 0 <= i < |ps|
  {
    if i < |ps| - 1 then StartMinutes(ps[i + 1]) else EndOfDay
  }

  /** The moving dot: a name containing "passing" in any case, or "Break". */
  predicate IsPassing(name: string)
  {
    Contains(Lower(name), "passing") || name == "Break"
  }

  /** The row's label: renamed through the assembly letters only when the
      schedule passed in is the assembly one. */
  function DisplayName(activeName: Option<string>, letter: string, name: string): Label
  {
    if activeName == Some("assembly") then GetAssemblyPeriodName(letter, name) else Text(name)
  }

  /** Row `i` of the list drawn at clock minute `now`: it is complete once
      past its end and current from its start until its end. */
  function ClassifyRow(ps: seq<Period>, i: int, activeName: Option<string>, letter: string, now: int): (r: Row)
    requires 0 <= i < |ps|
    ensures !(r.isComplete && r.isCurrent)
    ensures now == EndMinutes(ps, i) ==> !r.isComplete && !r.isCurrent
    ensures r.isCurrent ==> !(now < StartMinutes(ps[i])) && !r.isComplete
  {
    var start := StartMinutes(ps[i]);
    var end := EndMinutes(ps, i);
    Row(DisplayName(activeName, letter, ps[i].name), now > end, now >= start && now < end, IsPassing(ps[i].name))
  }

  /** The list ends with a row named "Free", which is not drawn. */
  predicate TrailingFree(ps: seq<Period>)
  {
    |ps| > 0 && ps[|ps| - 1].name == "Free"
  }

  /** The rows drawn for a schedule: all of them but a trailing Free one,
      each classified on its own. */
  function Rows(ps: seq<Period>, activeName: Option<string>, letter: string, now: int): (r: seq<Row>)
    ensures |r| == if TrailingFree(ps) then |ps| - 1 else |ps|
    ensures forall i :: 0 <= i < |r| ==> r[i] == ClassifyRow(ps, i, activeName, letter, now)
  {
    var n := if TrailingFree(ps) then |ps| - 1 else |ps|;
    seq(n, i requires 0 <= i < n => ClassifyRow(ps, i, activeName, letter, now))
  }

  /** With ascending starts a row ends no later than any later row starts. */
  lemma RowsInOrder(ps: seq<Period>, i: int, j: int)
    requires Ascending(ps) && 0 <= i < j < |ps|
    ensures EndMinutes(ps, i) <= StartMinutes(ps[j])
  {
    assert i + 1 < j ==> StartMinutes(ps[i + 1]) < StartMinutes(ps[j]);
  }

  /** With ascending starts at most one drawn row is current. */
  lemma OneCurrentRow(ps: seq<Period>, activeName: Option<string>, letter: string, now: int, i: int, j: int)
    requires Ascending(ps)
    requires var rows := Rows(ps, activeName, letter, now);
      0 <= i < |rows| && 0 <= j < |rows| && rows[i].isCurrent && rows[j].isCurrent
    ensures i == j
  {
    if i < j {
      RowsInOrder(ps, i, j);
    } else if j < i {
      RowsInOrder(ps, j, i);
    }
  }

  /** Outside the small hours the list and `findCurrentPeriod` agree: a row
      before the last is drawn as current exactly when the loop picks it. */
  lemma RowsAgreeWithLoop(ps: seq<Period>, activeName: Option<string>, letter: string, now: Instant, i: int)
    requires now.Valid() && Ascending(ps) && !(1 <= now.Hours() <= 7)
    requires 0 <= i < |ps| - 1
    ensures ClassifyRow(ps, i, activeName, letter, ClockMinutes(now)).isCurrent <==>
      FirstWindow(ps, 0, NowMinutes(now)) == Some(i)
  {
    if InWindow(ps, i, NowMinutes(now)) {
      FindsTheWindow(ps, i, NowMinutes(now), "");
    }
  }

  /** Every name a row of the main timer's tables carries. */
  const RowNames: set<string> := {
    "Warning Bell", "Period 1", "Period 2", "Period 3", "Period 4", "Period 5",
    "Period 6", "Period 7", "Brunch", "Lunch", "Tutorial", "Advisory", "Break",
    "Free", "Weekend", "A", "B", "C", "D", "E", "F", "G", "H"}

  /** Every row of `ps` is named from `RowNames`. */
  predicate NamedFromRowNames(ps: seq<Period>)
  {
    forall i :: 0 <= i < |ps| ==> ps[i].name in RowNames
  }

  /** Each table's rows are named from `RowNames`. */
  lemma TablesUseRowNames()
    ensures forall k, i :: k in Table && 0 <= i < |Table[k].periods| ==> Table[k].periods[i].name in RowNames
  {
    assert NamedFromRowNames(Monday.periods);
    assert NamedFromRowNames(Tuesday.periods);
    assert NamedFromRowNames(Wednesday.periods);
    assert NamedFromRowNames(Thursday.periods);
    assert NamedFromRowNames(Friday.periods);
    assert NamedFromRowNames(Saturday.periods);
    assert NamedFromRowNames(Sunday.periods);
    assert NamedFromRowNames(MinimumDay.periods);
    assert NamedFromRowNames(Assembly.periods);
    assert forall k :: k in Table ==> NamedFromRowNames(Table[k].periods);
  }

  /** A name containing "passing" in any case has a p and an a in it. */
  lemma PassingNeedsLetters(name: string)
    ensures Contains(Lower(name), "passing") ==> ('p' in name || 'P' in name) && ('a' in name || 'A' in name)
  {
    if Contains(Lower(name), "passing") {
      assert "passing"[0] == 'p' && "passing"[1] == 'a';
      ContainsHasChars(Lower(name), "passing", 0);
      ContainsHasChars(Lower(name), "passing", 1);
      LowerHasLetter(name, 'p');
      LowerHasLetter(name, 'a');
    }
  }

  lemma NoLetterP(name: string)
    requires name in {"Warning Bell", "Brunch", "Lunch", "Tutorial", "Advisory", "Break", "Free", "Weekend"}
    ensures 'p' !in name && 'P' !in name
  {
  }

  lemma NoLetterPInLetters(name: string)
    requires name in {"A", "B", "C", "D", "E", "F", "G", "H"}
    ensures 'p' !in name && 'P' !in name
  {
  }

  lemma NoLetterA(name: string)
    requires name in {"Period 1", "Period 2", "Period 3", "Period 4", "Period 5", "Period 6", "Period 7"}
    ensures 'a' !in name && 'A' !in name
  {
  }

  /** No table has a passing row, so the dot marks the Break row alone. */
  lemma PassingMarksBreakOnly(name: string)
    requires name in RowNames
    ensures IsPassing(name) <==> name == "Break"
  {
    PassingNeedsLetters(name);
    if name in {"Warning Bell", "Brunch", "Lunch", "Tutorial", "Advisory", "Break", "Free", "Weekend"} {
      NoLetterP(name);
    } else if name in {"A", "B", "C", "D", "E", "F", "G", "H"} {
      NoLetterPInLetters(name);
    } else {
      NoLetterA(name);
    }
  }

  /** On the assembly schedule every drawn row but Brunch and Lunch
      is named, while those two are left without a label, because the main
      timer's renaming leaves them `undefined`. */
  lemma AssemblyBreaksUnlabelled(letter: string, i: int, now: int)
    requires letter in AssemblyToPeriodMap
    requires 0 <= i < |Rows(Assembly.periods, Some("assembly"), letter, now)|
    ensures var name := Assembly.periods[i].name;
      Rows(Assembly.periods, Some("assembly"), letter, now)[i].displayName == Undefined <==>
      name == "Brunch" || name == "Lunch"
  {
    AssemblyBreaksUndefined(letter, i);
  }

  /** The list component: whether it has mounted, the schedule it shows and
      the period `findCurrentPeriod` last found. */
  class ScheduleList {
    var mounted: bool
    var currentSchedule: Option<Schedule>
    var currentPeriod: string

    constructor()
      ensures !mounted && currentSchedule == None && currentPeriod == ""
    {
      mounted := false;
      currentSchedule := None;
      currentPeriod := "";
    }

    /** `findCurrentPeriod()` over the rows `ps`: the first window holding
        the clock sets `currentPeriod`; with none, it keeps its value. */
    method FindCurrentPeriod(ps: seq<Period>, now: Instant)
      requires now.Valid()
      modifies this
      ensures mounted == old(mounted) && currentSchedule == old(currentSchedule)
      ensures currentPeriod == PeriodAt(ps, NowMinutes(now), old(currentPeriod))
    {
      var i := 0;
      while i < |ps| - 1
        invariant 0 <= i <= |ps|
        invariant FirstWindow(ps, i, NowMinutes(now)) == FirstWindow(ps, 0, NowMinutes(now))
        invariant mounted == old(mounted) && currentSchedule == old(currentSchedule)
        invariant currentPeriod == old(currentPeriod)
      {
        var periodStart := TimeToMinutes(ps[i].startTime);
        var periodEnd := TimeToMinutes(ps[i + 1].startTime);
        var currentTimeMinutes := TimeToMinutes(ClockText(now.Hours(), now.Minutes(), ""));
        if currentTimeMinutes >= periodStart && currentTimeMinutes < periodEnd {
          currentPeriod := ps[i].name;
          break;
        }
        i := i + 1;
      }
    }

    /** The effect run on mount and whenever the schedules change: the
        component counts as mounted, shows the schedule passed in or else
        today's, and looks for the current period in the schedule it held
        when the effect started (none on the first run). */
    method RunEffect(activeSchedule: Option<Schedule>, today: int, now: Instant)
      requires now.Valid()
      modifies this
      ensures mounted
      ensures currentSchedule == Some(if activeSchedule.Some? then activeSchedule.value else GetCurrentDaySchedule(today))
      ensures old(currentSchedule).Some? ==>
        currentPeriod == PeriodAt(old(currentSchedule).value.periods, NowMinutes(now), old(currentPeriod))
      ensures old(currentSchedule).None? ==> currentPeriod == old(currentPeriod)
    {
      var seen := currentSchedule;
      mounted := true;
      currentSchedule := Some(if activeSchedule.Some? then activeSchedule.value else GetCurrentDaySchedule(today));
      if seen.Some? {
        FindCurrentPeriod(seen.value.periods, now);
      }
    }

    /** What the component draws: nothing before it has mounted and found a
        schedule, then the rows of that schedule. */
    function Rendered(activeName: Option<string>, letter: string, now: Instant): (r: Option<seq<Row>>)
      reads this
      ensures r.Some? <==> mounted && currentSchedule.Some?
      ensures r.Some? ==> r.value == Rows(currentSchedule.value.periods, activeName, letter, ClockMinutes(now))
    {
      if mounted && currentSchedule.Some? then Some(Rows(currentSchedule.value.periods, activeName, letter, ClockMinutes(now)))
      else None
    }
  }
}
