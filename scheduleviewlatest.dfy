/** The schedule list of the uploaded copy of the redesigned timer. It reads
    a schedule time literally unless the text after the colon carries "PM"
    or "AM", and it shows the redesigned timer's tables, whose afternoon
    times are bare hours. Beside the reading as written sits the reading of
    the same copy's own timer, under which the afternoon rows fall into
    place. */
module ScheduleViewLatest {
  import opened JsText
  import opened Timing
  import opened Schedules
  import PlusSchedules
  import TimerLatest

  /** 23:59, where the last row ends. */
  const EndOfDay: int := 23 * 60 + 59

  /** How a schedule time is read: by this list's `timeToMinutes`, or by
      the timer of the same copy. */
  datatype Reading = AsWritten | AsTimer

  /** The text after the colon contains `m`, case and all. The minute digits
      hold no letter, so only the suffix is searched. */
  predicate MinuteTextHas(t: ClockText, m: string)
  {
    Contains(t.suffix, m)
  }

  /** `timeToMinutes(timeStr)`: 12 hours are added to an hour below 8 only
      when the minute text carries "PM", and 12 with "AM" becomes 0. */
  function TimeToMinutes(t: ClockText): int
  {
    var hours := if t.hour < 8 && MinuteTextHas(t, "PM") then t.hour + 12 else t.hour;
    var hours' := if hours == 12 && MinuteTextHas(t, "AM") then 0 else hours;
    hours' * 60 + t.minute
  }

  /** The same copy's timer reads the text with `parseTimeString`; this is
      that reading, in minutes. */
  function TimeToMinutesAsTimer(t: ClockText): (r: int)
    ensures r * MinuteMs == TimerLatest.ParseTimeString(t)
  {
    TimerLatest.ParseHour(t) * 60 + t.minute
  }

  /** The list's reading case by case. */
  lemma TimeToMinutesCases(t: ClockText)
    ensures !MinuteTextHas(t, "PM") && !MinuteTextHas(t, "AM") ==> TimeToMinutes(t) == t.hour * 60 + t.minute
    ensures MinuteTextHas(t, "PM") && 1 <= t.hour < 8 ==> TimeToMinutes(t) == (t.hour + 12) * 60 + t.minute
    ensures t.hour == 12 && MinuteTextHas(t, "AM") ==> TimeToMinutes(t) == t.minute
    ensures t.hour == 12 && MinuteTextHas(t, "PM") && !MinuteTextHas(t, "AM") ==> TimeToMinutes(t) == 12 * 60 + t.minute
  {
  }

  /** On a bare time, as the tables write them, the list and the timer
      disagree exactly on the hours 1 to 7, which the list keeps in the
      morning and the timer moves to the afternoon. */
  lemma BareTimesAsWritten(t: ClockText)
    requires t.suffix == ""
    ensures 1 <= t.hour <= 7 ==> TimeToMinutesAsTimer(t) == TimeToMinutes(t) + 12 * 60
    ensures !(1 <= t.hour <= 7) ==> TimeToMinutesAsTimer(t) == TimeToMinutes(t)
  {
    assert Lower(t.suffix) == "";
    assert !Contains("", "PM") && !Contains("", "AM");
  }

  function Minutes(reading: Reading, t: ClockText): int
  {
    match reading
    case AsWritten => TimeToMinutes(t)
    case AsTimer => TimeToMinutesAsTimer(t)
  }

  function StartMinutes(reading: Reading, p: Period): int
  {
    Minutes(reading, p.startTime)
  }

  /** `getHours() * 60 + getMinutes()`: the clock the rows are drawn against. */
  function ClockMinutes(now: Instant): int
  {
    now.Hours() * 60 + now.Minutes()
  }

  /** The clock as `findCurrentPeriod` reads it: written out as `"h:mm"`,
      with no marker, and passed through `timeToMinutes`, which then takes
      it as it is. */
  function NowMinutes(now: Instant): (r: int)
    requires now.Valid()
    ensures r == ClockMinutes(now)
  {
    assert !Contains("", "PM") && !Contains("", "AM");
    TimeToMinutes(ClockText(now.Hours(), now.Minutes(), ""))
  }

  /** Row `i` of the loop lasts from its own start to the next row's start. */
  predicate InWindow(reading: Reading, ps: seq<Period>, i: int, t: int)
    requires 0 <= i < |ps| - 1
  {
    StartMinutes(reading, ps[i]) <= t < StartMinutes(reading, ps[i + 1])
  }

  /** The loop of `findCurrentPeriod` from index `from` on: the first row
      whose window holds `t`, if there is one. */
  function FirstWindow(reading: Reading, ps: seq<Period>, from: nat, t: int): (r: Option<nat>)
    ensures r.Some? ==> from <= r.value < |ps| - 1 && InWindow(reading, ps, r.value, t) &&
                        (forall j :: from <= j < r.value ==> !InWindow(reading, ps, j, t))
    ensures r.None? ==> forall j :: from <= j < |ps| - 1 ==> !InWindow(reading, ps, j, t)
    decreases |ps| - from
  {
    if from >= |ps| - 1 then None
    else if InWindow(reading, ps, from, t) then Some(from)
    else FirstWindow(reading, ps, from + 1, t)
  }

  /** The name `findCurrentPeriod` leaves in `currentPeriod`: the row found,
      or, when no window holds the time, whatever was there before. */
  function PeriodAt(reading: Reading, ps: seq<Period>, t: int, previous: string): string
  {
    match FirstWindow(reading, ps, 0, t)
    case Some(i) => ps[i].name
    case None => previous
  }

  /** Start times strictly ascending under a reading. */
  predicate Ascending(reading: Reading, ps: seq<Period>)
  {
    forall j, k :: 0 <= j < k < |ps| ==> StartMinutes(reading, ps[j]) < StartMinutes(reading, ps[k])
  }

  /** With ascending starts the loop finds the one window that holds the
      time, and reports that row's name. */
  lemma FindsTheWindow(reading: Reading, ps: seq<Period>, i: int, t: int, previous: string)
    requires Ascending(reading, ps) && 0 <= i < |ps| - 1 && InWindow(reading, ps, i, t)
    ensures FirstWindow(reading, ps, 0, t) == Some(i)
    ensures PeriodAt(reading, ps, t, previous) == ps[i].name
  {
    var f := FirstWindow(reading, ps, 0, t);
    WindowUnique(reading, ps, i, f.value, t);
  }

  lemma WindowUnique(reading: Reading, ps: seq<Period>, i: int, j: int, t: int)
    requires Ascending(reading, ps) && 0 <= i < |ps| - 1 && 0 <= j < |ps| - 1
    requires InWindow(reading, ps, i, t) && InWindow(reading, ps, j, t)
    ensures i == j
  {
  }

  /** How one row of the list is drawn; break rows are always shown. */
  datatype Row = Row(displayName: Label, isComplete: bool, isCurrent: bool, isPassing: bool, isBreakPeriod: bool)

  /** A row ends where the next one starts; the last row ends at 23:59. */
  function EndMinutes(reading: Reading, ps: seq<Period>, i: int): int
    requires 0 <= i < |ps|
  {
    if i < |ps| - 1 then StartMinutes(reading, ps[i + 1]) else EndOfDay
  }

  /** The moving dot: a name containing "passing" in any case, or "Break". */
  predicate IsPassing(name: string)
  {
    Contains(Lower(name), "passing") || name == "Break"
  }

  /** `isBreakPeriod`: Brunch and Lunch. */
  predicate IsBreakPeriod(name: string)
  {
    name == "Brunch" || name == "Lunch"
  }

  /** The row's label: renamed through the assembly letters only when the
      schedule passed in is the assembly one. Brunch and Lunch keep their
      names under that renaming. */
  function DisplayName(activeName: Option<string>, letter: string, name: string): (r: Label)
    ensures IsBreakPeriod(name) ==> r == Text(name)
  {
    if activeName == Some("assembly") then PlusSchedules.GetAssemblyPeriodName(letter, name) else Text(name)
  }

  /** Row `i` of the list drawn at clock minute `now`: it is complete once
      past its end and current from its start until its end. */
  function ClassifyRow(reading: Reading, ps: seq<Period>, i: int, activeName: Option<string>, letter: string, now: int): (r: Row)
    requires 0 <= i < |ps|
    ensures !(r.isComplete && r.isCurrent)
    ensures now == EndMinutes(reading, ps, i) ==> !r.isComplete && !r.isCurrent
    ensures r.isCurrent ==> !(now < StartMinutes(reading, ps[i])) && !r.isComplete
  {
    var start := StartMinutes(reading, ps[i]);
    var end := EndMinutes(reading, ps, i);
    Row(DisplayName(activeName, letter, ps[i].name), now > end, now >= start && now < end,
        IsPassing(ps[i].name), IsBreakPeriod(ps[i].name))
  }

  /** The list ends with a row named "Free", which is not drawn. */
  predicate TrailingFree(ps: seq<Period>)
  {
    |ps| > 0 && ps[|ps| - 1].name == "Free"
  }

  /** The rows drawn for a schedule: all of them but a trailing Free one,
      each classified on its own. */
  function Rows(reading: Reading, ps: seq<Period>, activeName: Option<string>, letter: string, now: int): (r: seq<Row>)
    ensures |r| == if TrailingFree(ps) then |ps| - 1 else |ps|
    ensures forall i :: 0 <= i < |r| ==> r[i] == ClassifyRow(reading, ps, i, activeName, letter, now)
  {
    var n := if TrailingFree(ps) then |ps| - 1 else |ps|;
    seq(n, i requires 0 <= i < n => ClassifyRow(reading, ps, i, activeName, letter, now))
  }

  lemma RowsInOrder(reading: Reading, ps: seq<Period>, i: int, j: int)
    requires Ascending(reading, ps) && 0 <= i < j < |ps|
    ensures EndMinutes(reading, ps, i) <= StartMinutes(reading, ps[j])
  {
    assert i + 1 < j ==> StartMinutes(reading, ps[i + 1]) < StartMinutes(reading, ps[j]);
  }

  /** With ascending starts at most one drawn row is current. */
  lemma OneCurrentRow(reading: Reading, ps: seq<Period>, activeName: Option<string>, letter: string, now: int, i: int, j: int)
    requires Ascending(reading, ps)
    requires var rows := Rows(reading, ps, activeName, letter, now);
      0 <= i < |rows| && 0 <= j < |rows| && rows[i].isCurrent && rows[j].isCurrent
    ensures i == j
  {
    if i < j {
      RowsInOrder(reading, ps, i, j);
    } else if j < i {
      RowsInOrder(reading, ps, j, i);
    }
  }

  /** The list and `findCurrentPeriod` read the clock alike here, so a row
      before the last is drawn as current exactly when the loop picks it. */
  lemma RowsAgreeWithLoop(reading: Reading, ps: seq<Period>, activeName: Option<string>, letter: string, now: Instant, i: int)
    requires now.Valid() && Ascending(reading, ps) && 0 <= i < |ps| - 1
    ensures ClassifyRow(reading, ps, i, activeName, letter, ClockMinutes(now)).isCurrent <==>
      FirstWindow(reading, ps, 0, NowMinutes(now)) == Some(i)
  {
    if InWindow(reading, ps, i, NowMinutes(now)) {
      FindsTheWindow(reading, ps, i, NowMinutes(now), "");
    }
  }

  /** Monday at 13:30, in the middle of Period 6, drawn as written: the
      Period 6 row reads as starting at 01:28 and ending at 02:17, so it is
      shown as complete and not as current. */
  lemma MondayAfternoonAsWritten()
    ensures var row := ClassifyRow(AsWritten, PlusSchedules.Monday.periods, 8, None, "B", 13 * 60 + 30);
      PlusSchedules.Monday.periods[8].name == "Period 6" && row.isComplete && !row.isCurrent
  {
    var ps := PlusSchedules.Monday.periods;
    assert !Contains("", "PM") && !Contains("", "AM");
    assert StartMinutes(AsWritten, ps[8]) == 88;
    assert StartMinutes(AsWritten, ps[9]) == 137;
  }

  /** The same moment with the timer's reading: Period 6 is the current row. */
  lemma MondayAfternoonAsTimer()
    ensures var row := ClassifyRow(AsTimer, PlusSchedules.Monday.periods, 8, None, "B", 13 * 60 + 30);
      !row.isComplete && row.isCurrent
  {
    var ps := PlusSchedules.Monday.periods;
    BareTimesAsWritten(ps[8].startTime);
    BareTimesAsWritten(ps[9].startTime);
    assert !Contains("", "PM") && !Contains("", "AM");
    assert StartMinutes(AsTimer, ps[8]) == 13 * 60 + 28;
    assert StartMinutes(AsTimer, ps[9]) == 14 * 60 + 17;
  }

  /** The list component: whether it has mounted, the schedule it shows and
      the period `findCurrentPeriod` last found. */
  class ScheduleList {
    var mounted: bool
    var currentSchedule: Option<Schedule>
    var currentPeriod: string

    constructor()
      ensures !mounted && currentSchedule == None && currentPeriod == ""
    {
      mounted := false;
      currentSchedule := None;
      currentPeriod := "";
    }

    /** The first effect, run on mount and whenever `activeSchedule`
        changes: the component counts as mounted and shows the schedule
        passed in or else today's. */
    method SelectSchedule(activeSchedule: Option<Schedule>, today: int)
      modifies this
      ensures mounted && currentPeriod == old(currentPeriod)
      ensures currentSchedule == Some(if activeSchedule.Some? then activeSchedule.value else PlusSchedules.GetCurrentDaySchedule(today))
    {
      mounted := true;
      if activeSchedule.Some? {
        currentSchedule := activeSchedule;
      } else {
        currentSchedule := Some(PlusSchedules.GetCurrentDaySchedule(today));
      }
    }

    /** The second effect and its once-a-minute repeat: nothing until the
        component has mounted with a schedule, then `findCurrentPeriod`. */
    method FindCurrentPeriod(now: Instant)
      requires now.Valid()
      modifies this
      ensures mounted == old(mounted) && currentSchedule == old(currentSchedule)
      ensures currentPeriod == (if mounted && currentSchedule.Some?
                                then PeriodAt(AsWritten, currentSchedule.value.periods, NowMinutes(now), old(currentPeriod))
                                else old(currentPeriod))
    {
      if currentSchedule.None? || !mounted {
        return;
      }
      var ps := currentSchedule.value.periods;
      var i := 0;
      while i < |ps| - 1
        invariant 0 <= i <= |ps|
        invariant FirstWindow(AsWritten, ps, i, NowMinutes(now)) == FirstWindow(AsWritten, ps, 0, NowMinutes(now))
        invariant mounted == old(mounted) && currentSchedule == old(currentSchedule)
        invariant currentPeriod == old(currentPeriod)
      {
        var periodStart := TimeToMinutes(ps[i].startTime);
        var periodEnd := TimeToMinutes(ps[i + 1].startTime);
        var currentTimeMinutes := TimeToMinutes(ClockText(now.Hours(), now.Minutes(), ""));
        if currentTimeMinutes >= periodStart && currentTimeMinutes < periodEnd {
          currentPeriod := ps[i].name;
          break;
        }
        i := i + 1;
      }
    }

    /** What the component draws: nothing before it has mounted and found a
        schedule, then the rows of that schedule. */
    function Rendered(activeName: Option<string>, letter: string, now: Instant): (r: Option<seq<Row>>)
      reads this
      ensures r.Some? <==> mounted && currentSchedule.Some?
      ensures r.Some? ==> r.value == Rows(AsWritten, currentSchedule.value.periods, activeName, letter, ClockMinutes(now))
    {
      if mounted && currentSchedule.Some? then Some(Rows(AsWritten, currentSchedule.value.periods, activeName, letter, ClockMinutes(now)))
      else None
    }
  }
}
