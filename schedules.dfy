/** The bell schedules of the main timer: one table per weekday plus a
    minimum day and an assembly day, the weekday lookup and the renaming of
    assembly letters. */
module Schedules {
  import opened Timing

  /** One row of a schedule. Times are the table's `"h:mm"` strings; hours
      from 1 to 7 written without a marker mean the afternoon. */
  datatype Period = Period(name: string, startTime: ClockText, endTime: ClockText,
                           duration: Option<string>, isAnnouncement: bool)

  datatype Schedule = Schedule(name: string, displayName: string, periods: seq<Period>)

  const Monday: Schedule := Schedule("monday", "Monday", [
    Period("Warning Bell", ClockText(8, 25, ""), ClockText(8, 25, ""), None, false),
    Period("Period 1", ClockText(8, 30, ""), ClockText(9, 16, ""), Some("(46)"), false),
    Period("Period 2", ClockText(9, 19, ""), ClockText(10, 5, ""), Some("(46)"), false),
    Period("Period 3", ClockText(10, 8, ""), ClockText(10, 57, ""), Some("(49)"), true),
    Period("Brunch", ClockText(10, 57, ""), ClockText(11, 11, ""), Some("(14)"), false),
    Period("Period 4", ClockText(11, 14, ""), ClockText(12, 0, ""), Some("(46)"), false),
    Period("Period 5", ClockText(12, 3, ""), ClockText(12, 49, ""), Some("(46)"), false),
    Period("Lunch", ClockText(12, 49, ""), ClockText(1, 25, ""), Some("(36)"), false),
    Period("Period 6", ClockText(1, 28, ""), ClockText(2, 14, ""), Some("(46)"), false),
    Period("Period 7", ClockText(2, 17, ""), ClockText(3, 3, ""), Some("(46)"), false),
    Period("Free", ClockText(3, 3, ""), ClockText(23, 59, ""), None, false)])

  const Tuesday: Schedule := Schedule("tuesday", "Tuesday", [
    Period("Warning Bell", ClockText(8, 25, ""), ClockText(8, 25, ""), None, false),
    Period("Period 1", ClockText(8, 30, ""), ClockText(9, 12, ""), Some("(42)"), false),
    Period("Period 2", ClockText(9, 15, ""), ClockText(9, 57, ""), Some("(42)"), false),
    Period("Period 3", ClockText(10, 0, ""), ClockText(10, 42, ""), Some("(42)"), false),
    Period("Brunch", ClockText(10, 42, ""), ClockText(10, 56, ""), Some("(14)"), false),
    Period("Tutorial", ClockText(10, 59, ""), ClockText(11, 27, ""), Some("(28)"), false),
    Period("Period 4", ClockText(11, 30, ""), ClockText(12, 12, ""), Some("(42)"), false),
    Period("Period 5", ClockText(12, 15, ""), ClockText(12, 57, ""), Some("(42)"), false),
    Period("Lunch", ClockText(12, 57, ""), ClockText(1, 33, ""), Some("(36)"), false),
    Period("Period 6", ClockText(1, 36, ""), ClockText(2, 18, ""), Some("(42)"), false),
    Period("Period 7", ClockText(2, 21, ""), ClockText(3, 3, ""), Some("(42)"), false),
    Period("Free", ClockText(3, 3, ""), ClockText(23, 59, ""), None, false)])

  const Wednesday: Schedule := Schedule("wednesday", "Wednesday Block", [
    Period("Warning Bell", ClockText(9, 12, ""), ClockText(9, 12, ""), None, false),
    Period("Period 2", ClockText(9, 17, ""), ClockText(10, 39, ""), Some("(82)"), false),
    Period("Brunch", ClockText(10, 39, ""), ClockText(10, 53, ""), Some("(14)"), false),
    Period("Period 4", ClockText(10, 56, ""), ClockText(12, 18, ""), Some("(82)"), false),
    Period("Lunch", ClockText(12, 18, ""), ClockText(12, 54, ""), Some("(36)"), false),
    Period("Period 6", ClockText(12, 57, ""), ClockText(2, 19, ""), Some("(82)"), false),
    Period("Tutorial", ClockText(2, 22, ""), ClockText(3, 3, ""), Some("(41)"), true),
    Period("Free", ClockText(3, 3, ""), ClockText(23, 59, ""), None, false)])

  const Thursday: Schedule := Schedule("thursday", "Thursday Block", [
    Period("Warning Bell", ClockText(8, 25, ""), ClockText(8, 25, ""), None, false),
    Period("Period 1", ClockText(8, 30, ""), ClockText(9, 52, ""), Some("(82)"), false),
    Period("Break", ClockText(9, 52, ""), ClockText(9, 58, ""), Some("(6)"), false),
    Period("Period 3", ClockText(10, 1, ""), ClockText(11, 23, ""), Some("(82)"), false),
    Period("Brunch", ClockText(11, 23, ""), ClockText(11, 37, ""), Some("(14)"), false),
    Period("Period 5", ClockText(11, 40, ""), ClockText(1, 2, ""), Some("(82)"), false),
    Period("Lunch", ClockText(1, 2, ""), ClockText(1, 38, ""), Some("(36)"), false),
    Period("Period 7", ClockText(1, 41, ""), ClockText(3, 3, ""), Some("(82)"), false),
    Period("Free", ClockText(3, 3, ""), ClockText(23, 59, ""), None, false)])

  const Friday: Schedule := Schedule("friday", "Friday", [
    Period("Warning Bell", ClockText(8, 25, ""), ClockText(8, 25, ""), None, false),
    Period("Period 1", ClockText(8, 30, ""), ClockText(9, 12, ""), Some("(42)"), false),
    Period("Period 2", ClockText(9, 15, ""), ClockText(9, 57, ""), Some("(42)"), false),
    Period("Period 3", ClockText(10, 0, ""), ClockText(10, 42, ""), Some("(42)"), false),
    Period("Brunch", ClockText(10, 42, ""), ClockText(10, 56, ""), Some("(14)"), false),
    Period("Advisory", ClockText(10, 59, ""), ClockText(11, 27, ""), Some("(28)"), false),
    Period("Period 4", ClockText(11, 30, ""), ClockText(12, 12, ""), Some("(42)"), false),
    Period("Period 5", ClockText(12, 15, ""), ClockText(12, 57, ""), Some("(42)"), false),
    Period("Lunch", ClockText(12, 57, ""), ClockText(1, 33, ""), Some("(36)"), false),
    Period("Period 6", ClockText(1, 36, ""), ClockText(2, 18, ""), Some("(42)"), false),
    Period("Period 7", ClockText(2, 21, ""), ClockText(3, 3, ""), Some("(42)"), false),
    Period("Free", ClockText(3, 3, ""), ClockText(23, 59, ""), None, false)])

  const Saturday: Schedule := Schedule("saturday", "Saturday", [
    Period("Weekend", ClockText(0, 0, ""), ClockText(23, 59, ""), Some("(24h)"), false)])

  const Sunday: Schedule := Schedule("sunday", "Sunday", [
    Period("Weekend", ClockText(0, 0, ""), ClockText(23, 59, ""), Some("(24h)"), false)])

  const MinimumDay: Schedule := Schedule("minimumDay", "Minimum Day", [
    Period("Period 1", ClockText(8, 30, ""), ClockText(9, 0, ""), None, false),
    Period("Period 2", ClockText(9, 3, ""), ClockText(9, 33, ""), None, false),
    Period("Period 3", ClockText(9, 36, ""), ClockText(10, 6, ""), None, false),
    Period("Period 4", ClockText(10, 9, ""), ClockText(10, 39, ""), None, false),
    Period("Brunch", ClockText(10, 39, ""), ClockText(10, 51, ""), None, false),
    Period("Period 5", ClockText(10, 54, ""), ClockText(11, 24, ""), None, false),
    Period("Period 6", ClockText(11, 27, ""), ClockText(11, 57, ""), None, false),
    Period("Period 7", ClockText(12, 0, ""), ClockText(12, 30, ""), None, false),
    Period("Free", ClockText(12, 30, ""), ClockText(23, 59, ""), None, false)])

  const Assembly: Schedule := Schedule("assembly", "Assembly", [
    Period("A", ClockText(8, 30, ""), ClockText(9, 10, ""), None, false),
    Period("B", ClockText(9, 13, ""), ClockText(9, 53, ""), None, false),
    Period("C", ClockText(9, 56, ""), ClockText(10, 37, ""), None, false),
    Period("Brunch", ClockText(10, 37, ""), ClockText(10, 51, ""), None, false),
    Period("D", ClockText(10, 54, ""), ClockText(11, 34, ""), None, false),
    Period("E", ClockText(11, 37, ""), ClockText(12, 17, ""), None, false),
    Period("Lunch", ClockText(12, 17, ""), ClockText(12, 54, ""), None, false),
    Period("F", ClockText(12, 57, ""), ClockText(1, 37, ""), None, false),
    Period("G", ClockText(1, 40, ""), ClockText(2, 20, ""), None, false),
    Period("H", ClockText(2, 23, ""), ClockText(3, 3, ""), None, false),
    Period("Free", ClockText(3, 3, ""), ClockText(23, 59, ""), None, false)])

  /** The `schedules` object, keyed by each schedule's own name. */
  const Table: map<string, Schedule> := map[
    "monday" := Monday, "tuesday" := Tuesday, "wednesday" := Wednesday,
    "thursday" := Thursday, "friday" := Friday, "saturday" := Saturday,
    "sunday" := Sunday, "minimumDay" := MinimumDay, "assembly" := Assembly]

  /** Every entry of the table is filed under its own name. */
  lemma TableKeyedByName()
    ensures forall k :: k in Table ==> Table[k].name == k
  {
  }

  /** `getCurrentDaySchedule()` for the day `getDay()` returns. The
      bell-plus copy has the same switch over its own, different tables. */
  function GetCurrentDaySchedule(day: int): (r: Schedule)
    ensures r.name in Table && Table[r.name] == r
    ensures day == 0 || day == 6 <==> (r.name == "saturday" || r.name == "sunday")
  {
    match day
    case 0 => Sunday
    case 1 => Monday
    case 2 => Tuesday
    case 3 => Wednesday
    case 4 => Thursday
    case 5 => Friday
    case 6 => Saturday
    case _ => Monday
  }

  /** `assemblyToPeriodMap`: letters A to F stand for periods 1 to 6, and both
      G and H for period 7. */
  const AssemblyToPeriodMap: map<string, string> := map[
    "A" := "Period 1", "B" := "Period 2", "C" := "Period 3", "D" := "Period 4",
    "E" := "Period 5", "F" := "Period 6", "G" := "Period 7", "H" := "Period 7"]

  /** A key of `assemblyToPeriodMap`: one capital letter from A to H. */
  predicate IsAssemblyLetter(x: string)
  {
    |x| == 1 && 'A' <= x[0] <= 'H'
  }

  lemma AssemblyLetterKeys(x: string)
    ensures x in AssemblyToPeriodMap <==> IsAssemblyLetter(x)
  {
    if IsAssemblyLetter(x) {
      assert x == [x[0]];
    }
  }

  /** `getAssemblyPeriodName(letter, periodLetter)`: the selected letter reads
      "Assembly", another letter its period, anything else `undefined`. */
  function GetAssemblyPeriodName(letter: string, periodLetter: string): (r: Label)
    ensures r.Text? <==> periodLetter == letter || periodLetter in AssemblyToPeriodMap
    ensures r == Text("Assembly") <==> periodLetter == letter
    ensures periodLetter != letter && periodLetter in AssemblyToPeriodMap ==>
      r == Text(AssemblyToPeriodMap[periodLetter])
  {
    if periodLetter == letter then Text("Assembly")
    else if periodLetter in AssemblyToPeriodMap then Text(AssemblyToPeriodMap[periodLetter])
    else Undefined
  }

  /** The rows of the assembly table that are not lettered classes. */
  predicate IsBreakRow(name: string)
  {
    name == "Brunch" || name == "Lunch" || name == "Free"
  }

  /** Every row of `ps` from index `i` on is a lettered class or a break row. */
  predicate LettersOrBreaks(ps: seq<Period>, i: nat)
    decreases |ps| - i
  {
    i >= |ps| || ((IsAssemblyLetter(ps[i].name) || IsBreakRow(ps[i].name)) && LettersOrBreaks(ps, i + 1))
  }

  lemma {:induction false} LettersOrBreaksEach(ps: seq<Period>, i: nat, k: int)
    requires LettersOrBreaks(ps, i) && i <= k < |ps|
    ensures IsAssemblyLetter(ps[k].name) || IsBreakRow(ps[k].name)
    decreases k - i
  {
    if k > i {
      LettersOrBreaksEach(ps, i + 1, k);
    }
  }

  /** Whichever letter holds the assembly, exactly the Brunch, Lunch and
      trailing Free rows of the assembly table have no display name, so a
      renamed timer shows them as `undefined`. */
  lemma AssemblyBreaksUndefined(letter: string, i: int)
    requires letter in AssemblyToPeriodMap && 0 <= i < |Assembly.periods|
    ensures GetAssemblyPeriodName(letter, Assembly.periods[i].name) == Undefined <==> IsBreakRow(Assembly.periods[i].name)
  {
    AssemblyLettersOrBreaks();
    LettersOrBreaksEach(Assembly.periods, 0, i);
    AssemblyLetterKeys(Assembly.periods[i].name);
  }

  lemma AssemblyLettersOrBreaks()
    ensures LettersOrBreaks(Assembly.periods, 0)
  {
  }
}
