/** The schedules of the redesigned timer. The rows are those of the main
    timer's tables, except that every school day opens with a five-minute
    warning bell, the minimum and assembly days carry printed lengths, and
    the renaming of assembly letters keeps Brunch and Lunch. */
module PlusSchedules {
  import opened Timing
  import opened Schedules

  const Monday: Schedule := Schedule("monday", "Monday", [
    Period("Warning Bell", ClockText(8, 25, ""), ClockText(8, 30, ""), None, false),
    Period("Period 1", ClockText(8, 30, ""), ClockText(9, 16, ""), Some("(46)"), false),
    Period("Period 2", ClockText(9, 19, ""), ClockText(10, 5, ""), Some("(46)"), false),
    Period("Period 3", ClockText(10, 8, ""), ClockText(10, 57, ""), Some("(49)"), true),
    Period("Brunch", ClockText(10, 57, ""), ClockText(11, 11, ""), Some("(14)"), false),
    Period("Period 4", ClockText(11, 14, ""), ClockText(12, 0, ""), Some("(46)"), false),
    Period("Period 5", ClockText(12, 3, ""), ClockText(12, 49, ""), Some("(46)"), false),
    Period("Lunch", ClockText(12, 49, ""), ClockText(1, 25, ""), Some("(36)"), false),
    Period("Period 6", ClockText(1, 28, ""), ClockText(2, 14, ""), Some("(46)"), false),
    Period("Period 7", ClockText(2, 17, ""), ClockText(3, 3, ""), Some("(46)"), false),
    Period("Free", ClockText(3, 3, ""), ClockText(23, 59, ""), None, false)])

  const Tuesday: Schedule := Schedule("tuesday", "Tuesday", [
    Period("Warning Bell", ClockText(8, 25, ""), ClockText(8, 30, ""), None, false),
    Period("Period 1", ClockText(8, 30, ""), ClockText(9, 12, ""), Some("(42)"), false),
    Period("Period 2", ClockText(9, 15, ""), ClockText(9, 57, ""), Some("(42)"), false),
    Period("Period 3", ClockText(10, 0, ""), ClockText(10, 42, ""), Some("(42)"), false),
    Period("Brunch", ClockText(10, 42, ""), ClockText(10, 56, ""), Some("(14)"), false),
    Period("Tutorial", ClockText(10, 59, ""), ClockText(11, 27, ""), Some("(28)"), false),
    Period("Period 4", ClockText(11, 30, ""), ClockText(12, 12, ""), Some("(42)"), false),
    Period("Period 5", ClockText(12, 15, ""), ClockText(12, 57, ""), Some("(42)"), false),
    Period("Lunch", ClockText(12, 57, ""), ClockText(1, 33, ""), Some("(36)"), false),
    Period("Period 6", ClockText(1, 36, ""), ClockText(2, 18, ""), Some("(42)"), false),
    Period("Period 7", ClockText(2, 21, ""), ClockText(3, 3, ""), Some("(42)"), false),
    Period("Free", ClockText(3, 3, ""), ClockText(23, 59, ""), None, false)])

  const Wednesday: Schedule := Schedule("wednesday", "Wednesday Block", [
    Period("Warning Bell", ClockText(9, 12, ""), ClockText(9, 17, ""), None, false),
    Period("Period 2", ClockText(9, 17, ""), ClockText(10, 39, ""), Some("(82)"), false),
    Period("Brunch", ClockText(10, 39, ""), ClockText(10, 53, ""), Some("(14)"), false),
    Period("Period 4", ClockText(10, 56, ""), ClockText(12, 18, ""), Some("(82)"), false),
    Period("Lunch", ClockText(12, 18, ""), ClockText(12, 54, ""), Some("(36)"), false),
    Period("Period 6", ClockText(12, 57, ""), ClockText(2, 19, ""), Some("(82)"), false),
    Period("Tutorial", ClockText(2, 22, ""), ClockText(3, 3, ""), Some("(41)"), false),
    Period("Free", ClockText(3, 3, ""), ClockText(23, 59, ""), None, false)])

  const Thursday: Schedule := Schedule("thursday", "Thursday Block", [
    Period("Warning Bell", ClockText(8, 25, ""), ClockText(8, 30, ""), None, false),
    Period("Period 1", ClockText(8, 30, ""), ClockText(9, 52, ""), Some("(82)"), false),
    Period("Break", ClockText(9, 52, ""), ClockText(9, 58, ""), Some("(6)"), false),
    Period("Period 3", ClockText(10, 1, ""), ClockText(11, 23, ""), Some("(82)"), false),
    Period("Brunch", ClockText(11, 23, ""), ClockText(11, 37, ""), Some("(14)"), false),
    Period("Period 5", ClockText(11, 40, ""), ClockText(1, 2, ""), Some("(82)"), false),
    Period("Lunch", ClockText(1, 2, ""), ClockText(1, 38, ""), Some("(36)"), false),
    Period("Period 7", ClockText(1, 41, ""), ClockText(3, 3, ""), Some("(82)"), false),
    Period("Free", ClockText(3, 3, ""), ClockText(23, 59, ""), None, false)])

  const Friday: Schedule := Schedule("friday", "Friday", [
    Period("Warning Bell", ClockText(8, 25, ""), ClockText(8, 30, ""), None, false),
    Period("Period 1", ClockText(8, 30, ""), ClockText(9, 12, ""), Some("(42)"), false),
    Period("Period 2", ClockText(9, 15, ""), ClockText(9, 57, ""), Some("(42)"), false),
    Period("Period 3", ClockText(10, 0, ""), ClockText(10, 42, ""), Some("(42)"), false),
    Period("Brunch", ClockText(10, 42, ""), ClockText(10, 56, ""), Some("(14)"), false),
    Period("Advisory", ClockText(10, 59, ""), ClockText(11, 27, ""), Some("(28)"), false),
    Period("Period 4", ClockText(11, 30, ""), ClockText(12, 12, ""), Some("(42)"), false),
    Period("Period 5", ClockText(12, 15, ""), ClockText(12, 57, ""), Some("(42)"), false),
    Period("Lunch", ClockText(12, 57, ""), ClockText(1, 33, ""), Some("(36)"), false),
    Period("Period 6", ClockText(1, 36, ""), ClockText(2, 18, ""), Some("(42)"), false),
    Period("Period 7", ClockText(2, 21, ""), ClockText(3, 3, ""), Some("(42)"), false),
    Period("Free", ClockText(3, 3, ""), ClockText(23, 59, ""), None, false)])

  const Saturday: Schedule := Schedule("saturday", "Saturday", [
    Period("Weekend", ClockText(0, 0, ""), ClockText(23, 59, ""), Some("(24h)"), false)])

  const Sunday: Schedule := Schedule("sunday", "Sunday", [
    Period("Weekend", ClockText(0, 0, ""), ClockText(23, 59, ""), Some("(24h)"), false)])

  const MinimumDay: Schedule := Schedule("minimumDay", "Minimum Day", [
    Period("Warning Bell", ClockText(8, 25, ""), ClockText(8, 30, ""), None, false),
    Period("Period 1", ClockText(8, 30, ""), ClockText(9, 0, ""), Some("(30)"), false),
    Period("Period 2", ClockText(9, 3, ""), ClockText(9, 33, ""), Some("(30)"), false),
    Period("Period 3", ClockText(9, 36, ""), ClockText(10, 6, ""), Some("(30)"), false),
    Period("Period 4", ClockText(10, 9, ""), ClockText(10, 39, ""), Some("(30)"), false),
    Period("Brunch", ClockText(10, 39, ""), ClockText(10, 51, ""), Some("(12)"), false),
    Period("Period 5", ClockText(10, 54, ""), ClockText(11, 24, ""), Some("(30)"), false),
    Period("Period 6", ClockText(11, 27, ""), ClockText(11, 57, ""), Some("(30)"), false),
    Period("Period 7", ClockText(12, 0, ""), ClockText(12, 30, ""), Some("(30)"), false),
    Period("Free", ClockText(12, 30, ""), ClockText(23, 59, ""), None, false)])

  const Assembly: Schedule := Schedule("assembly", "Assembly", [
    Period("Warning Bell", ClockText(8, 25, ""), ClockText(8, 30, ""), None, false),
    Period("A", ClockText(8, 30, ""), ClockText(9, 10, ""), Some("(40)"), false),
    Period("B", ClockText(9, 13, ""), ClockText(9, 53, ""), Some("(40)"), false),
    Period("C", ClockText(9, 56, ""), ClockText(10, 37, ""), Some("(41)"), false),
    Period("Brunch", ClockText(10, 37, ""), ClockText(10, 51, ""), Some("(14)"), false),
    Period("D", ClockText(10, 54, ""), ClockText(11, 34, ""), Some("(40)"), false),
    Period("E", ClockText(11, 37, ""), ClockText(12, 17, ""), Some("(40)"), false),
    Period("Lunch", ClockText(12, 17, ""), ClockText(12, 54, ""), Some("(37)"), false),
    Period("F", ClockText(12, 57, ""), ClockText(1, 37, ""), Some("(40)"), false),
    Period("G", ClockText(1, 40, ""), ClockText(2, 20, ""), Some("(40)"), false),
    Period("H", ClockText(2, 23, ""), ClockText(3, 3, ""), Some("(40)"), false),
    Period("Free", ClockText(3, 3, ""), ClockText(23, 59, ""), None, false)])

  /** The `schedules` object, keyed by each schedule's own name. */
  const Table: map<string, Schedule> := map[
    "monday" := Monday, "tuesday" := Tuesday, "wednesday" := Wednesday,
    "thursday" := Thursday, "friday" := Friday, "saturday" := Saturday,
    "sunday" := Sunday, "minimumDay" := MinimumDay, "assembly" := Assembly]

  /** `getCurrentDaySchedule()` for the day `getDay()` returns. The switch
      reads like the main timer's, but it picks from this copy's own tables,
      whose rows differ, so the two stay separate functions. */
  function GetCurrentDaySchedule(day: int): (r: Schedule)
    ensures r.name in Table && Table[r.name] == r
    ensures day == 0 || day == 6 <==> (r.name == "saturday" || r.name == "sunday")
  {
    match day
    case 0 => Sunday
    case 1 => Monday
    case 2 => Tuesday
    case 3 => Wednesday
    case 4 => Thursday
    case 5 => Friday
    case 6 => Saturday
    case _ => Monday
  }

  /** `getAssemblyPeriodName(letter, periodLetter)`: Brunch and Lunch keep
      their names, the selected letter reads "Assembly", another letter its
      period, anything else `undefined`. */
  function GetAssemblyPeriodName(letter: string, periodLetter: string): (r: Label)
    ensures (periodLetter == "Brunch" || periodLetter == "Lunch") ==> r == Text(periodLetter)
    ensures r.Text? <==> (periodLetter == "Brunch" || periodLetter == "Lunch") || periodLetter == letter || periodLetter in AssemblyToPeriodMap
    ensures periodLetter !in {"Brunch", "Lunch"} ==> r == Schedules.GetAssemblyPeriodName(letter, periodLetter)
  {
    if periodLetter == "Brunch" || periodLetter == "Lunch" then Text(periodLetter)
    else if periodLetter == letter then Text("Assembly")
    else if periodLetter in AssemblyToPeriodMap then Text(AssemblyToPeriodMap[periodLetter])
    else Undefined
  }

  /** Whatever letter holds the assembly, every class and break row of the
      assembly table gets a display name; only the warning bell before them
      and the trailing Free row stay `undefined`. */
  lemma AssemblyRowsNamed(letter: string, i: int)
    requires letter in AssemblyToPeriodMap && 1 <= i < |Assembly.periods| - 1
    ensures GetAssemblyPeriodName(letter, Assembly.periods[i].name).Text?
    ensures GetAssemblyPeriodName(letter, Assembly.periods[0].name) == Undefined
    ensures GetAssemblyPeriodName(letter, Assembly.periods[|Assembly.periods| - 1].name) == Undefined
  {
    AssemblyLettersOrBreaks();
    LettersOrBreaksEach(Assembly.periods, 1, i);
    AssemblyLetterKeys(Assembly.periods[i].name);
    AssemblyLetterKeys(letter);
  }

  lemma AssemblyLettersOrBreaks()
    ensures LettersOrBreaks(Assembly.periods, 1)
  {
  }
}
