/** The bell-plus schedule selector: the schedule named after today, the
    label on the selector button, which entries show as active, and the menu
    with its three sections. */
module Selector {
  import opened JsText
  import opened Timing
  import Settings

  /** The schedules named after a day, as the menu lists them. */
  const DayScheduleNames: seq<string> := ["monday", "tuesday", "wednesday", "thursday", "friday", "holiday"]

  /** `getCurrentDayScheduleName()` for the day number `Date.getDay()`
      returns; a number outside 0..6 falls to the default. */
  function CurrentDayScheduleName(weekday: int): (r: string)
    ensures r in DayScheduleNames
    ensures 0 <= weekday <= 6 ==> (r == "holiday" <==> weekday == 0 || weekday == 6)
  {
    if weekday == 0 || weekday == 6 then "holiday"
    else if weekday == 1 then "monday"
    else if weekday == 2 then "tuesday"
    else if weekday == 3 then "wednesday"
    else if weekday == 4 then "thursday"
    else if weekday == 5 then "friday"
    else "monday"
  }

  /** The five school days get five different schedules, in week order. */
  lemma SchoolDaysInOrder(weekday: int)
    requires 1 <= weekday <= 5
    ensures CurrentDayScheduleName(weekday) == DayScheduleNames[weekday - 1]
  {
  }

  /** `getTodayName()` */
  function TodayName(weekday: int): string
  {
    if weekday == 1 then "Monday"
    else if weekday == 2 then "Tuesday"
    else if weekday == 3 then "Wednesday"
    else if weekday == 4 then "Thursday"
    else if weekday == 5 then "Friday"
    else if weekday == 0 || weekday == 6 then "Holiday"
    else "Today"
  }

  /** `s.charAt(0).toUpperCase() + s.slice(1)` */
  function Capitalise(s: string): (r: string)
    ensures |r| == |s|
    ensures |s| > 0 ==> r[0] == UpperChar(s[0]) && r[1..] == s[1..]
  {
    if s == [] then "" else [UpperChar(s[0])] + s[1..]
  }

  /** On every real day number, the name shown next to "Today" is the name
      of today's schedule with its first letter capitalised. */
  lemma TodayNameIsCapitalised(weekday: int)
    requires 0 <= weekday <= 6
    ensures TodayName(weekday) == Capitalise(CurrentDayScheduleName(weekday))
  {
    var name := CurrentDayScheduleName(weekday);
    assert Capitalise(name) == [UpperChar(name[0])] + name[1..];
    if weekday == 0 || weekday == 6 {
      assert name[1..] == "oliday";
    } else if weekday == 1 {
      assert name[1..] == "onday";
    } else if weekday == 2 {
      assert name[1..] == "uesday";
    } else if weekday == 3 {
      assert name[1..] == "ednesday";
    } else if weekday == 4 {
      assert name[1..] == "hursday";
    } else {
      assert name[1..] == "riday";
    }
  }

  /** `getScheduleDisplayName()`: the text on the selector button. */
  function ScheduleDisplayName(currentSchedule: string, assemblyLetter: string): string
  {
    if currentSchedule == "assembly" then "Assembly " + assemblyLetter
    else if currentSchedule == "minimumDay" then "Minimum Day"
    else if currentSchedule in DayScheduleNames then Capitalise(currentSchedule)
    else "Regular Schedule"
  }

  /** The button reads "Today"'s name on the schedule chosen from "Today". */
  lemma TodayButtonAgrees(weekday: int, assemblyLetter: string)
    requires 0 <= weekday <= 6
    ensures ScheduleDisplayName(CurrentDayScheduleName(weekday), assemblyLetter) == TodayName(weekday)
  {
    TodayNameIsCapitalised(weekday);
  }

  /** An unknown schedule name reads as the regular schedule. */
  lemma UnknownReadsRegular(currentSchedule: string, assemblyLetter: string)
    requires currentSchedule != "assembly" && currentSchedule != "minimumDay"
    requires currentSchedule !in DayScheduleNames
    ensures ScheduleDisplayName(currentSchedule, assemblyLetter) == "Regular Schedule"
  {
  }

  /** The "Today" entry is active. */
  predicate TodayActive(currentSchedule: string, weekday: int)
  {
    currentSchedule in DayScheduleNames && currentSchedule == CurrentDayScheduleName(weekday)
  }

  /** The "Select Day..." entry is active. */
  predicate SelectDayActive(currentSchedule: string, weekday: int)
  {
    currentSchedule in DayScheduleNames && currentSchedule != CurrentDayScheduleName(weekday)
  }

  /** On a day schedule exactly one of the two entries is active, and on any
      other schedule neither. */
  lemma TodayOrSelectDay(currentSchedule: string, weekday: int)
    ensures !(TodayActive(currentSchedule, weekday) && SelectDayActive(currentSchedule, weekday))
    ensures currentSchedule in DayScheduleNames <==>
      (TodayActive(currentSchedule, weekday) || SelectDayActive(currentSchedule, weekday))
  {
  }

  /** The menu's three sections. */
  datatype Section = Main | Days | Assembly

  /** The selector's state, with the calls it makes to its two callbacks. */
  class ScheduleSelector {
    var isOpen: bool
    var activeMenuSection: Section
    var assemblyLetter: string
    var selectedDaySchedule: string
    /** The values passed to `onScheduleChange`, oldest first. */
    var scheduleChanges: seq<string>
    /** The values passed to `onAssemblyLetterChange`, oldest first. */
    var letterChanges: seq<string>

    /** The stored letter or "B"; the stored schedule or today's. */
    constructor(storedLetter: Option<string>, storedSchedule: Option<string>, weekday: int)
      ensures !isOpen && activeMenuSection == Main
      ensures assemblyLetter == Settings.StoredOr(storedLetter, "B")
      ensures selectedDaySchedule == Settings.StoredOr(storedSchedule, CurrentDayScheduleName(weekday))
      ensures scheduleChanges == [] && letterChanges == []
    {
      isOpen := false;
      activeMenuSection := Main;
      assemblyLetter := Settings.StoredOr(storedLetter, "B");
      selectedDaySchedule := Settings.StoredOr(storedSchedule, CurrentDayScheduleName(weekday));
      scheduleChanges := [];
      letterChanges := [];
    }

    /** The selector button. */
    method Toggle()
      modifies this
      ensures isOpen == !old(isOpen) && activeMenuSection == old(activeMenuSection)
      ensures assemblyLetter == old(assemblyLetter) && selectedDaySchedule == old(selectedDaySchedule)
      ensures scheduleChanges == old(scheduleChanges) && letterChanges == old(letterChanges)
    {
      isOpen := !isOpen;
    }

    /** `handleScheduleChange(schedule)`: "assembly" and "selectDay" open a
        section and keep the menu open; anything else is reported once and
        closes the menu back on its main section. */
    method HandleScheduleChange(schedule: string)
      modifies this
      ensures assemblyLetter == old(assemblyLetter) && selectedDaySchedule == old(selectedDaySchedule)
      ensures letterChanges == old(letterChanges)
      ensures schedule == "assembly" ==>
        activeMenuSection == Assembly && isOpen == old(isOpen) && scheduleChanges == old(scheduleChanges)
      ensures schedule == "selectDay" ==>
        activeMenuSection == Days && isOpen == old(isOpen) && scheduleChanges == old(scheduleChanges)
      ensures schedule != "assembly" && schedule != "selectDay" ==>
        activeMenuSection == Main && !isOpen && scheduleChanges == old(scheduleChanges) + [schedule]
    {
      if schedule == "assembly" {
        activeMenuSection := Assembly;
      } else if schedule == "selectDay" {
        activeMenuSection := Days;
      } else {
        scheduleChanges := scheduleChanges + [schedule];
        isOpen := false;
        activeMenuSection := Main;
      }
    }

    /** `handleDayScheduleChange(day)` */
    method HandleDayScheduleChange(day: string)
      modifies this
      ensures selectedDaySchedule == day && scheduleChanges == old(scheduleChanges) + [day]
      ensures !isOpen && activeMenuSection == Main
      ensures assemblyLetter == old(assemblyLetter) && letterChanges == old(letterChanges)
    {
      selectedDaySchedule := day;
      scheduleChanges := scheduleChanges + [day];
      isOpen := false;
      activeMenuSection := Main;
    }

    /** `handleAssemblyLetterChange(letter)`: the menu stays where it is. */
    method HandleAssemblyLetterChange(letter: string)
      modifies this
      ensures assemblyLetter == letter && letterChanges == old(letterChanges) + [letter]
      ensures isOpen == old(isOpen) && activeMenuSection == old(activeMenuSection)
      ensures selectedDaySchedule == old(selectedDaySchedule) && scheduleChanges == old(scheduleChanges)
    {
      assemblyLetter := letter;
      letterChanges := letterChanges + [letter];
    }

    /** `handleBackToMain()` */
    method HandleBackToMain()
      modifies this
      ensures activeMenuSection == Main && isOpen == old(isOpen)
      ensures assemblyLetter == old(assemblyLetter) && selectedDaySchedule == old(selectedDaySchedule)
      ensures scheduleChanges == old(scheduleChanges) && letterChanges == old(letterChanges)
    {
      activeMenuSection := Main;
    }

    /** `handleConfirmAssembly()`: the "Done" button reports "assembly". */
    method HandleConfirmAssembly()
      modifies this
      ensures scheduleChanges == old(scheduleChanges) + ["assembly"]
      ensures !isOpen && activeMenuSection == Main
      ensures assemblyLetter == old(assemblyLetter) && selectedDaySchedule == old(selectedDaySchedule)
      ensures letterChanges == old(letterChanges)
    {
      scheduleChanges := scheduleChanges + ["assembly"];
      isOpen := false;
      activeMenuSection := Main;
    }

    /** The "Today" entry: today's schedule is never one of the two section
        names, so it is always reported and closes the menu. */
    method ChooseToday(weekday: int)
      modifies this
      ensures scheduleChanges == old(scheduleChanges) + [CurrentDayScheduleName(weekday)]
      ensures !isOpen && activeMenuSection == Main
      ensures assemblyLetter == old(assemblyLetter) && selectedDaySchedule == old(selectedDaySchedule)
      ensures letterChanges == old(letterChanges)
    {
      HandleScheduleChange(CurrentDayScheduleName(weekday));
    }
  }
}
