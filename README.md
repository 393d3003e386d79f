# Bell timer model

A Dafny model of the school bell timer: the countdown that tells students which
period is running, how long is left and what comes next. The repository holds
four diverging copies of the timer component, and each is modelled on its own:

- the main timer (`src/components/BellTimer.tsx`), module `TimerMain`;
- the bell-plus timer with warning bells and passing periods
  (`bell-plus-aesthetic/bell-plus-aesthetic/src/components/BellTimer.tsx`), module `TimerPlus`;
- the uploaded copy of that project (`bell-plus-aesthetic/uploads/extracted-latest/bell-plus-aesthetic/src/components/BellTimer.tsx`),
  module `TimerLatest`;
- the standalone timer with its Wednesday rule
  (`bell-plus-aesthetic/bell-plus-aesthetic/src/components/StandaloneBellTimer.tsx`), module `TimerStandalone`.

Around them the model covers the schedule tables and the assembly renaming
(`Schedules`, `PlusSchedules`, with the table invariants in `TableFacts`), the
schedule list's row classification (`ScheduleView`, `ScheduleViewLatest`), the
favicon urgency colours and their caches (`Favicon`, `FaviconLatest`), the
settings helpers (`Settings`, `SettingsLatest`, `SettingsPlus`) and the
schedule selector (`Selector`). Shared arithmetic lives in `Timing`, and the
JavaScript string primitives in `JsText`.

Time is a weekday `0..6` and an integer number of milliseconds after local
midnight. A schedule time such as `"1:28"` is a `ClockText` of hour, minute and
trailing marker text. Each copy's `findCurrentPeriod` is a specification
function `Resolve` over the displayed state. A method with a loop (`ChooseDisplay`,
`ChooseView`, `ChooseShown`) is proved equal to it. React state becomes the
fields of a class, whose methods state the whole new state. Progress is an
exact rational (`real`).

## Model

| member | source | states |
|---|---|---|
| Timing.JsRem | src/components/BellTimer.tsx:185-187 | the remainder has the dividend's sign and magnitude below the divisor, and equals Dafny's remainder on non-negative operands |
| Timing.ModOfHour | src/components/BellTimer.tsx:185-187 | the minutes and seconds taken from the remainder within the hour are those of the whole duration |
| Timing.SplitBounds | src/components/BellTimer.tsx:185-187 | a non-negative duration splits into hours, minutes below 60 and seconds below 60 that add up to it within a second |
| Timing.SplitJoin | src/components/BellTimer.tsx:185-187 | splitting is the inverse of joining for a triple in range, whatever sub-second rest is added |
| Timing.ReadThreeNumerals | src/components/BellTimer.tsx:148-150 | three numerals joined by colons read back as their values |
| Timing.ReadFormatCountdown | src/components/BellTimer.tsx:148-150 | the `hh:mm:ss` countdown text of non-negative fields reads back as those fields |
| Timing.Fraction | src/components/BellTimer.tsx:245 | the progress `Math.min(1, elapsed / total)` lies in [0, 1] for a non-negative elapsed time and positive total |
| JsText.Pad2Reads | src/components/BellTimer.tsx:148-150 | a padded number has at least two digits and reads back as the number |
| TableFacts.Minutes | src/components/BellTimer.tsx:130-145 | a table time in minutes, times 60000, is exactly the instant `parseTimeString` gives it |
| TableFacts.WellFormedAscending | src/data/schedules.ts:16-145 | in a well-formed day every start is later than every earlier start |
| TableFacts.MainTablesWellFormed | src/data/schedules.ts:16-145 | every table of the main timer has rows in order, labels giving their length in minutes, ends at 23:59, and has strictly increasing starts |
| TableFacts.PlusTablesWellFormed | bell-plus-aesthetic/bell-plus-aesthetic/src/data/schedules.ts:16-147 | every bell-plus table is well formed in the same sense, with each warning bell lasting five minutes, and has strictly increasing starts |
| TableFacts.MainDayScheduleWellFormed | src/data/schedules.ts:148-170 | whatever the weekday, the main timer's chosen schedule is well formed and ascending for both the timer and the schedule list |
| TableFacts.PlusDayScheduleWellFormed | bell-plus-aesthetic/bell-plus-aesthetic/src/data/schedules.ts:150-195 | whatever the weekday, the bell-plus timer's chosen schedule is well formed and ascending |
| TableFacts.PlusTablesBare | bell-plus-aesthetic/bell-plus-aesthetic/src/data/schedules.ts:16-147 | every bell-plus table writes its start times with no am/pm marker |
| TableFacts.BareReadingsAgree | bell-plus-aesthetic/uploads/extracted-latest/bell-plus-aesthetic/src/components/BellTimer.tsx:69-97 | on a time with no marker the uploaded timer's `parseTimeString` gives the main timer's instant |
| TableFacts.PlusTablesAscendForLatest | bell-plus-aesthetic/bell-plus-aesthetic/src/data/schedules.ts:16-147 | every bell-plus table has strictly increasing starts under the uploaded timer's reading, in milliseconds and in the list's minutes |
| TableFacts.PlusDayScheduleAscendsForLatest | bell-plus-aesthetic/bell-plus-aesthetic/src/data/schedules.ts:150-195 | whatever the weekday, the chosen bell-plus schedule meets the uploaded timer's and list's ascending requirement |
| Schedules.TableKeyedByName | src/data/schedules.ts:16-145 | every entry of the schedules table is filed under its own name |
| Schedules.GetCurrentDaySchedule | src/data/schedules.ts:148-170 | Monday to Friday get their own schedule and the weekend days the weekend ones; a number outside 0..6 gets the Monday schedule |
| Schedules.AssemblyLetterKeys | src/data/schedules.ts:173-182 | the letter map has exactly the keys A to H |
| Schedules.GetAssemblyPeriodName | src/data/schedules.ts:185-204 | the selected letter reads "Assembly", another key letter its mapped period, anything else is undefined |
| Schedules.AssemblyLettersOrBreaks | src/data/schedules.ts:16-145 | every row of the assembly table is a lettered class or one of Brunch, Lunch, Free |
| Schedules.AssemblyBreaksUndefined | src/data/schedules.ts:185-204 | for every assembly letter, exactly the Brunch, Lunch and trailing Free rows of the assembly table have no display name |
| PlusSchedules.GetCurrentDaySchedule | bell-plus-aesthetic/bell-plus-aesthetic/src/data/schedules.ts:150-195 | the weekday's own schedule, a number outside 0..6 falling to the Monday schedule |
| PlusSchedules.GetAssemblyPeriodName | bell-plus-aesthetic/bell-plus-aesthetic/src/data/schedules.ts:210-233 | Brunch and Lunch keep their names, the selected letter reads "Assembly", another letter its period, anything else is undefined |
| PlusSchedules.AssemblyLettersOrBreaks | bell-plus-aesthetic/bell-plus-aesthetic/src/data/schedules.ts:16-147 | every row of the assembly table is a warning bell, a lettered class or a break row |
| PlusSchedules.AssemblyRowsNamed | bell-plus-aesthetic/bell-plus-aesthetic/src/data/schedules.ts:212-214 | for every assembly letter, every class and break row of the assembly table gets a name; only the warning bell and the trailing Free row stay undefined |
| TimerMain.ParseTimeStringHours | src/components/BellTimer.tsx:130-145 | hours 1 to 7 move twelve hours on and the others are kept; the result lies within the day and keeps the minutes |
| TimerMain.CalculateTimeUntilNextSchoolDay | src/components/BellTimer.tsx:153-173 | the time until 08:25 of the next school day is positive and less than four days |
| TimerMain.NextSchoolDayIsFirstAfterToday | src/components/BellTimer.tsx:153-173 | the target is 08:25 of the first school day strictly after today, never today |
| TimerMain.EarlyMorningSkipsToday | src/components/BellTimer.tsx:153-173 | a school morning before 08:25 still counts down to the next school day, not to today's 08:25 |
| TimerMain.FindSlot | src/components/BellTimer.tsx:218-251 | the loop's answer is the first slot holding the time, or none when no slot holds it |
| TimerMain.StartsAscendingFromBounds | src/components/BellTimer.tsx:218-251 | starts in order between every pair of rows give starts in order for neighbours |
| TimerMain.AscendingFromNeighbours | src/components/BellTimer.tsx:218-251 | neighbouring starts in order give all starts in order |
| TimerMain.SlotUnique | src/components/BellTimer.tsx:218-251 | with ascending starts at most one slot holds a given time |
| TimerMain.EmptySchedule | src/components/BellTimer.tsx:197-200 | an empty schedule sets "No schedule available" and leaves every other field |
| TimerMain.OutsideSchoolHours | src/components/BellTimer.tsx:206-214 | before the first start or from the last end on: Free, outside, countdown to the next school day, full bar, total kept |
| TimerMain.ResolvesToSlot | src/components/BellTimer.tsx:218-251 | a time in slot i shows period i and names period i+1, with the time left, total and progress measured to the next start |
| TimerMain.LastPeriodCountsAsOutside | src/components/BellTimer.tsx:253-266 | during the last period the last name is shown yet the timer is marked outside and counts to the next school day |
| TimerMain.ResolveBounds | src/components/BellTimer.tsx:196-267 | for a non-empty schedule the progress lies in [0, 1] and the time left is positive; outside school it is the countdown to the next school day |
| TimerMain.NoPassingState | src/components/BellTimer.tsx:196-267 | with no row named "Passing" the timer never shows "Passing" |
| TimerMain.FormatTimeReads | src/components/BellTimer.tsx:302-304 | the clock text splits at its colon into the hour and the two-digit minutes, which read back as the time |
| TimerMain.CountdownInRange | src/components/BellTimer.tsx:176-193 | a countdown is shown only for a positive time left, with hours, minutes below 60 and seconds below 60 of that time |
| TimerMain.ChooseDisplay | src/components/BellTimer.tsx:196-267 | the loop-based resolver produces exactly the state the specification `Resolve` gives |
| TimerMain.BellTimer.constructor | src/components/BellTimer.tsx:14-33 | the initial state values |
| TimerMain.BellTimer.Mount | src/components/BellTimer.tsx:76-104 | today's schedule is selected under its own name and display name, nothing else changes |
| TimerMain.BellTimer.HandleScheduleChange | src/components/BellTimer.tsx:106-118 | a known name selects that schedule under its own name; an unknown one changes nothing |
| TimerMain.BellTimer.HandleAssemblyLetterChange | src/components/BellTimer.tsx:120-127 | only the assembly letter changes |
| TimerMain.BellTimer.FindCurrentPeriod | src/components/BellTimer.tsx:196-267 | the displayed state becomes `Resolve` of the old one; the selection is kept |
| TimerMain.BellTimer.UpdateCountdown | src/components/BellTimer.tsx:176-193 | the countdown fields become those of the time left, or stay when the tick returns early |
| TimerLatest.ParseHourCases | bell-plus-aesthetic/uploads/extracted-latest/bell-plus-aesthetic/src/components/BellTimer.tsx:69-97 | with a marker the 12-hour clock applies; a bare hour 1 to 7 is in the afternoon; others are kept |
| TimerLatest.ParseDiffersOnlyAtSeven | bell-plus-aesthetic/uploads/extracted-latest/bell-plus-aesthetic/src/components/BellTimer.tsx:69-97 | this copy and the bell-plus timer read a time differently exactly for a bare 7 |
| TimerLatest.FindSlot | bell-plus-aesthetic/uploads/extracted-latest/bell-plus-aesthetic/src/components/BellTimer.tsx:198-236 | the first slot holding the time, or none |
| TimerLatest.Closing | bell-plus-aesthetic/uploads/extracted-latest/bell-plus-aesthetic/src/components/BellTimer.tsx:181-193 | the closing state: the given label, "Next School Day" next, countdown to the next school day, full bar, total kept |
| TimerLatest.InSlotView | bell-plus-aesthetic/uploads/extracted-latest/bell-plus-aesthetic/src/components/BellTimer.tsx:198-236 | slot i shows period i, names period i+1, and keeps the view consistent |
| TimerLatest.EmptySchedule | bell-plus-aesthetic/uploads/extracted-latest/bell-plus-aesthetic/src/components/BellTimer.tsx:160-164 | an empty schedule sets "No schedule available" and nothing else |
| TimerLatest.OutsideSchoolHours | bell-plus-aesthetic/uploads/extracted-latest/bell-plus-aesthetic/src/components/BellTimer.tsx:181-193 | before the first start or from the last end on: Free, outside, countdown to the next school day with a full bar |
| TimerLatest.ResolvesToSlot | bell-plus-aesthetic/uploads/extracted-latest/bell-plus-aesthetic/src/components/BellTimer.tsx:198-236 | a time in slot i shows period i and names period i+1, timed against the next start |
| TimerLatest.SlotUnique | bell-plus-aesthetic/uploads/extracted-latest/bell-plus-aesthetic/src/components/BellTimer.tsx:198-236 | with ascending starts at most one slot holds a time |
| TimerLatest.LastPeriodCountsAsOutside | bell-plus-aesthetic/uploads/extracted-latest/bell-plus-aesthetic/src/components/BellTimer.tsx:241-258 | during the last period the last name is shown but the timer is outside and counts to the next school day |
| TimerLatest.ResolveKeepsConsistent | bell-plus-aesthetic/uploads/extracted-latest/bell-plus-aesthetic/src/components/BellTimer.tsx:159-266 | the countdown fields stay those of the time left and the progress in [0, 1]; the time left is positive for a non-empty schedule |
| TimerLatest.ChooseView | bell-plus-aesthetic/uploads/extracted-latest/bell-plus-aesthetic/src/components/BellTimer.tsx:159-266 | the loop-based resolver gives exactly `Resolve` |
| TimerLatest.TickRemaining | bell-plus-aesthetic/uploads/extracted-latest/bell-plus-aesthetic/src/components/BellTimer.tsx:362-371 | outside school the time left is recomputed; otherwise it is the previous one less the elapsed time, never below zero |
| TimerLatest.TickKeepsPeriod | bell-plus-aesthetic/uploads/extracted-latest/bell-plus-aesthetic/src/components/BellTimer.tsx:355-463 | a tick keeps the view consistent and leaves labels, outside flag, total and progress as they were |
| TimerLatest.StuckAtZero | bell-plus-aesthetic/uploads/extracted-latest/bell-plus-aesthetic/src/components/BellTimer.tsx:362-371 | in school hours a countdown at zero stays at zero with the same period over any sequence of ticks |
| TimerLatest.TitleNameRenames | bell-plus-aesthetic/uploads/extracted-latest/bell-plus-aesthetic/src/components/BellTimer.tsx:404-460 | the title's letter renaming agrees with `getAssemblyPeriodName` |
| TimerLatest.RenamedLabelsKeepTheirTitle | bell-plus-aesthetic/uploads/extracted-latest/bell-plus-aesthetic/src/components/BellTimer.tsx:404-460 | a label already renamed is never a lone letter, so the title keeps it |
| TimerLatest.TickTitleNames | bell-plus-aesthetic/uploads/extracted-latest/bell-plus-aesthetic/src/components/BellTimer.tsx:423-456 | in school away from Free the title names the current period; outside school or under Free it names the next event, "Next Day" for the next school day and an assembly letter renamed as `getAssemblyPeriodName` does, and never "Next School Day" |
| TimerLatest.BellTimer.constructor | bell-plus-aesthetic/uploads/extracted-latest/bell-plus-aesthetic/src/components/BellTimer.tsx:14-37 | the initial state and reference values |
| TimerLatest.BellTimer.Mount | bell-plus-aesthetic/uploads/extracted-latest/bell-plus-aesthetic/src/components/BellTimer.tsx:41-46 | only the mounted flag is set |
| TimerLatest.BellTimer.FindCurrentPeriod | bell-plus-aesthetic/uploads/extracted-latest/bell-plus-aesthetic/src/components/BellTimer.tsx:159-266 | the view becomes `Resolve` of the old view; the selection is kept |
| TimerLatest.BellTimer.RefreshPeriod | bell-plus-aesthetic/uploads/extracted-latest/bell-plus-aesthetic/src/components/BellTimer.tsx:466-471 | once mounted, the view is resolved again at the stored time |
| TimerLatest.BellTimer.InitialiseSchedule | bell-plus-aesthetic/uploads/extracted-latest/bell-plus-aesthetic/src/components/BellTimer.tsx:269-318 | once mounted, today's schedule is selected and resolved as `LoadTodaySchedule` says; before mounting nothing changes |
| TimerLatest.BellTimer.LoadTodaySchedule | bell-plus-aesthetic/uploads/extracted-latest/bell-plus-aesthetic/src/components/BellTimer.tsx:269-318 | today's schedule and name are selected, the period resolved on the previous render's schedule, the tick reference reset, the icon shown |
| TimerLatest.BellTimer.HandleScheduleChange | bell-plus-aesthetic/uploads/extracted-latest/bell-plus-aesthetic/src/components/BellTimer.tsx:320-332 | a known name selects that schedule; an unknown one changes nothing |
| TimerLatest.BellTimer.HandleAssemblyLetterChange | bell-plus-aesthetic/uploads/extracted-latest/bell-plus-aesthetic/src/components/BellTimer.tsx:334-341 | only the letter changes |
| TimerLatest.BellTimer.UpdateCountdown | bell-plus-aesthetic/uploads/extracted-latest/bell-plus-aesthetic/src/components/BellTimer.tsx:355-463 | the state becomes `Tick` of the old one and the title `TickTitle` of it |
| TimerLatest.BellTimer.Unmount | bell-plus-aesthetic/uploads/extracted-latest/bell-plus-aesthetic/src/components/BellTimer.tsx:591-600 | the title is restored and the icon set grey |
| TimerPlus.ParseHourCases | bell-plus-aesthetic/bell-plus-aesthetic/src/components/BellTimer.tsx:81-108 | a pm marker adds 12 below noon, an am marker turns 12 into 0, a bare hour 1 to 6 is in the afternoon, any other hour is kept |
| TimerPlus.MarkersOfPM | bell-plus-aesthetic/bell-plus-aesthetic/src/components/BellTimer.tsx:81-108 | a suffix holding "PM" in either case counts as the pm marker |
| TimerPlus.MarkersOfAM | bell-plus-aesthetic/bell-plus-aesthetic/src/components/BellTimer.tsx:81-108 | a suffix holding "AM" in either case counts as the am marker |
| TimerPlus.TwelveHourConvention | bell-plus-aesthetic/bell-plus-aesthetic/src/components/BellTimer.tsx:81-108 | with a marker 12 AM is midnight, 12 PM noon, and h PM is h+12 |
| TimerPlus.BeforeOpeningIsBefore0825 | bell-plus-aesthetic/bell-plus-aesthetic/src/components/BellTimer.tsx:122-154 | the before-opening test holds exactly before 08:25 |
| TimerPlus.CalculateTimeUntilNextSchoolDay | bell-plus-aesthetic/bell-plus-aesthetic/src/components/BellTimer.tsx:122-154 | the time until the target 08:25 is positive and less than four days |
| TimerPlus.NextSchoolDayIsFirstOpeningAhead | bell-plus-aesthetic/bell-plus-aesthetic/src/components/BellTimer.tsx:122-154 | the target is a school day's 08:25 in the future and no earlier school-day 08:25 lies ahead |
| TimerPlus.FindWarningBell | bell-plus-aesthetic/bell-plus-aesthetic/src/components/BellTimer.tsx:170-193 | the first warning bell whose window holds the time, or none |
| TimerPlus.FindMatch | bell-plus-aesthetic/bell-plus-aesthetic/src/components/BellTimer.tsx:215-275 | the first row other than a warning bell whose period or following passing period holds the time, or none |
| TimerPlus.WarningBellView | bell-plus-aesthetic/bell-plus-aesthetic/src/components/BellTimer.tsx:170-193 | the warning bell label with the next row's name and countdown, an empty bar, and a consistent view |
| TimerPlus.OutsideView | bell-plus-aesthetic/bell-plus-aesthetic/src/components/BellTimer.tsx:201-211 | Free, "Next School Day", countdown to the next school day, full bar, consistent |
| TimerPlus.Interval | bell-plus-aesthetic/bell-plus-aesthetic/src/components/BellTimer.tsx:224-274 | a timed interval's state: time left to its end, total its length, bar its elapsed fraction, consistent |
| TimerPlus.ScanWarningBells | bell-plus-aesthetic/bell-plus-aesthetic/src/components/BellTimer.tsx:170-193 | the warning-bell loop finds exactly `FindWarningBell` |
| TimerPlus.ScanPeriods | bell-plus-aesthetic/bell-plus-aesthetic/src/components/BellTimer.tsx:215-275 | the main loop finds exactly `FindMatch` |
| TimerPlus.ChooseView | bell-plus-aesthetic/bell-plus-aesthetic/src/components/BellTimer.tsx:157-315 | the loop-based resolver gives exactly `Resolve` |
| TimerPlus.ChooseInSchool | bell-plus-aesthetic/bell-plus-aesthetic/src/components/BellTimer.tsx:215-306 | the in-school part gives exactly `InSchoolView` |
| TimerPlus.EmptySchedule | bell-plus-aesthetic/bell-plus-aesthetic/src/components/BellTimer.tsx:158-161 | an empty schedule changes only the current label |
| TimerPlus.WarningBellTakesPrecedence | bell-plus-aesthetic/bell-plus-aesthetic/src/components/BellTimer.tsx:170-193 | a warning bell holding the time wins over every other rule and leaves the outside flag as it was |
| TimerPlus.OutsideSchoolHours | bell-plus-aesthetic/bell-plus-aesthetic/src/components/BellTimer.tsx:201-211 | before the first start or from the last end on the timer shows Free until the next school day and says school is out |
| TimerPlus.ResolveInSchool | bell-plus-aesthetic/bell-plus-aesthetic/src/components/BellTimer.tsx:215-306 | inside school hours and away from warning bells the in-school rules decide |
| TimerPlus.InPeriodSelected | bell-plus-aesthetic/bell-plus-aesthetic/src/components/BellTimer.tsx:224-252 | the first matching row whose period holds the time is shown, counting to its end, with the next row named |
| TimerPlus.PassingSelected | bell-plus-aesthetic/bell-plus-aesthetic/src/components/BellTimer.tsx:254-274 | between a row's end and the next start the timer shows "Passing" until the next row starts |
| TimerPlus.FoundMatch | bell-plus-aesthetic/bell-plus-aesthetic/src/components/BellTimer.tsx:215-275 | the row the loop finds holds the time and no earlier row matches |
| TimerPlus.LastPeriodSelected | bell-plus-aesthetic/bell-plus-aesthetic/src/components/BellTimer.tsx:277-299 | with no earlier match and the time in the last row, that row is shown with Free to follow |
| TimerPlus.IntervalConsistent | bell-plus-aesthetic/bell-plus-aesthetic/src/components/BellTimer.tsx:224-274 | time left plus elapsed is the total, the bar is the elapsed fraction below 1, the split fields match |
| TimerPlus.InSchoolConsistent | bell-plus-aesthetic/bell-plus-aesthetic/src/components/BellTimer.tsx:215-306 | the in-school part keeps the view consistent and says school is out only on its fallback |
| TimerPlus.ResolveKeepsConsistent | bell-plus-aesthetic/bell-plus-aesthetic/src/components/BellTimer.tsx:157-315 | the resolver keeps the view consistent; school counts as out only under Free, a warning bell or an empty schedule |
| TimerPlus.FindUpcoming | bell-plus-aesthetic/bell-plus-aesthetic/src/components/BellTimer.tsx:424-436 | the first row before the last starting in a later minute, or none |
| TimerPlus.ScanUpcoming | bell-plus-aesthetic/bell-plus-aesthetic/src/components/BellTimer.tsx:424-436 | the tick's loop finds exactly `FindUpcoming` |
| TimerPlus.ChooseTickTarget | bell-plus-aesthetic/bell-plus-aesthetic/src/components/BellTimer.tsx:410-444 | the tick's first half gives exactly `TickTargetOf` |
| TimerPlus.LaterMinuteIsLater | bell-plus-aesthetic/bell-plus-aesthetic/src/components/BellTimer.tsx:416-444 | a time whose minute of the day is later than that of now lies after now |
| TimerPlus.TickNeverNegative | bell-plus-aesthetic/bell-plus-aesthetic/src/components/BellTimer.tsx:410-415 | a tick never counts below zero |
| TimerPlus.TickAtZeroUpcoming | bell-plus-aesthetic/bell-plus-aesthetic/src/components/BellTimer.tsx:416-444 | at zero in school hours the countdown runs to the start of the first later row, which becomes the next event |
| TimerPlus.TickAtZeroDayOver | bell-plus-aesthetic/bell-plus-aesthetic/src/components/BellTimer.tsx:416-444 | at zero with no later row the countdown runs to the next school day |
| TimerPlus.SecondsSplitAgrees | bell-plus-aesthetic/bell-plus-aesthetic/src/components/BellTimer.tsx:447-450 | the tick's split through whole seconds equals `setTimeValues` for a non-negative time |
| TimerPlus.TickProgress | bell-plus-aesthetic/bell-plus-aesthetic/src/components/BellTimer.tsx:463-466 | the written progress lies in [0, 100] |
| TimerPlus.TickProgressIsPercent | bell-plus-aesthetic/bell-plus-aesthetic/src/components/BellTimer.tsx:463-466 | half way through a 46-minute period the tick writes about 50 where the resolver writes at most 1 |
| TimerPlus.TickProgressFraction | bell-plus-aesthetic/bell-plus-aesthetic/src/components/BellTimer.tsx:463-466 | the corrected progress lies in [0, 1] |
| TimerPlus.TickProgressFractionAgrees | bell-plus-aesthetic/bell-plus-aesthetic/src/components/BellTimer.tsx:463-466 | the corrected progress is the resolver's fraction and the written one is it times 100 |
| TimerPlus.TitleCountdownReads | bell-plus-aesthetic/bell-plus-aesthetic/src/components/BellTimer.tsx:491-495 | the title's countdown reads back as the hours, minutes and seconds left, without hours when none are left |
| TimerPlus.TitleNextEventRenames | bell-plus-aesthetic/bell-plus-aesthetic/src/components/BellTimer.tsx:498-507 | the title renames a letter as `getAssemblyPeriodName` does and never spells "Next School Day" |
| TimerPlus.FaviconAtAnHourAsWritten | bell-plus-aesthetic/bell-plus-aesthetic/src/components/BellTimer.tsx:470 | with an hour and ten seconds left the icon flashes red as with ten seconds left |
| TimerPlus.FaviconCallFixedBands | bell-plus-aesthetic/bell-plus-aesthetic/src/components/BellTimer.tsx:470 | passing the whole minutes, the icon is red exactly when at most two minutes are left |
| TimerPlus.FormatTime24Reads | bell-plus-aesthetic/bell-plus-aesthetic/src/components/BellTimer.tsx:379-390 | the 24-hour text is two two-digit numerals around a colon reading back as hour and minute |
| TimerPlus.FormatTime12Reads | bell-plus-aesthetic/bell-plus-aesthetic/src/components/BellTimer.tsx:379-390 | the 12-hour text has an hour 1 to 12 and a marker that is PM exactly from noon, and `parseTimeString` reads it back as the time |
| TimerPlus.StaleCountdownAsWritten | bell-plus-aesthetic/bell-plus-aesthetic/src/components/BellTimer.tsx:392-394 | with an hour left the memoised large countdown still reads 00:00:00 |
| TimerPlus.ShownCountdownReads | bell-plus-aesthetic/bell-plus-aesthetic/src/components/BellTimer.tsx:392-394 | the corrected countdown reads back as the split of the time left |
| TimerPlus.MondayEarlyIsOutside | bell-plus-aesthetic/bell-plus-aesthetic/src/components/BellTimer.tsx:201-211 | at 08:20 on a Monday school is out |
| TimerPlus.MondayBellKeepsFlag | bell-plus-aesthetic/bell-plus-aesthetic/src/components/BellTimer.tsx:170-193 | at 08:26 on a Monday the warning bell is shown and the outside flag is kept |
| TimerPlus.MondayOutsideTick | bell-plus-aesthetic/bell-plus-aesthetic/src/components/BellTimer.tsx:410-412 | a tick at 08:26 on a Monday marked out counts to Tuesday 08:25 with a title of the countdown 23:59:00 and "Next Day" |
| TimerPlus.NextDayTitle | bell-plus-aesthetic/bell-plus-aesthetic/src/components/BellTimer.tsx:498-507 | the title of 23 h 59 min left to the next school day |
| TimerPlus.TitleOfNearlyADay | bell-plus-aesthetic/bell-plus-aesthetic/src/components/BellTimer.tsx:491-495 | the countdown part of that title reads `23:59:00` |
| TimerPlus.WarningBellStaysOutsideAsWritten | bell-plus-aesthetic/bell-plus-aesthetic/src/components/BellTimer.tsx:170-211 | 08:20 then 08:26 on a Monday leaves school marked out, so the next tick counts to Tuesday |
| TimerPlus.BellInSchoolCountsDown | bell-plus-aesthetic/bell-plus-aesthetic/src/components/BellTimer.tsx:170-193 | with the bell counted as school time, school is out only under Free or an empty schedule, and during a bell the next tick counts to the next row |
| TimerPlus.BellInSchoolOutsideMeansFree | bell-plus-aesthetic/bell-plus-aesthetic/src/components/BellTimer.tsx:170-193 | with the correction the outside flag set by the resolver means the Free label |
| TimerPlus.DayKey | bell-plus-aesthetic/bell-plus-aesthetic/src/components/BellTimer.tsx:317-356 | each weekday's schedule key, the weekend included |
| TimerPlus.BellTimer.constructor | bell-plus-aesthetic/bell-plus-aesthetic/src/components/BellTimer.tsx:15-40 | the initial state and reference values |
| TimerPlus.BellTimer.Mount | bell-plus-aesthetic/bell-plus-aesthetic/src/components/BellTimer.tsx:42-47 | only the mounted flag is set |
| TimerPlus.BellTimer.CheckClockFormat | bell-plus-aesthetic/bell-plus-aesthetic/src/components/BellTimer.tsx:55-58 | the 12-hour flag is on exactly when the stored text is "true" |
| TimerPlus.BellTimer.FindCurrentPeriod | bell-plus-aesthetic/bell-plus-aesthetic/src/components/BellTimer.tsx:157-315 | the view becomes `Resolve` of the old view |
| TimerPlus.BellTimer.InitialiseSchedule | bell-plus-aesthetic/bell-plus-aesthetic/src/components/BellTimer.tsx:317-356 | once mounted, the rest follows `LoadTodaySchedule`; before it nothing changes |
| TimerPlus.BellTimer.LoadTodaySchedule | bell-plus-aesthetic/bell-plus-aesthetic/src/components/BellTimer.tsx:317-356 | today's schedule and name selected, the period resolved, the tick reference reset, the icon shown |
| TimerPlus.BellTimer.HandleScheduleChange | bell-plus-aesthetic/bell-plus-aesthetic/src/components/BellTimer.tsx:358-369 | a known name selects that schedule; an unknown one changes nothing |
| TimerPlus.BellTimer.HandleAssemblyLetterChange | bell-plus-aesthetic/bell-plus-aesthetic/src/components/BellTimer.tsx:371-377 | only the letter changes |
| TimerPlus.BellTimer.UpdateCountdown | bell-plus-aesthetic/bell-plus-aesthetic/src/components/BellTimer.tsx:397-515 | the view becomes `TickView`, the icon takes the minutes within the hour, and the title is `TickTitle` |
| TimerPlus.BellTimer.Unmount | bell-plus-aesthetic/bell-plus-aesthetic/src/components/BellTimer.tsx:682-687 | the title is restored and the icon set grey |
| TimerStandalone.LiteralHours | bell-plus-aesthetic/bell-plus-aesthetic/src/components/StandaloneBellTimer.tsx:20-25 | hours are taken as written: "1:28" is 01:28 |
| TimerStandalone.TargetIsSchoolMorning | bell-plus-aesthetic/bell-plus-aesthetic/src/components/StandaloneBellTimer.tsx:42-71 | the target is a school day's bell time, 09:12 exactly on Wednesday, today or up to three days on |
| TimerStandalone.RollOverAsWritten | bell-plus-aesthetic/bell-plus-aesthetic/src/components/StandaloneBellTimer.tsx:47 | the roll-over test as written holds exactly from 15:00 |
| TimerStandalone.RollOverCorrected | bell-plus-aesthetic/bell-plus-aesthetic/src/components/StandaloneBellTimer.tsx:47 | the corrected test holds exactly from 15:03 |
| TimerStandalone.NegativeBeforeRollOver | bell-plus-aesthetic/bell-plus-aesthetic/src/components/StandaloneBellTimer.tsx:42-71 | the result is negative exactly on a school day after its bell and before the roll-over |
| TimerStandalone.SetTimeValues | bell-plus-aesthetic/bell-plus-aesthetic/src/components/StandaloneBellTimer.tsx:28-39 | the hours, minutes and seconds of the time left |
| TimerStandalone.FindHit | bell-plus-aesthetic/bell-plus-aesthetic/src/components/StandaloneBellTimer.tsx:97-119 | the first row before the last holding the time or whose following gap holds it, or none |
| TimerStandalone.Waiting | bell-plus-aesthetic/bell-plus-aesthetic/src/components/StandaloneBellTimer.tsx:89-95 | the countdown to the next warning bell under the given label, consistent |
| TimerStandalone.HitView | bell-plus-aesthetic/bell-plus-aesthetic/src/components/StandaloneBellTimer.tsx:97-119 | a hit at row i shows the row or the passing gap after it, with a positive countdown |
| TimerStandalone.EmptyOrOutside | bell-plus-aesthetic/bell-plus-aesthetic/src/components/StandaloneBellTimer.tsx:77-95 | an empty schedule or a time outside school hours counts to the next warning bell as "No schedule available" or "Free" |
| TimerStandalone.InsideHoursCases | bell-plus-aesthetic/bell-plus-aesthetic/src/components/StandaloneBellTimer.tsx:97-138 | inside school hours the result is the first hit, the last row, or the fallback; all but the fallback are positive |
| TimerStandalone.WarningBellNeverShown | bell-plus-aesthetic/bell-plus-aesthetic/src/components/StandaloneBellTimer.tsx:97-119 | a "Warning Bell" label appears only when the last row carries it |
| TimerStandalone.MondayAfternoonAsWritten | bell-plus-aesthetic/bell-plus-aesthetic/src/components/StandaloneBellTimer.tsx:20-25 | at Monday 13:30 the literal reading shows the trailing Free row instead of Period 6 |
| TimerStandalone.BareTime | bell-plus-aesthetic/bell-plus-aesthetic/src/components/BellTimer.tsx:81-108 | a bare table time read by the afternoon rule |
| TimerStandalone.MondayAfternoonCorrected | bell-plus-aesthetic/bell-plus-aesthetic/src/components/StandaloneBellTimer.tsx:97-132 | with the afternoon rule Monday 13:30 is in Period 6, 44 minutes before its end, Period 7 next |
| TimerStandalone.TickKeepsConsistent | bell-plus-aesthetic/bell-plus-aesthetic/src/components/StandaloneBellTimer.tsx:152-180 | a tick keeps the countdown fields in step; a positive time left decreases to no less than zero with the labels kept |
| TimerStandalone.ScanRows | bell-plus-aesthetic/bell-plus-aesthetic/src/components/StandaloneBellTimer.tsx:97-119 | the loop finds exactly `FindHit` |
| TimerStandalone.ChooseShown | bell-plus-aesthetic/bell-plus-aesthetic/src/components/StandaloneBellTimer.tsx:74-144 | the loop-based resolver gives exactly `Resolve` |
| TimerStandalone.StandaloneBellTimer.constructor | bell-plus-aesthetic/bell-plus-aesthetic/src/components/StandaloneBellTimer.tsx:9-17 | the initial state values |
| TimerStandalone.StandaloneBellTimer.Mount | bell-plus-aesthetic/bell-plus-aesthetic/src/components/StandaloneBellTimer.tsx:183-186 | only the mounted flag is set |
| TimerStandalone.StandaloneBellTimer.FindCurrentPeriod | bell-plus-aesthetic/bell-plus-aesthetic/src/components/StandaloneBellTimer.tsx:74-144 | the state becomes `Resolve` on the schedule of the day |
| TimerStandalone.StandaloneBellTimer.StartTimer | bell-plus-aesthetic/bell-plus-aesthetic/src/components/StandaloneBellTimer.tsx:189-200 | once mounted, the period is found at the clock reading and the tick reference reset |
| TimerStandalone.StandaloneBellTimer.UpdateCountdown | bell-plus-aesthetic/bell-plus-aesthetic/src/components/StandaloneBellTimer.tsx:152-180 | the state becomes `Tick` of the old one and the title is built from the state before the tick |
| ScheduleView.TimeToMinutes | src/components/Schedule.tsx:265-277 | the list's reading of a time is the main timer's reading of the same text, in minutes |
| ScheduleView.NowMinutes | src/components/Schedule.tsx:35-54 | the clock as re-read through `timeToMinutes`: an hour 1 to 7 moves to the afternoon, others kept |
| ScheduleView.FirstWindow | src/components/Schedule.tsx:35-54 | the first row whose window holds the time, or none |
| ScheduleView.AscendingAsTimer | src/components/Schedule.tsx:35-54 | starts ascending for the timer are ascending for the list |
| ScheduleView.WindowUnique | src/components/Schedule.tsx:35-54 | with ascending starts a time lies in at most one window |
| ScheduleView.FindsTheWindow | src/components/Schedule.tsx:35-54 | with ascending starts the loop finds the one window holding the time |
| ScheduleView.ClassifyRow | src/components/Schedule.tsx:142-148 | a row is complete after its end and current from its start until its end, never both |
| ScheduleView.Rows | src/components/Schedule.tsx:131-168 | all rows but a trailing Free one, each classified on its own |
| ScheduleView.RowsInOrder | src/components/Schedule.tsx:142-145 | with ascending starts a row ends no later than any later row starts |
| ScheduleView.OneCurrentRow | src/components/Schedule.tsx:147-148 | with ascending starts at most one drawn row is current |
| ScheduleView.RowsAgreeWithLoop | src/components/Schedule.tsx:147-148 | outside the small hours a row before the last is current exactly when the loop picks it |
| ScheduleView.TablesUseRowNames | src/data/schedules.ts:16-145 | every table row is named from the known row names |
| ScheduleView.PassingNeedsLetters | src/components/Schedule.tsx:164 | a name containing "passing" in any case has a p and an a |
| ScheduleView.PassingMarksBreakOnly | src/components/Schedule.tsx:164 | no table has a passing row, so the dot marks only the Break row |
| ScheduleView.AssemblyBreaksUnlabelled | src/components/Schedule.tsx:151-155 | on the assembly schedule every drawn row but Brunch and Lunch is named |
| ScheduleView.ScheduleList.constructor | src/components/Schedule.tsx:13-15 | the initial state: not mounted, no schedule, no period |
| ScheduleView.ScheduleList.FindCurrentPeriod | src/components/Schedule.tsx:35-54 | the current period becomes `PeriodAt` of the rows |
| ScheduleView.ScheduleList.RunEffect | src/components/Schedule.tsx:18-66 | mounted, showing the given or today's schedule, the period found on the schedule held before |
| ScheduleView.ScheduleList.Rendered | src/components/Schedule.tsx:68-70 | nothing before mounting with a schedule, then that schedule's rows |
| ScheduleViewLatest.TimeToMinutesAsTimer | bell-plus-aesthetic/uploads/extracted-latest/bell-plus-aesthetic/src/components/BellTimer.tsx:69-97 | the timer's reading of a time, in minutes |
| ScheduleViewLatest.TimeToMinutesCases | bell-plus-aesthetic/uploads/extracted-latest/bell-plus-aesthetic/src/components/Schedule.tsx:306-327 | 12 hours added below 8 only with PM in the minute text, 12 with AM read as 0, otherwise as written |
| ScheduleViewLatest.BareTimesAsWritten | bell-plus-aesthetic/uploads/extracted-latest/bell-plus-aesthetic/src/components/Schedule.tsx:306-327 | on bare times the list and the timer disagree exactly on the hours 1 to 7 |
| ScheduleViewLatest.NowMinutes | bell-plus-aesthetic/uploads/extracted-latest/bell-plus-aesthetic/src/components/Schedule.tsx:51-67 | the clock re-read with no marker is the clock itself |
| ScheduleViewLatest.FirstWindow | bell-plus-aesthetic/uploads/extracted-latest/bell-plus-aesthetic/src/components/Schedule.tsx:51-67 | the first row whose window holds the time, or none |
| ScheduleViewLatest.FindsTheWindow | bell-plus-aesthetic/uploads/extracted-latest/bell-plus-aesthetic/src/components/Schedule.tsx:51-67 | with ascending starts the loop finds the one window holding the time |
| ScheduleViewLatest.WindowUnique | bell-plus-aesthetic/uploads/extracted-latest/bell-plus-aesthetic/src/components/Schedule.tsx:51-67 | with ascending starts a time lies in at most one window |
| ScheduleViewLatest.DisplayName | bell-plus-aesthetic/uploads/extracted-latest/bell-plus-aesthetic/src/components/Schedule.tsx:168-173 | only on the assembly schedule is a row renamed; Brunch and Lunch keep their names |
| ScheduleViewLatest.ClassifyRow | bell-plus-aesthetic/uploads/extracted-latest/bell-plus-aesthetic/src/components/Schedule.tsx:149-190 | complete after its end, current from its start until its end |
| ScheduleViewLatest.Rows | bell-plus-aesthetic/uploads/extracted-latest/bell-plus-aesthetic/src/components/Schedule.tsx:149-190 | all rows but a trailing Free one, each classified on its own |
| ScheduleViewLatest.RowsInOrder | bell-plus-aesthetic/uploads/extracted-latest/bell-plus-aesthetic/src/components/Schedule.tsx:149-190 | with ascending starts a row ends no later than any later row starts |
| ScheduleViewLatest.OneCurrentRow | bell-plus-aesthetic/uploads/extracted-latest/bell-plus-aesthetic/src/components/Schedule.tsx:149-190 | with ascending starts at most one drawn row is current |
| ScheduleViewLatest.RowsAgreeWithLoop | bell-plus-aesthetic/uploads/extracted-latest/bell-plus-aesthetic/src/components/Schedule.tsx:149-190 | a row before the last is current exactly when the loop picks it |
| ScheduleViewLatest.MondayAfternoonAsWritten | bell-plus-aesthetic/uploads/extracted-latest/bell-plus-aesthetic/src/components/Schedule.tsx:306-327 | at Monday 13:30 the Period 6 row is drawn complete, not current |
| ScheduleViewLatest.MondayAfternoonAsTimer | bell-plus-aesthetic/uploads/extracted-latest/bell-plus-aesthetic/src/components/Schedule.tsx:306-327 | with the timer's reading Period 6 is the current row |
| ScheduleViewLatest.ScheduleList.constructor | bell-plus-aesthetic/uploads/extracted-latest/bell-plus-aesthetic/src/components/Schedule.tsx:13-15 | the initial state |
| ScheduleViewLatest.ScheduleList.SelectSchedule | bell-plus-aesthetic/uploads/extracted-latest/bell-plus-aesthetic/src/components/Schedule.tsx:18-44 | mounted, showing the given schedule or today's |
| ScheduleViewLatest.ScheduleList.FindCurrentPeriod | bell-plus-aesthetic/uploads/extracted-latest/bell-plus-aesthetic/src/components/Schedule.tsx:47-76 | nothing until mounted with a schedule, then the period becomes `PeriodAt` |
| ScheduleViewLatest.ScheduleList.Rendered | bell-plus-aesthetic/uploads/extracted-latest/bell-plus-aesthetic/src/components/Schedule.tsx:78 | nothing before mounting with a schedule, then its rows |
| Favicon.BandsBySeconds | bell-plus-aesthetic/bell-plus-aesthetic/src/lib/favicons.ts:6-16 | green above ten minutes, yellow above six, orange above two, red from two minutes down |
| Favicon.FlashOnlyInRed | bell-plus-aesthetic/bell-plus-aesthetic/src/lib/favicons.ts:2-23 | flashing changes the colour exactly in the red band |
| Favicon.InitialKeyUnmatched | bell-plus-aesthetic/bell-plus-aesthetic/src/lib/favicons.ts:26-28 | the initial cached key matches no time left |
| Favicon.WriteIcon | bell-plus-aesthetic/bell-plus-aesthetic/src/lib/favicons.ts:56-64 | the first icon link points at the colour, or one is added; other links are kept |
| Favicon.SetFaviconState | bell-plus-aesthetic/bell-plus-aesthetic/src/lib/favicons.ts:76-98 | a colour equal to the cached solid colour is skipped; otherwise it is shown and cached |
| Favicon.DynamicUpdateRule | bell-plus-aesthetic/bell-plus-aesthetic/src/lib/favicons.ts:41-68 | in school the links are rewritten exactly when the rounded time or the flash flag differs from the cache, and both caches then hold them |
| Favicon.UpdateIdempotent | bell-plus-aesthetic/bell-plus-aesthetic/src/lib/favicons.ts:31-70 | repeating a call changes nothing |
| Favicon.OutsideIsGray | bell-plus-aesthetic/bell-plus-aesthetic/src/lib/favicons.ts:35-38 | outside school the icon is grey unless the grey write is skipped; the time caches are kept |
| Favicon.StaleGrayAsWritten | bell-plus-aesthetic/bell-plus-aesthetic/src/lib/favicons.ts:73-80 | grey, then a countdown, then grey again leaves the countdown's colour showing |
| Favicon.CachedShowsIntended | bell-plus-aesthetic/bell-plus-aesthetic/src/lib/favicons.ts:31-98 | with one shared cache every call leaves the intended colour showing |
| Favicon.IconCache.constructor | bell-plus-aesthetic/bell-plus-aesthetic/src/lib/favicons.ts:26-28 | the module's caches as loaded and the page's links |
| Favicon.IconCache.SetFavicon | bell-plus-aesthetic/bell-plus-aesthetic/src/lib/favicons.ts:76-98 | the state becomes `SetFaviconState` of the old one |
| Favicon.IconCache.UpdateFavicon | bell-plus-aesthetic/bell-plus-aesthetic/src/lib/favicons.ts:31-70 | the state becomes `UpdateFaviconState` of the old one |
| FaviconLatest.UpdateFaviconLinks | bell-plus-aesthetic/uploads/extracted-latest/bell-plus-aesthetic/src/lib/favicons.ts:26-70 | the first link points at the new colour or one is added, and the shown icon is that colour |
| FaviconLatest.LastCallDecides | bell-plus-aesthetic/uploads/extracted-latest/bell-plus-aesthetic/src/lib/favicons.ts:26-70 | the shown icon depends on the last call only |
| FaviconLatest.OutsideIsGray | bell-plus-aesthetic/uploads/extracted-latest/bell-plus-aesthetic/src/lib/favicons.ts:26-51 | outside school the icon is grey whatever the time left |
| FaviconLatest.FlashRuleWider | bell-plus-aesthetic/uploads/extracted-latest/bell-plus-aesthetic/src/lib/favicons.ts:36 | this flash rule holds wherever the bell-plus one does, and also on odd seconds of the last half minute |
| FaviconLatest.ColorsAgreeWithRedesign | bell-plus-aesthetic/uploads/extracted-latest/bell-plus-aesthetic/src/lib/favicons.ts:26-51 | the two copies pick the same colour except on an odd second of the last half minute |
| FaviconLatest.Icons.constructor | bell-plus-aesthetic/uploads/extracted-latest/bell-plus-aesthetic/src/lib/favicons.ts:54-70 | the page's icon links |
| FaviconLatest.Icons.SetFavicon | bell-plus-aesthetic/uploads/extracted-latest/bell-plus-aesthetic/src/lib/favicons.ts:54-70 | the first link points at the colour |
| FaviconLatest.Icons.UpdateFavicon | bell-plus-aesthetic/uploads/extracted-latest/bell-plus-aesthetic/src/lib/favicons.ts:26-51 | the first link points at `IconColor` of the call |
| Settings.FormatIsPrefix | src/components/SettingsPanel.tsx:233-238 | the combination is the held modifier names each with a plus, in fixed order, then the key |
| Settings.ModifierNames | src/components/SettingsPanel.tsx:212-244 | a name is listed exactly when its modifier is held, and none holds a plus |
| Settings.SplitPrefix | src/components/SettingsPanel.tsx:596-601 | splitting names-with-plus then a plus-free key at '+' gives the names then the key |
| Settings.ShownKeyHasNoPlus | src/components/SettingsPanel.tsx:233-238 | upper-casing a single character never gives a plus |
| Settings.ParseFormat | src/components/SettingsPanel.tsx:596-601 | reading back a recorded combination recovers the shown key and the four modifier flags |
| Settings.MatchesIgnoringCase | src/components/SettingsPanel.tsx:604-610 | a press matches exactly when the keys agree ignoring case and the flags agree |
| Settings.RecordedComboMatches | src/components/SettingsPanel.tsx:591-624 | pressing again the recorded keys fires the redirect |
| Settings.ModifiersMustAgree | src/components/SettingsPanel.tsx:604-610 | a press with different modifier flags never fires it |
| Settings.NormaliseUrl | src/components/SettingsPanel.tsx:612-614 | an address starting with "http" is kept, otherwise "https://" is put in front |
| Settings.NormaliseIdempotent | src/components/SettingsPanel.tsx:612-614 | normalising twice is normalising once |
| Settings.RedirectTarget | src/components/SettingsPanel.tsx:591-624 | a press redirects only when enabled and matching, to the normalised address |
| Settings.DisabledNeverRedirects | src/components/SettingsPanel.tsx:591-624 | with the key "None" or an empty address nothing redirects |
| Settings.StoredOr | src/components/SettingsPanel.tsx:427-500 | a missing or empty stored value gives the fallback, otherwise the value |
| Settings.KeybindRecorder.constructor | src/components/SettingsPanel.tsx:184-190 | not recording, the given key or "None" when it is empty, no modifiers held, nothing reported |
| Settings.KeybindRecorder.StartRecording | src/components/SettingsPanel.tsx:195-204 | recording with no modifiers held |
| Settings.KeybindRecorder.CancelRecording | src/components/SettingsPanel.tsx:207-209 | recording stops, the key kept |
| Settings.KeybindRecorder.HandleKeyDown | src/components/SettingsPanel.tsx:212-244 | while recording a non-modifier key completes `FormatCombo`, reports it and stops |
| Settings.Push | src/components/SettingsPanel.tsx:503-554 | the buffer gains the key and keeps at most the code's length |
| Settings.BufferIsLatestKeys | src/components/SettingsPanel.tsx:503-554 | the buffer holds the latest keys, at most ten, in order |
| Settings.KonamiAfterKeys | src/components/SettingsPanel.tsx:503-554 | the code is recognised exactly when the last ten keys spell it |
| Settings.KonamiTracker.constructor | src/components/SettingsPanel.tsx:459-466 | the switch is on only for the stored text "true" |
| Settings.KonamiTracker.HandleKeyDown | src/components/SettingsPanel.tsx:503-554 | the key joins the buffer and the switch turns on when the buffer spells the code; once on it stays on |
| Settings.CurrentLabel | src/components/SettingsPanel.tsx:102 | the label of the option with the value, or the value itself |
| Settings.Page.constructor | src/components/SettingsPanel.tsx:689-720 | the page's multiplier and class lists |
| Settings.Page.ApplyFontSize | src/components/SettingsPanel.tsx:689-720 | the multiplier follows the size and the first `text-8xl` element trades classes |
| Settings.FirstWith | src/components/SettingsPanel.tsx:707 | the first element carrying the class, or none |
| Settings.ApplyFontSizeClasses | src/components/SettingsPanel.tsx:689-720 | only the found element's classes change |
| Settings.SmallThenLargeStaysSmall | src/components/SettingsPanel.tsx:707 | choosing small then large leaves the countdown small |
| Settings.StuckAfterLeavingMedium | src/components/SettingsPanel.tsx:689-720 | after a first change away from medium no later choice reaches the countdown |
| SettingsLatest.PlaceDropdown | bell-plus-aesthetic/uploads/extracted-latest/bell-plus-aesthetic/src/components/SettingsPanel.tsx:99-112 | the list opens upward only when it does not fit below and fits above |
| SettingsLatest.RoomBelowOpensDownward | bell-plus-aesthetic/uploads/extracted-latest/bell-plus-aesthetic/src/components/SettingsPanel.tsx:99-112 | room below always opens downward |
| SettingsLatest.UpwardStaysUpward | bell-plus-aesthetic/uploads/extracted-latest/bell-plus-aesthetic/src/components/SettingsPanel.tsx:99-112 | an upward list stays upward when the toggle moves down |
| SettingsLatest.Dropdown.constructor | bell-plus-aesthetic/uploads/extracted-latest/bell-plus-aesthetic/src/components/SettingsPanel.tsx:92-93 | closed, opening downward, nothing reported |
| SettingsLatest.Dropdown.CalculatePosition | bell-plus-aesthetic/uploads/extracted-latest/bell-plus-aesthetic/src/components/SettingsPanel.tsx:99-112 | the placement becomes `PlaceDropdown`, or nothing changes without a toggle |
| SettingsLatest.Dropdown.Toggle | bell-plus-aesthetic/uploads/extracted-latest/bell-plus-aesthetic/src/components/SettingsPanel.tsx:115-121 | open flips, placed on opening only |
| SettingsLatest.Dropdown.Select | bell-plus-aesthetic/uploads/extracted-latest/bell-plus-aesthetic/src/components/SettingsPanel.tsx:123-126 | the value is reported and the list closes |
| SettingsLatest.Dropdown.MouseDown | bell-plus-aesthetic/uploads/extracted-latest/bell-plus-aesthetic/src/components/SettingsPanel.tsx:129-141 | a press outside an open list closes it |
| SettingsLatest.Dropdown.Resize | bell-plus-aesthetic/uploads/extracted-latest/bell-plus-aesthetic/src/components/SettingsPanel.tsx:143-149 | an open list is placed again |
| SettingsLatest.ExactlyOneSizeClass | bell-plus-aesthetic/uploads/extracted-latest/bell-plus-aesthetic/src/components/SettingsPanel.tsx:723-760 | after a choice the countdown has exactly that choice's size class and keeps every other class |
| SettingsLatest.OtherSizeChangesNothing | bell-plus-aesthetic/uploads/extracted-latest/bell-plus-aesthetic/src/components/SettingsPanel.tsx:723-760 | any other size text leaves the classes alone |
| SettingsLatest.ApplyFontSizeClasses | bell-plus-aesthetic/uploads/extracted-latest/bell-plus-aesthetic/src/components/SettingsPanel.tsx:723-760 | only the first `countdown-timer` element changes |
| SettingsLatest.CountdownStaysFound | bell-plus-aesthetic/uploads/extracted-latest/bell-plus-aesthetic/src/components/SettingsPanel.tsx:741 | the countdown keeps the class it is looked up by |
| SettingsLatest.LastChoiceWins | bell-plus-aesthetic/uploads/extracted-latest/bell-plus-aesthetic/src/components/SettingsPanel.tsx:723-760 | after any sequence of choices the countdown carries the last choice's size class |
| SettingsLatest.SmallThenLargeEndsLarge | bell-plus-aesthetic/uploads/extracted-latest/bell-plus-aesthetic/src/components/SettingsPanel.tsx:723-760 | small then large leaves the countdown large |
| SettingsLatest.Page.constructor | bell-plus-aesthetic/uploads/extracted-latest/bell-plus-aesthetic/src/components/SettingsPanel.tsx:723-760 | the page's multiplier and class lists |
| SettingsLatest.Page.ApplyFontSize | bell-plus-aesthetic/uploads/extracted-latest/bell-plus-aesthetic/src/components/SettingsPanel.tsx:723-760 | the multiplier follows the size and the classes become `ApplyFontSizeClasses` |
| SettingsLatest.MultiplierValues | bell-plus-aesthetic/uploads/extracted-latest/bell-plus-aesthetic/src/components/SettingsPanel.tsx:723-760 | the multiplier for each size, unchanged for other text |
| SettingsPlus.ThemeTestOnPanelThemes | bell-plus-aesthetic/bell-plus-aesthetic/src/components/SettingsPanel.tsx:266 | "light" is light and "dark" is not |
| SettingsPlus.LightThemeByContainment | bell-plus-aesthetic/bell-plus-aesthetic/src/components/SettingsPanel.tsx:266 | any theme name containing "light" counts as light |
| SettingsPlus.FlagRoundTrip | bell-plus-aesthetic/bell-plus-aesthetic/src/components/SettingsPanel.tsx:329-339 | a written clock flag reads back as written |
| SettingsPlus.Panel.constructor | bell-plus-aesthetic/bell-plus-aesthetic/src/components/SettingsPanel.tsx:232-269 | each stored value or its default; the clock flag off |
| SettingsPlus.Panel.SetOpen | bell-plus-aesthetic/bell-plus-aesthetic/src/components/SettingsPanel.tsx:232 | only the open flag changes |
| SettingsPlus.Panel.LoadClockFormat | bell-plus-aesthetic/bell-plus-aesthetic/src/components/SettingsPanel.tsx:271-282 | the clock flag is on exactly when stored as "true" |
| SettingsPlus.Panel.ChangeClockFormat | bell-plus-aesthetic/bell-plus-aesthetic/src/components/SettingsPanel.tsx:329-339 | the flag and its stored text change |
| SettingsPlus.Panel.ChangeTheme | bell-plus-aesthetic/bell-plus-aesthetic/src/components/SettingsPanel.tsx:342-349 | the theme and its stored value change |
| SettingsPlus.Panel.ChangeFontSize | bell-plus-aesthetic/bell-plus-aesthetic/src/components/SettingsPanel.tsx:352-359 | the size and its stored value change |
| SettingsPlus.Panel.ChangeRedirectUrl | bell-plus-aesthetic/bell-plus-aesthetic/src/components/SettingsPanel.tsx:556-561 | the address and its stored value change |
| SettingsPlus.Panel.StartListening | bell-plus-aesthetic/bell-plus-aesthetic/src/components/SettingsPanel.tsx:529 | the next press will be recorded |
| SettingsPlus.Panel.HandleKeyDown | bell-plus-aesthetic/bell-plus-aesthetic/src/components/SettingsPanel.tsx:286-314 | while listening the press becomes the key; otherwise an exact match redirects |
| SettingsPlus.ClockFlagReachesTimer | bell-plus-aesthetic/bell-plus-aesthetic/src/components/SettingsPanel.tsx:329-339 | after a change the timer's check of the same storage sees the new flag |
| SettingsPlus.RedirectIsCaseSensitive | bell-plus-aesthetic/bell-plus-aesthetic/src/components/SettingsPanel.tsx:286-314 | for every press with no modifier and every stored key without '+': a press that fires the bell-plus redirect also fires the main timer's, and a press equal to the key only ignoring case fires the main timer's but not the bell-plus one |
| Selector.CurrentDayScheduleName | bell-plus-aesthetic/bell-plus-aesthetic/src/components/ScheduleSelector.tsx:427-449 | the schedule name of each weekday, a number outside 0..6 falling to the default |
| Selector.SchoolDaysInOrder | bell-plus-aesthetic/bell-plus-aesthetic/src/components/ScheduleSelector.tsx:427-449 | the five school days get five different schedules in week order |
| Selector.Capitalise | bell-plus-aesthetic/bell-plus-aesthetic/src/components/ScheduleSelector.tsx:159 | the first character upper-cased, the rest kept |
| Selector.TodayNameIsCapitalised | bell-plus-aesthetic/bell-plus-aesthetic/src/components/ScheduleSelector.tsx:179-192 | the name next to "Today" is today's schedule name capitalised |
| Selector.TodayButtonAgrees | bell-plus-aesthetic/bell-plus-aesthetic/src/components/ScheduleSelector.tsx:152-163 | the button reads "Today"'s name on the schedule chosen from "Today" |
| Selector.UnknownReadsRegular | bell-plus-aesthetic/bell-plus-aesthetic/src/components/ScheduleSelector.tsx:152-163 | an unknown schedule name reads as the regular schedule |
| Selector.TodayOrSelectDay | bell-plus-aesthetic/bell-plus-aesthetic/src/components/ScheduleSelector.tsx:256-268 | on a day schedule exactly one entry is active, on any other neither |
| Selector.ScheduleSelector.constructor | bell-plus-aesthetic/bell-plus-aesthetic/src/components/ScheduleSelector.tsx:19-39 | the stored letter or "B", the stored schedule or today's |
| Selector.ScheduleSelector.Toggle | bell-plus-aesthetic/bell-plus-aesthetic/src/components/ScheduleSelector.tsx:204 | the menu opens or closes |
| Selector.ScheduleSelector.HandleScheduleChange | bell-plus-aesthetic/bell-plus-aesthetic/src/components/ScheduleSelector.tsx:82-95 | "assembly" and "selectDay" open a section, anything else is reported and closes the menu |
| Selector.ScheduleSelector.HandleDayScheduleChange | bell-plus-aesthetic/bell-plus-aesthetic/src/components/ScheduleSelector.tsx:97-102 | the day is reported and the menu closes |
| Selector.ScheduleSelector.HandleAssemblyLetterChange | bell-plus-aesthetic/bell-plus-aesthetic/src/components/ScheduleSelector.tsx:104-107 | the letter is reported and stored |
| Selector.ScheduleSelector.HandleBackToMain | bell-plus-aesthetic/bell-plus-aesthetic/src/components/ScheduleSelector.tsx:109-111 | back to the main section |
| Selector.ScheduleSelector.HandleConfirmAssembly | bell-plus-aesthetic/bell-plus-aesthetic/src/components/ScheduleSelector.tsx:113-117 | "assembly" is reported and the menu closes |
| Selector.ScheduleSelector.ChooseToday | bell-plus-aesthetic/bell-plus-aesthetic/src/components/ScheduleSelector.tsx:256-260 | today's schedule is always reported and closes the menu |

## Left out

- `bell-plus-aesthetic/uploads/extracted-latest/bell-plus-aesthetic/src/data/schedules.ts` is not part of this model; the uploaded copy's timer and schedule list use the bell-plus schedules (`PlusSchedules`).
- Code that is identical in the three settings panels is modelled once: the combination builder, redirect parse and match, address normalisation and Konami buffer in `Settings`, and the dropdown placement and `currentLabel` in `SettingsLatest` and `Settings`.
- `calculateTimeUntilNextSchoolDay` reads the clock itself; every copy takes the same instant `now` as the caller, so a clock that moves between the two readings is not modelled.
- JavaScript `Date`: time zones, daylight saving and month roll-over are not modelled; a date is a weekday and a time of day, and `setHours` past midnight is an offset beyond the day.
- Floating point: progress is an exact rational, and the favicon's `toFixed(1)` key is tenths of a minute computed exactly on whole seconds.
- Timers, `requestAnimationFrame`, `setInterval`, `visibilitychange` and the order React runs effects in: one tick or one effect is one method call, with the clock passed in.
- The DOM and styling: theme observers, `applyLightTheme`/`applyDarkTheme`, class names other than the countdown's size classes, the SVG text of the icons and `encodeURIComponent` (an icon is its colour), audio and the decorative effects.
- `localStorage` failures, `console` logging, and the `try`/`catch` branches that show "Error".
- `parseInt` and `Number` on malformed text and `NaN`: schedule times are already split into hour, minute and marker.
- The `onScheduleUpdate` callbacks of the timers, which only pass values out.
- The recorder modal's keyup, escape and click handlers, and the panels' other switches (grid, gradient, fluid, snow, favicon shape), which only store a flag.
- Theme, page, layout and framework files are not part of this model.
- TimerMain.CalculateTimeUntilNextSchoolDay: its own contract bounds the result between zero and four days; the target day itself is stated by `TimerMain.NextSchoolDayIsFirstAfterToday`.
- TimerPlus.CalculateTimeUntilNextSchoolDay: its own contract bounds the result between zero and four days; the target day itself is stated by `TimerPlus.NextSchoolDayIsFirstOpeningAhead`.
- Case mapping: `toUpperCase` and `toLowerCase` are modelled on ASCII letters only, so a non-ASCII key name (in `ShownKey`, `Matches` and `Selector.Capitalise`) or a non-ASCII marker is not mapped as JavaScript would map it.

## Findings

| source | as written | input that shows it | evidently intended | confidence | as-written member | corrected member |
|---|---|---|---|---|---|---|
| bell-plus-aesthetic/bell-plus-aesthetic/src/components/StandaloneBellTimer.tsx:20-25 | hours are taken literally, so every row from Lunch on lies in the small hours | Monday 13:30, during Period 6 | bare hours 1 to 7 read as the afternoon, as in the other timers | high, not executed | TimerStandalone.MondayAfternoonAsWritten | TimerStandalone.MondayAfternoonCorrected |
| bell-plus-aesthetic/bell-plus-aesthetic/src/components/StandaloneBellTimer.tsx:47 | the roll-over test `hours >= 15 or (hours == 15 and minutes >= 3)` rolls over from 15:00; its second half adds nothing | Monday 15:01 already counts to Tuesday | roll over from 15:03 as the comment above it says | medium, not executed | TimerStandalone.RollOverAsWritten | TimerStandalone.RollOverCorrected |
| src/data/schedules.ts:185-204 | the assembly renaming returns undefined for Brunch and Lunch, so the assembly timer shows them as undefined and the list leaves them unlabelled | assembly schedule at the Brunch row, letter B | keep the names Brunch and Lunch, as the bell-plus schedules do | high, not executed | Schedules.AssemblyBreaksUndefined | PlusSchedules.AssemblyRowsNamed |
| bell-plus-aesthetic/bell-plus-aesthetic/src/components/BellTimer.tsx:463-466 | the tick writes progress as a percentage into the field the resolver fills with a fraction and the bar multiplies by 100 | half way through a 46-minute period the tick writes about 50 | write the fraction elapsed, clamped to [0, 1] | high, not executed | TimerPlus.TickProgressIsPercent | TimerPlus.TickProgressFractionAgrees |
| bell-plus-aesthetic/bell-plus-aesthetic/src/components/BellTimer.tsx:470 | the favicon is given the minutes within the hour, dropping whole hours | 1 hour and 10 seconds left: the icon flashes red | pass the whole minutes left | high, not executed | TimerPlus.FaviconAtAnHourAsWritten | TimerPlus.FaviconCallFixedBands |
| bell-plus-aesthetic/bell-plus-aesthetic/src/components/BellTimer.tsx:392-394 | `formatCountdown` is memoised with no dependencies, so the large countdown keeps the first render's fields | one hour left: the countdown still reads 00:00:00 | format the current hours, minutes and seconds | high, not executed | TimerPlus.StaleCountdownAsWritten | TimerPlus.ShownCountdownReads |
| bell-plus-aesthetic/bell-plus-aesthetic/src/components/BellTimer.tsx:170-211 | the warning-bell branch returns without clearing the outside flag set earlier in the morning | Monday 08:20 then 08:26: the next tick counts to Tuesday 08:25 | treat the warning bell as school time and count down to the first class | medium, not executed | TimerPlus.WarningBellStaysOutsideAsWritten | TimerPlus.BellInSchoolCountsDown |
| src/components/SettingsPanel.tsx:707 | `applyFontSize` looks the countdown up by `.text-8xl`, the class it then removes | choose small, then large: the countdown stays small | look it up by a class it keeps, as the uploaded copy does with `countdown-timer` | high, not executed | Settings.SmallThenLargeStaysSmall | SettingsLatest.SmallThenLargeEndsLarge |
| bell-plus-aesthetic/bell-plus-aesthetic/src/lib/favicons.ts:73-80 | dynamic updates never reset the cached solid colour, so a later grey write is skipped | grey, then a countdown, then grey again: the countdown's colour stays | one cache of the colour last written, shared by both updates | high, not executed | Favicon.StaleGrayAsWritten | Favicon.CachedShowsIntended |
| bell-plus-aesthetic/uploads/extracted-latest/bell-plus-aesthetic/src/components/Schedule.tsx:306-327 | `timeToMinutes` looks for "PM" in the minute text, which the tables never write, so afternoon rows read as the small hours | Monday 13:30: Period 6 is drawn complete, not current | read bare hours as the timer of the same copy does | high, not executed | ScheduleViewLatest.MondayAfternoonAsWritten | ScheduleViewLatest.MondayAfternoonAsTimer |
