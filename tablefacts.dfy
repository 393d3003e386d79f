/** Facts about the schedule tables of the main timer and of the bell-plus
    timer, read under the bare-hour afternoon rule both timers apply: each
    row starts no later than it ends and ends no later than the next row
    starts, the starts strictly increase, every minute-count label is the
    row's length, every day ends at 23:59, and the warning bell is an
    instant in the main timer and a five-minute window in bell-plus. */
module TableFacts {
  import opened JsText
  import opened Timing
  import opened Schedules
  import PlusSchedules
  import TimerMain
  import ScheduleView
  import TimerLatest
  import ScheduleViewLatest

  /** Minutes after midnight of a table time, hours 1 to 7 read as the
      afternoon. */
  function Minutes(t: ClockText): (r: int)
    ensures r * MinuteMs == TimerMain.ParseTimeString(t)
  {
    (if 1 <= t.hour < 8 then t.hour + 12 else t.hour) * 60 + t.minute
  }

  /** A row's length in minutes. */
  function Length(p: Period): int
  {
    Minutes(p.endTime) - Minutes(p.startTime)
  }

  /** Row `i` starts no later than it ends and, when a row follows, before
      that row starts and ends no later than that row starts. */
  predicate RowFits(ps: seq<Period>, i: nat)
    requires i < |ps|
  {
    Minutes(ps[i].startTime) <= Minutes(ps[i].endTime) &&
    (i + 1 < |ps| ==>
      Minutes(ps[i].startTime) < Minutes(ps[i + 1].startTime) &&
      Minutes(ps[i].endTime) <= Minutes(ps[i + 1].startTime))
  }

  /** A row's label, if it has one, is its length in minutes in parentheses;
      the weekend's all-day row says "(24h)" instead. */
  predicate LabelAgrees(p: Period)
  {
    p.duration.None? ||
    (Length(p) >= 0 && p.duration == Some("(" + NatToString(Length(p)) + ")")) ||
    (p.duration == Some("(24h)") && Minutes(p.startTime) == 0 && p.endTime == ClockText(23, 59, ""))
  }

  /** How long the warning bell rings: the main timer's tables give it no
      length, the bell-plus tables five minutes up to the first class. */
  datatype BellRule = NoLength | FiveMinutes

  /** A row named "Warning Bell" follows the table's bell rule. */
  predicate BellAgrees(bell: BellRule, ps: seq<Period>, i: nat)
    requires i < |ps|
  {
    ps[i].name == "Warning Bell" ==>
      match bell
      case NoLength => Length(ps[i]) == 0
      case FiveMinutes =>
        Length(ps[i]) == 5 && i + 1 < |ps| && Minutes(ps[i].endTime) == Minutes(ps[i + 1].startTime)
  }

  predicate RowOk(bell: BellRule, ps: seq<Period>, i: nat)
    requires i < |ps|
  {
    RowFits(ps, i) && LabelAgrees(ps[i]) && BellAgrees(bell, ps, i)
  }

  /** Every row from `i` on is in order, labelled by its length and rings
      the bell as the rule says. */
  predicate RowsFrom(bell: BellRule, ps: seq<Period>, i: nat)
    decreases |ps| - i
  {
    i >= |ps| || (RowOk(bell, ps, i) && RowsFrom(bell, ps, i + 1))
  }

  /** A well-formed day: every row is, and the day ends at 23:59. */
  predicate WellFormed(bell: BellRule, ps: seq<Period>)
  {
    |ps| > 0 && ps[|ps| - 1].endTime == ClockText(23, 59, "") &&
    forall i :: 0 <= i < |ps| ==> RowOk(bell, ps, i)
  }

  lemma {:induction false} RowsFromEach(bell: BellRule, ps: seq<Period>, i: nat, k: nat)
    requires RowsFrom(bell, ps, i) && i <= k < |ps|
    ensures RowOk(bell, ps, k)
    decreases k - i
  {
    if i < k {
      RowsFromEach(bell, ps, i + 1, k);
    }
  }

  /** Checking row by row establishes the whole day. */
  lemma RowsFromWellFormed(bell: BellRule, ps: seq<Period>)
    requires RowsFrom(bell, ps, 0)
    requires |ps| > 0 && ps[|ps| - 1].endTime == ClockText(23, 59, "")
    ensures WellFormed(bell, ps)
  {
    forall i | 0 <= i < |ps|
      ensures RowOk(bell, ps, i)
    {
      RowsFromEach(bell, ps, 0, i);
    }
  }

  /** In a well-formed day every start is later than every earlier start,
      which is what both timers' period search relies on. */
  lemma {:induction false} WellFormedAscending(bell: BellRule, ps: seq<Period>)
    requires WellFormed(bell, ps)
    ensures TimerMain.StartsAscending(ps)
  {
    forall j, k | 0 <= j < k < |ps|
      ensures TimerMain.StartOf(ps[j]) < TimerMain.StartOf(ps[k])
    {
      StartsIncrease(bell, ps, j, k);
      assert Minutes(ps[j].startTime) * MinuteMs < Minutes(ps[k].startTime) * MinuteMs;
    }
  }

  lemma {:induction false} StartsIncrease(bell: BellRule, ps: seq<Period>, j: nat, k: nat)
    requires WellFormed(bell, ps) && j < k < |ps|
    ensures Minutes(ps[j].startTime) < Minutes(ps[k].startTime)
    decreases k - j
  {
    assert RowOk(bell, ps, j);
    if j + 1 < k {
      StartsIncrease(bell, ps, j + 1, k);
    }
  }

  /** `n.toString()` of a one-digit number. */
  lemma OneDigitLabel(n: nat)
    requires n < 10
    ensures "(" + NatToString(n) + ")" == ['(', DigitChar(n), ')']
  {
  }

  /** `n.toString()` of a two-digit number, digit by digit. */
  lemma TwoDigitLabel(n: nat)
    requires 10 <= n < 100
    ensures "(" + NatToString(n) + ")" == ['(', DigitChar(n / 10), DigitChar(n % 10), ')']
  {
  }

  lemma MainMondayRows0To1()
    ensures RowOk(NoLength, Monday.periods, 0) && RowOk(NoLength, Monday.periods, 1)
  {
    TwoDigitLabel(14);
    TwoDigitLabel(36);
    TwoDigitLabel(46);
    TwoDigitLabel(49);
  }

  lemma MainMondayRows2To3()
    ensures RowOk(NoLength, Monday.periods, 2) && RowOk(NoLength, Monday.periods, 3)
  {
    TwoDigitLabel(14);
    TwoDigitLabel(36);
    TwoDigitLabel(46);
    TwoDigitLabel(49);
  }

  lemma MainMondayRows4To5()
    ensures RowOk(NoLength, Monday.periods, 4) && RowOk(NoLength, Monday.periods, 5)
  {
    TwoDigitLabel(14);
    TwoDigitLabel(36);
    TwoDigitLabel(46);
    TwoDigitLabel(49);
  }

  lemma MainMondayRows6To7()
    ensures RowOk(NoLength, Monday.periods, 6) && RowOk(NoLength, Monday.periods, 7)
  {
    TwoDigitLabel(14);
    TwoDigitLabel(36);
    TwoDigitLabel(46);
    TwoDigitLabel(49);
  }

  lemma MainMondayRows8To9()
    ensures RowOk(NoLength, Monday.periods, 8) && RowOk(NoLength, Monday.periods, 9)
  {
    TwoDigitLabel(14);
    TwoDigitLabel(36);
    TwoDigitLabel(46);
    TwoDigitLabel(49);
  }

  lemma MainMondayRows10To10()
    ensures RowOk(NoLength, Monday.periods, 10)
  {
    TwoDigitLabel(14);
    TwoDigitLabel(36);
    TwoDigitLabel(46);
    TwoDigitLabel(49);
  }

  /** Every row of the table is in order, labelled by its length, and rings
      the bell by the table's rule. */
  lemma MainMondayRows()
    ensures WellFormed(NoLength, Monday.periods)
  {
    var ps := Monday.periods;
    MainMondayRows0To1();
    MainMondayRows2To3();
    MainMondayRows4To5();
    MainMondayRows6To7();
    MainMondayRows8To9();
    MainMondayRows10To10();
    assert RowsFrom(NoLength, ps, 11);
    assert RowsFrom(NoLength, ps, 10);
    assert RowsFrom(NoLength, ps, 9);
    assert RowsFrom(NoLength, ps, 8);
    assert RowsFrom(NoLength, ps, 7);
    assert RowsFrom(NoLength, ps, 6);
    assert RowsFrom(NoLength, ps, 5);
    assert RowsFrom(NoLength, ps, 4);
    assert RowsFrom(NoLength, ps, 3);
    assert RowsFrom(NoLength, ps, 2);
    assert RowsFrom(NoLength, ps, 1);
    assert RowsFrom(NoLength, ps, 0);
    RowsFromWellFormed(NoLength, ps);
  }

  lemma MainTuesdayRows0To1()
    ensures RowOk(NoLength, Tuesday.periods, 0) && RowOk(NoLength, Tuesday.periods, 1)
  {
    TwoDigitLabel(14);
    TwoDigitLabel(28);
    TwoDigitLabel(36);
    TwoDigitLabel(42);
  }

  lemma MainTuesdayRows2To3()
    ensures RowOk(NoLength, Tuesday.periods, 2) && RowOk(NoLength, Tuesday.periods, 3)
  {
    TwoDigitLabel(14);
    TwoDigitLabel(28);
    TwoDigitLabel(36);
    TwoDigitLabel(42);
  }

  lemma MainTuesdayRows4To5()
    ensures RowOk(NoLength, Tuesday.periods, 4) && RowOk(NoLength, Tuesday.periods, 5)
  {
    TwoDigitLabel(14);
    TwoDigitLabel(28);
    TwoDigitLabel(36);
    TwoDigitLabel(42);
  }

  lemma MainTuesdayRows6To7()
    ensures RowOk(NoLength, Tuesday.periods, 6) && RowOk(NoLength, Tuesday.periods, 7)
  {
    TwoDigitLabel(14);
    TwoDigitLabel(28);
    TwoDigitLabel(36);
    TwoDigitLabel(42);
  }

  lemma MainTuesdayRows8To9()
    ensures RowOk(NoLength, Tuesday.periods, 8) && RowOk(NoLength, Tuesday.periods, 9)
  {
    TwoDigitLabel(14);
    TwoDigitLabel(28);
    TwoDigitLabel(36);
    TwoDigitLabel(42);
  }

  lemma MainTuesdayRows10To11()
    ensures RowOk(NoLength, Tuesday.periods, 10) && RowOk(NoLength, Tuesday.periods, 11)
  {
    TwoDigitLabel(14);
    TwoDigitLabel(28);
    TwoDigitLabel(36);
    TwoDigitLabel(42);
  }

  /** Every row of the table is in order, labelled by its length, and rings
      the bell by the table's rule. */
  lemma MainTuesdayRows()
    ensures WellFormed(NoLength, Tuesday.periods)
  {
    var ps := Tuesday.periods;
    MainTuesdayRows0To1();
    MainTuesdayRows2To3();
    MainTuesdayRows4To5();
    MainTuesdayRows6To7();
    MainTuesdayRows8To9();
    MainTuesdayRows10To11();
    assert RowsFrom(NoLength, ps, 12);
    assert RowsFrom(NoLength, ps, 11);
    assert RowsFrom(NoLength, ps, 10);
    assert RowsFrom(NoLength, ps, 9);
    assert RowsFrom(NoLength, ps, 8);
    assert RowsFrom(NoLength, ps, 7);
    assert RowsFrom(NoLength, ps, 6);
    assert RowsFrom(NoLength, ps, 5);
    assert RowsFrom(NoLength, ps, 4);
    assert RowsFrom(NoLength, ps, 3);
    assert RowsFrom(NoLength, ps, 2);
    assert RowsFrom(NoLength, ps, 1);
    assert RowsFrom(NoLength, ps, 0);
    RowsFromWellFormed(NoLength, ps);
  }

  lemma MainWednesdayRows0To1()
    ensures RowOk(NoLength, Wednesday.periods, 0) && RowOk(NoLength, Wednesday.periods, 1)
  {
    TwoDigitLabel(14);
    TwoDigitLabel(36);
    TwoDigitLabel(41);
    TwoDigitLabel(82);
  }

  lemma MainWednesdayRows2To3()
    ensures RowOk(NoLength, Wednesday.periods, 2) && RowOk(NoLength, Wednesday.periods, 3)
  {
    TwoDigitLabel(14);
    TwoDigitLabel(36);
    TwoDigitLabel(41);
    TwoDigitLabel(82);
  }

  lemma MainWednesdayRows4To5()
    ensures RowOk(NoLength, Wednesday.periods, 4) && RowOk(NoLength, Wednesday.periods, 5)
  {
    TwoDigitLabel(14);
    TwoDigitLabel(36);
    TwoDigitLabel(41);
    TwoDigitLabel(82);
  }

  lemma MainWednesdayRows6To7()
    ensures RowOk(NoLength, Wednesday.periods, 6) && RowOk(NoLength, Wednesday.periods, 7)
  {
    TwoDigitLabel(14);
    TwoDigitLabel(36);
    TwoDigitLabel(41);
    TwoDigitLabel(82);
  }

  /** Every row of the table is in order, labelled by its length, and rings
      the bell by the table's rule. */
  lemma MainWednesdayRows()
    ensures WellFormed(NoLength, Wednesday.periods)
  {
    var ps := Wednesday.periods;
    MainWednesdayRows0To1();
    MainWednesdayRows2To3();
    MainWednesdayRows4To5();
    MainWednesdayRows6To7();
    assert RowsFrom(NoLength, ps, 8);
    assert RowsFrom(NoLength, ps, 7);
    assert RowsFrom(NoLength, ps, 6);
    assert RowsFrom(NoLength, ps, 5);
    assert RowsFrom(NoLength, ps, 4);
    assert RowsFrom(NoLength, ps, 3);
    assert RowsFrom(NoLength, ps, 2);
    assert RowsFrom(NoLength, ps, 1);
    assert RowsFrom(NoLength, ps, 0);
    RowsFromWellFormed(NoLength, ps);
  }

  lemma MainThursdayRows0To1()
    ensures RowOk(NoLength, Thursday.periods, 0) && RowOk(NoLength, Thursday.periods, 1)
  {
    TwoDigitLabel(14);
    TwoDigitLabel(36);
    TwoDigitLabel(82);
    OneDigitLabel(6);
  }

  lemma MainThursdayRows2To3()
    ensures RowOk(NoLength, Thursday.periods, 2) && RowOk(NoLength, Thursday.periods, 3)
  {
    TwoDigitLabel(14);
    TwoDigitLabel(36);
    TwoDigitLabel(82);
    OneDigitLabel(6);
  }

  lemma MainThursdayRows4To5()
    ensures RowOk(NoLength, Thursday.periods, 4) && RowOk(NoLength, Thursday.periods, 5)
  {
    TwoDigitLabel(14);
    TwoDigitLabel(36);
    TwoDigitLabel(82);
    OneDigitLabel(6);
  }

  lemma MainThursdayRows6To7()
    ensures RowOk(NoLength, Thursday.periods, 6) && RowOk(NoLength, Thursday.periods, 7)
  {
    TwoDigitLabel(14);
    TwoDigitLabel(36);
    TwoDigitLabel(82);
    OneDigitLabel(6);
  }

  lemma MainThursdayRows8To8()
    ensures RowOk(NoLength, Thursday.periods, 8)
  {
    TwoDigitLabel(14);
    TwoDigitLabel(36);
    TwoDigitLabel(82);
    OneDigitLabel(6);
  }

  /** Every row of the table is in order, labelled by its length, and rings
      the bell by the table's rule. */
  lemma MainThursdayRows()
    ensures WellFormed(NoLength, Thursday.periods)
  {
    var ps := Thursday.periods;
    MainThursdayRows0To1();
    MainThursdayRows2To3();
    MainThursdayRows4To5();
    MainThursdayRows6To7();
    MainThursdayRows8To8();
    assert RowsFrom(NoLength, ps, 9);
    assert RowsFrom(NoLength, ps, 8);
    assert RowsFrom(NoLength, ps, 7);
    assert RowsFrom(NoLength, ps, 6);
    assert RowsFrom(NoLength, ps, 5);
    assert RowsFrom(NoLength, ps, 4);
    assert RowsFrom(NoLength, ps, 3);
    assert RowsFrom(NoLength, ps, 2);
    assert RowsFrom(NoLength, ps, 1);
    assert RowsFrom(NoLength, ps, 0);
    RowsFromWellFormed(NoLength, ps);
  }

  lemma MainFridayRows0To1()
    ensures RowOk(NoLength, Friday.periods, 0) && RowOk(NoLength, Friday.periods, 1)
  {
    TwoDigitLabel(14);
    TwoDigitLabel(28);
    TwoDigitLabel(36);
    TwoDigitLabel(42);
  }

  lemma MainFridayRows2To3()
    ensures RowOk(NoLength, Friday.periods, 2) && RowOk(NoLength, Friday.periods, 3)
  {
    TwoDigitLabel(14);
    TwoDigitLabel(28);
    TwoDigitLabel(36);
    TwoDigitLabel(42);
  }

  lemma MainFridayRows4To5()
    ensures RowOk(NoLength, Friday.periods, 4) && RowOk(NoLength, Friday.periods, 5)
  {
    TwoDigitLabel(14);
    TwoDigitLabel(28);
    TwoDigitLabel(36);
    TwoDigitLabel(42);
  }

  lemma MainFridayRows6To7()
    ensures RowOk(NoLength, Friday.periods, 6) && RowOk(NoLength, Friday.periods, 7)
  {
    TwoDigitLabel(14);
    TwoDigitLabel(28);
    TwoDigitLabel(36);
    TwoDigitLabel(42);
  }

  lemma MainFridayRows8To9()
    ensures RowOk(NoLength, Friday.periods, 8) && RowOk(NoLength, Friday.periods, 9)
  {
    TwoDigitLabel(14);
    TwoDigitLabel(28);
    TwoDigitLabel(36);
    TwoDigitLabel(42);
  }

  lemma MainFridayRows10To11()
    ensures RowOk(NoLength, Friday.periods, 10) && RowOk(NoLength, Friday.periods, 11)
  {
    TwoDigitLabel(14);
    TwoDigitLabel(28);
    TwoDigitLabel(36);
    TwoDigitLabel(42);
  }

  /** Every row of the table is in order, labelled by its length, and rings
      the bell by the table's rule. */
  lemma MainFridayRows()
    ensures WellFormed(NoLength, Friday.periods)
  {
    var ps := Friday.periods;
    MainFridayRows0To1();
    MainFridayRows2To3();
    MainFridayRows4To5();
    MainFridayRows6To7();
    MainFridayRows8To9();
    MainFridayRows10To11();
    assert RowsFrom(NoLength, ps, 12);
    assert RowsFrom(NoLength, ps, 11);
    assert RowsFrom(NoLength, ps, 10);
    assert RowsFrom(NoLength, ps, 9);
    assert RowsFrom(NoLength, ps, 8);
    assert RowsFrom(NoLength, ps, 7);
    assert RowsFrom(NoLength, ps, 6);
    assert RowsFrom(NoLength, ps, 5);
    assert RowsFrom(NoLength, ps, 4);
    assert RowsFrom(NoLength, ps, 3);
    assert RowsFrom(NoLength, ps, 2);
    assert RowsFrom(NoLength, ps, 1);
    assert RowsFrom(NoLength, ps, 0);
    RowsFromWellFormed(NoLength, ps);
  }

  lemma MainSaturdayRows0To0()
    ensures RowOk(NoLength, Saturday.periods, 0)
  {
  }

  /** Every row of the table is in order, labelled by its length, and rings
      the bell by the table's rule. */
  lemma MainSaturdayRows()
    ensures WellFormed(NoLength, Saturday.periods)
  {
    var ps := Saturday.periods;
    MainSaturdayRows0To0();
    assert RowsFrom(NoLength, ps, 1);
    assert RowsFrom(NoLength, ps, 0);
    RowsFromWellFormed(NoLength, ps);
  }

  lemma MainSundayRows0To0()
    ensures RowOk(NoLength, Sunday.periods, 0)
  {
  }

  /** Every row of the table is in order, labelled by its length, and rings
      the bell by the table's rule. */
  lemma MainSundayRows()
    ensures WellFormed(NoLength, Sunday.periods)
  {
    var ps := Sunday.periods;
    MainSundayRows0To0();
    assert RowsFrom(NoLength, ps, 1);
    assert RowsFrom(NoLength, ps, 0);
    RowsFromWellFormed(NoLength, ps);
  }

  lemma MainMinimumDayRows0To1()
    ensures RowOk(NoLength, MinimumDay.periods, 0) && RowOk(NoLength, MinimumDay.periods, 1)
  {
  }

  lemma MainMinimumDayRows2To3()
    ensures RowOk(NoLength, MinimumDay.periods, 2) && RowOk(NoLength, MinimumDay.periods, 3)
  {
  }

  lemma MainMinimumDayRows4To5()
    ensures RowOk(NoLength, MinimumDay.periods, 4) && RowOk(NoLength, MinimumDay.periods, 5)
  {
  }

  lemma MainMinimumDayRows6To7()
    ensures RowOk(NoLength, MinimumDay.periods, 6) && RowOk(NoLength, MinimumDay.periods, 7)
  {
  }

  lemma MainMinimumDayRows8To8()
    ensures RowOk(NoLength, MinimumDay.periods, 8)
  {
  }

  /** Every row of the table is in order, labelled by its length, and rings
      the bell by the table's rule. */
  lemma MainMinimumDayRows()
    ensures WellFormed(NoLength, MinimumDay.periods)
  {
    var ps := MinimumDay.periods;
    MainMinimumDayRows0To1();
    MainMinimumDayRows2To3();
    MainMinimumDayRows4To5();
    MainMinimumDayRows6To7();
    MainMinimumDayRows8To8();
    assert RowsFrom(NoLength, ps, 9);
    assert RowsFrom(NoLength, ps, 8);
    assert RowsFrom(NoLength, ps, 7);
    assert RowsFrom(NoLength, ps, 6);
    assert RowsFrom(NoLength, ps, 5);
    assert RowsFrom(NoLength, ps, 4);
    assert RowsFrom(NoLength, ps, 3);
    assert RowsFrom(NoLength, ps, 2);
    assert RowsFrom(NoLength, ps, 1);
    assert RowsFrom(NoLength, ps, 0);
    RowsFromWellFormed(NoLength, ps);
  }

  lemma MainAssemblyRows0To1()
    ensures RowOk(NoLength, Assembly.periods, 0) && RowOk(NoLength, Assembly.periods, 1)
  {
  }

  lemma MainAssemblyRows2To3()
    ensures RowOk(NoLength, Assembly.periods, 2) && RowOk(NoLength, Assembly.periods, 3)
  {
  }

  lemma MainAssemblyRows4To5()
    ensures RowOk(NoLength, Assembly.periods, 4) && RowOk(NoLength, Assembly.periods, 5)
  {
  }

  lemma MainAssemblyRows6To7()
    ensures RowOk(NoLength, Assembly.periods, 6) && RowOk(NoLength, Assembly.periods, 7)
  {
  }

  lemma MainAssemblyRows8To9()
    ensures RowOk(NoLength, Assembly.periods, 8) && RowOk(NoLength, Assembly.periods, 9)
  {
  }

  lemma MainAssemblyRows10To10()
    ensures RowOk(NoLength, Assembly.periods, 10)
  {
  }

  /** Every row of the table is in order, labelled by its length, and rings
      the bell by the table's rule. */
  lemma MainAssemblyRows()
    ensures WellFormed(NoLength, Assembly.periods)
  {
    var ps := Assembly.periods;
    MainAssemblyRows0To1();
    MainAssemblyRows2To3();
    MainAssemblyRows4To5();
    MainAssemblyRows6To7();
    MainAssemblyRows8To9();
    MainAssemblyRows10To10();
    assert RowsFrom(NoLength, ps, 11);
    assert RowsFrom(NoLength, ps, 10);
    assert RowsFrom(NoLength, ps, 9);
    assert RowsFrom(NoLength, ps, 8);
    assert RowsFrom(NoLength, ps, 7);
    assert RowsFrom(NoLength, ps, 6);
    assert RowsFrom(NoLength, ps, 5);
    assert RowsFrom(NoLength, ps, 4);
    assert RowsFrom(NoLength, ps, 3);
    assert RowsFrom(NoLength, ps, 2);
    assert RowsFrom(NoLength, ps, 1);
    assert RowsFrom(NoLength, ps, 0);
    RowsFromWellFormed(NoLength, ps);
  }

  lemma PlusMondayRows0To1()
    ensures RowOk(FiveMinutes, PlusSchedules.Monday.periods, 0) && RowOk(FiveMinutes, PlusSchedules.Monday.periods, 1)
  {
    TwoDigitLabel(14);
    TwoDigitLabel(36);
    TwoDigitLabel(46);
    TwoDigitLabel(49);
  }

  lemma PlusMondayRows2To3()
    ensures RowOk(FiveMinutes, PlusSchedules.Monday.periods, 2) && RowOk(FiveMinutes, PlusSchedules.Monday.periods, 3)
  {
    TwoDigitLabel(14);
    TwoDigitLabel(36);
    TwoDigitLabel(46);
    TwoDigitLabel(49);
  }

  lemma PlusMondayRows4To5()
    ensures RowOk(FiveMinutes, PlusSchedules.Monday.periods, 4) && RowOk(FiveMinutes, PlusSchedules.Monday.periods, 5)
  {
    TwoDigitLabel(14);
    TwoDigitLabel(36);
    TwoDigitLabel(46);
    TwoDigitLabel(49);
  }

  lemma PlusMondayRows6To7()
    ensures RowOk(FiveMinutes, PlusSchedules.Monday.periods, 6) && RowOk(FiveMinutes, PlusSchedules.Monday.periods, 7)
  {
    TwoDigitLabel(14);
    TwoDigitLabel(36);
    TwoDigitLabel(46);
    TwoDigitLabel(49);
  }

  lemma PlusMondayRows8To9()
    ensures RowOk(FiveMinutes, PlusSchedules.Monday.periods, 8) && RowOk(FiveMinutes, PlusSchedules.Monday.periods, 9)
  {
    TwoDigitLabel(14);
    TwoDigitLabel(36);
    TwoDigitLabel(46);
    TwoDigitLabel(49);
  }

  lemma PlusMondayRows10To10()
    ensures RowOk(FiveMinutes, PlusSchedules.Monday.periods, 10)
  {
    TwoDigitLabel(14);
    TwoDigitLabel(36);
    TwoDigitLabel(46);
    TwoDigitLabel(49);
  }

  /** Every row of the table is in order, labelled by its length, and rings
      the bell by the table's rule. */
  lemma PlusMondayRows()
    ensures WellFormed(FiveMinutes, PlusSchedules.Monday.periods)
  {
    var ps := PlusSchedules.Monday.periods;
    PlusMondayRows0To1();
    PlusMondayRows2To3();
    PlusMondayRows4To5();
    PlusMondayRows6To7();
    PlusMondayRows8To9();
    PlusMondayRows10To10();
    assert RowsFrom(FiveMinutes, ps, 11);
    assert RowsFrom(FiveMinutes, ps, 10);
    assert RowsFrom(FiveMinutes, ps, 9);
    assert RowsFrom(FiveMinutes, ps, 8);
    assert RowsFrom(FiveMinutes, ps, 7);
    assert RowsFrom(FiveMinutes, ps, 6);
    assert RowsFrom(FiveMinutes, ps, 5);
    assert RowsFrom(FiveMinutes, ps, 4);
    assert RowsFrom(FiveMinutes, ps, 3);
    assert RowsFrom(FiveMinutes, ps, 2);
    assert RowsFrom(FiveMinutes, ps, 1);
    assert RowsFrom(FiveMinutes, ps, 0);
    RowsFromWellFormed(FiveMinutes, ps);
  }

  lemma PlusTuesdayRows0To1()
    ensures RowOk(FiveMinutes, PlusSchedules.Tuesday.periods, 0) && RowOk(FiveMinutes, PlusSchedules.Tuesday.periods, 1)
  {
    TwoDigitLabel(14);
    TwoDigitLabel(28);
    TwoDigitLabel(36);
    TwoDigitLabel(42);
  }

  lemma PlusTuesdayRows2To3()
    ensures RowOk(FiveMinutes, PlusSchedules.Tuesday.periods, 2) && RowOk(FiveMinutes, PlusSchedules.Tuesday.periods, 3)
  {
    TwoDigitLabel(14);
    TwoDigitLabel(28);
    TwoDigitLabel(36);
    TwoDigitLabel(42);
  }

  lemma PlusTuesdayRows4To5()
    ensures RowOk(FiveMinutes, PlusSchedules.Tuesday.periods, 4) && RowOk(FiveMinutes, PlusSchedules.Tuesday.periods, 5)
  {
    TwoDigitLabel(14);
    TwoDigitLabel(28);
    TwoDigitLabel(36);
    TwoDigitLabel(42);
  }

  lemma PlusTuesdayRows6To7()
    ensures RowOk(FiveMinutes, PlusSchedules.Tuesday.periods, 6) && RowOk(FiveMinutes, PlusSchedules.Tuesday.periods, 7)
  {
    TwoDigitLabel(14);
    TwoDigitLabel(28);
    TwoDigitLabel(36);
    TwoDigitLabel(42);
  }

  lemma PlusTuesdayRows8To9()
    ensures RowOk(FiveMinutes, PlusSchedules.Tuesday.periods, 8) && RowOk(FiveMinutes, PlusSchedules.Tuesday.periods, 9)
  {
    TwoDigitLabel(14);
    TwoDigitLabel(28);
    TwoDigitLabel(36);
    TwoDigitLabel(42);
  }

  lemma PlusTuesdayRows10To11()
    ensures RowOk(FiveMinutes, PlusSchedules.Tuesday.periods, 10) && RowOk(FiveMinutes, PlusSchedules.Tuesday.periods, 11)
  {
    TwoDigitLabel(14);
    TwoDigitLabel(28);
    TwoDigitLabel(36);
    TwoDigitLabel(42);
  }

  /** Every row of the table is in order, labelled by its length, and rings
      the bell by the table's rule. */
  lemma PlusTuesdayRows()
    ensures WellFormed(FiveMinutes, PlusSchedules.Tuesday.periods)
  {
    var ps := PlusSchedules.Tuesday.periods;
    PlusTuesdayRows0To1();
    PlusTuesdayRows2To3();
    PlusTuesdayRows4To5();
    PlusTuesdayRows6To7();
    PlusTuesdayRows8To9();
    PlusTuesdayRows10To11();
    assert RowsFrom(FiveMinutes, ps, 12);
    assert RowsFrom(FiveMinutes, ps, 11);
    assert RowsFrom(FiveMinutes, ps, 10);
    assert RowsFrom(FiveMinutes, ps, 9);
    assert RowsFrom(FiveMinutes, ps, 8);
    assert RowsFrom(FiveMinutes, ps, 7);
    assert RowsFrom(FiveMinutes, ps, 6);
    assert RowsFrom(FiveMinutes, ps, 5);
    assert RowsFrom(FiveMinutes, ps, 4);
    assert RowsFrom(FiveMinutes, ps, 3);
    assert RowsFrom(FiveMinutes, ps, 2);
    assert RowsFrom(FiveMinutes, ps, 1);
    assert RowsFrom(FiveMinutes, ps, 0);
    RowsFromWellFormed(FiveMinutes, ps);
  }

  lemma PlusWednesdayRows0To1()
    ensures RowOk(FiveMinutes, PlusSchedules.Wednesday.periods, 0) && RowOk(FiveMinutes, PlusSchedules.Wednesday.periods, 1)
  {
    TwoDigitLabel(14);
    TwoDigitLabel(36);
    TwoDigitLabel(41);
    TwoDigitLabel(82);
  }

  lemma PlusWednesdayRows2To3()
    ensures RowOk(FiveMinutes, PlusSchedules.Wednesday.periods, 2) && RowOk(FiveMinutes, PlusSchedules.Wednesday.periods, 3)
  {
    TwoDigitLabel(14);
    TwoDigitLabel(36);
    TwoDigitLabel(41);
    TwoDigitLabel(82);
  }

  lemma PlusWednesdayRows4To5()
    ensures RowOk(FiveMinutes, PlusSchedules.Wednesday.periods, 4) && RowOk(FiveMinutes, PlusSchedules.Wednesday.periods, 5)
  {
    TwoDigitLabel(14);
    TwoDigitLabel(36);
    TwoDigitLabel(41);
    TwoDigitLabel(82);
  }

  lemma PlusWednesdayRows6To7()
    ensures RowOk(FiveMinutes, PlusSchedules.Wednesday.periods, 6) && RowOk(FiveMinutes, PlusSchedules.Wednesday.periods, 7)
  {
    TwoDigitLabel(14);
    TwoDigitLabel(36);
    TwoDigitLabel(41);
    TwoDigitLabel(82);
  }

  /** Every row of the table is in order, labelled by its length, and rings
      the bell by the table's rule. */
  lemma PlusWednesdayRows()
    ensures WellFormed(FiveMinutes, PlusSchedules.Wednesday.periods)
  {
    var ps := PlusSchedules.Wednesday.periods;
    PlusWednesdayRows0To1();
    PlusWednesdayRows2To3();
    PlusWednesdayRows4To5();
    PlusWednesdayRows6To7();
    assert RowsFrom(FiveMinutes, ps, 8);
    assert RowsFrom(FiveMinutes, ps, 7);
    assert RowsFrom(FiveMinutes, ps, 6);
    assert RowsFrom(FiveMinutes, ps, 5);
    assert RowsFrom(FiveMinutes, ps, 4);
    assert RowsFrom(FiveMinutes, ps, 3);
    assert RowsFrom(FiveMinutes, ps, 2);
    assert RowsFrom(FiveMinutes, ps, 1);
    assert RowsFrom(FiveMinutes, ps, 0);
    RowsFromWellFormed(FiveMinutes, ps);
  }

  lemma PlusThursdayRows0To1()
    ensures RowOk(FiveMinutes, PlusSchedules.Thursday.periods, 0) && RowOk(FiveMinutes, PlusSchedules.Thursday.periods, 1)
  {
    TwoDigitLabel(14);
    TwoDigitLabel(36);
    TwoDigitLabel(82);
    OneDigitLabel(6);
  }

  lemma PlusThursdayRows2To3()
    ensures RowOk(FiveMinutes, PlusSchedules.Thursday.periods, 2) && RowOk(FiveMinutes, PlusSchedules.Thursday.periods, 3)
  {
    TwoDigitLabel(14);
    TwoDigitLabel(36);
    TwoDigitLabel(82);
    OneDigitLabel(6);
  }

  lemma PlusThursdayRows4To5()
    ensures RowOk(FiveMinutes, PlusSchedules.Thursday.periods, 4) && RowOk(FiveMinutes, PlusSchedules.Thursday.periods, 5)
  {
    TwoDigitLabel(14);
    TwoDigitLabel(36);
    TwoDigitLabel(82);
    OneDigitLabel(6);
  }

  lemma PlusThursdayRows6To7()
    ensures RowOk(FiveMinutes, PlusSchedules.Thursday.periods, 6) && RowOk(FiveMinutes, PlusSchedules.Thursday.periods, 7)
  {
    TwoDigitLabel(14);
    TwoDigitLabel(36);
    TwoDigitLabel(82);
    OneDigitLabel(6);
  }

  lemma PlusThursdayRows8To8()
    ensures RowOk(FiveMinutes, PlusSchedules.Thursday.periods, 8)
  {
    TwoDigitLabel(14);
    TwoDigitLabel(36);
    TwoDigitLabel(82);
    OneDigitLabel(6);
  }

  /** Every row of the table is in order, labelled by its length, and rings
      the bell by the table's rule. */
  lemma PlusThursdayRows()
    ensures WellFormed(FiveMinutes, PlusSchedules.Thursday.periods)
  {
    var ps := PlusSchedules.Thursday.periods;
    PlusThursdayRows0To1();
    PlusThursdayRows2To3();
    PlusThursdayRows4To5();
    PlusThursdayRows6To7();
    PlusThursdayRows8To8();
    assert RowsFrom(FiveMinutes, ps, 9);
    assert RowsFrom(FiveMinutes, ps, 8);
    assert RowsFrom(FiveMinutes, ps, 7);
    assert RowsFrom(FiveMinutes, ps, 6);
    assert RowsFrom(FiveMinutes, ps, 5);
    assert RowsFrom(FiveMinutes, ps, 4);
    assert RowsFrom(FiveMinutes, ps, 3);
    assert RowsFrom(FiveMinutes, ps, 2);
    assert RowsFrom(FiveMinutes, ps, 1);
    assert RowsFrom(FiveMinutes, ps, 0);
    RowsFromWellFormed(FiveMinutes, ps);
  }

  lemma PlusFridayRows0To1()
    ensures RowOk(FiveMinutes, PlusSchedules.Friday.periods, 0) && RowOk(FiveMinutes, PlusSchedules.Friday.periods, 1)
  {
    TwoDigitLabel(14);
    TwoDigitLabel(28);
    TwoDigitLabel(36);
    TwoDigitLabel(42);
  }

  lemma PlusFridayRows2To3()
    ensures RowOk(FiveMinutes, PlusSchedules.Friday.periods, 2) && RowOk(FiveMinutes, PlusSchedules.Friday.periods, 3)
  {
    TwoDigitLabel(14);
    TwoDigitLabel(28);
    TwoDigitLabel(36);
    TwoDigitLabel(42);
  }

  lemma PlusFridayRows4To5()
    ensures RowOk(FiveMinutes, PlusSchedules.Friday.periods, 4) && RowOk(FiveMinutes, PlusSchedules.Friday.periods, 5)
  {
    TwoDigitLabel(14);
    TwoDigitLabel(28);
    TwoDigitLabel(36);
    TwoDigitLabel(42);
  }

  lemma PlusFridayRows6To7()
    ensures RowOk(FiveMinutes, PlusSchedules.Friday.periods, 6) && RowOk(FiveMinutes, PlusSchedules.Friday.periods, 7)
  {
    TwoDigitLabel(14);
    TwoDigitLabel(28);
    TwoDigitLabel(36);
    TwoDigitLabel(42);
  }

  lemma PlusFridayRows8To9()
    ensures RowOk(FiveMinutes, PlusSchedules.Friday.periods, 8) && RowOk(FiveMinutes, PlusSchedules.Friday.periods, 9)
  {
    TwoDigitLabel(14);
    TwoDigitLabel(28);
    TwoDigitLabel(36);
    TwoDigitLabel(42);
  }

  lemma PlusFridayRows10To11()
    ensures RowOk(FiveMinutes, PlusSchedules.Friday.periods, 10) && RowOk(FiveMinutes, PlusSchedules.Friday.periods, 11)
  {
    TwoDigitLabel(14);
    TwoDigitLabel(28);
    TwoDigitLabel(36);
    TwoDigitLabel(42);
  }

  /** Every row of the table is in order, labelled by its length, and rings
      the bell by the table's rule. */
  lemma PlusFridayRows()
    ensures WellFormed(FiveMinutes, PlusSchedules.Friday.periods)
  {
    var ps := PlusSchedules.Friday.periods;
    PlusFridayRows0To1();
    PlusFridayRows2To3();
    PlusFridayRows4To5();
    PlusFridayRows6To7();
    PlusFridayRows8To9();
    PlusFridayRows10To11();
    assert RowsFrom(FiveMinutes, ps, 12);
    assert RowsFrom(FiveMinutes, ps, 11);
    assert RowsFrom(FiveMinutes, ps, 10);
    assert RowsFrom(FiveMinutes, ps, 9);
    assert RowsFrom(FiveMinutes, ps, 8);
    assert RowsFrom(FiveMinutes, ps, 7);
    assert RowsFrom(FiveMinutes, ps, 6);
    assert RowsFrom(FiveMinutes, ps, 5);
    assert RowsFrom(FiveMinutes, ps, 4);
    assert RowsFrom(FiveMinutes, ps, 3);
    assert RowsFrom(FiveMinutes, ps, 2);
    assert RowsFrom(FiveMinutes, ps, 1);
    assert RowsFrom(FiveMinutes, ps, 0);
    RowsFromWellFormed(FiveMinutes, ps);
  }

  lemma PlusSaturdayRows0To0()
    ensures RowOk(FiveMinutes, PlusSchedules.Saturday.periods, 0)
  {
  }

  /** Every row of the table is in order, labelled by its length, and rings
      the bell by the table's rule. */
  lemma PlusSaturdayRows()
    ensures WellFormed(FiveMinutes, PlusSchedules.Saturday.periods)
  {
    var ps := PlusSchedules.Saturday.periods;
    PlusSaturdayRows0To0();
    assert RowsFrom(FiveMinutes, ps, 1);
    assert RowsFrom(FiveMinutes, ps, 0);
    RowsFromWellFormed(FiveMinutes, ps);
  }

  lemma PlusSundayRows0To0()
    ensures RowOk(FiveMinutes, PlusSchedules.Sunday.periods, 0)
  {
  }

  /** Every row of the table is in order, labelled by its length, and rings
      the bell by the table's rule. */
  lemma PlusSundayRows()
    ensures WellFormed(FiveMinutes, PlusSchedules.Sunday.periods)
  {
    var ps := PlusSchedules.Sunday.periods;
    PlusSundayRows0To0();
    assert RowsFrom(FiveMinutes, ps, 1);
    assert RowsFrom(FiveMinutes, ps, 0);
    RowsFromWellFormed(FiveMinutes, ps);
  }

  lemma PlusMinimumDayRows0To1()
    ensures RowOk(FiveMinutes, PlusSchedules.MinimumDay.periods, 0) && RowOk(FiveMinutes, PlusSchedules.MinimumDay.periods, 1)
  {
    TwoDigitLabel(12);
    TwoDigitLabel(30);
  }

  lemma PlusMinimumDayRows2To3()
    ensures RowOk(FiveMinutes, PlusSchedules.MinimumDay.periods, 2) && RowOk(FiveMinutes, PlusSchedules.MinimumDay.periods, 3)
  {
    TwoDigitLabel(12);
    TwoDigitLabel(30);
  }

  lemma PlusMinimumDayRows4To5()
    ensures RowOk(FiveMinutes, PlusSchedules.MinimumDay.periods, 4) && RowOk(FiveMinutes, PlusSchedules.MinimumDay.periods, 5)
  {
    TwoDigitLabel(12);
    TwoDigitLabel(30);
  }

  lemma PlusMinimumDayRows6To7()
    ensures RowOk(FiveMinutes, PlusSchedules.MinimumDay.periods, 6) && RowOk(FiveMinutes, PlusSchedules.MinimumDay.periods, 7)
  {
    TwoDigitLabel(12);
    TwoDigitLabel(30);
  }

  lemma PlusMinimumDayRows8To9()
    ensures RowOk(FiveMinutes, PlusSchedules.MinimumDay.periods, 8) && RowOk(FiveMinutes, PlusSchedules.MinimumDay.periods, 9)
  {
    TwoDigitLabel(12);
    TwoDigitLabel(30);
  }

  /** Every row of the table is in order, labelled by its length, and rings
      the bell by the table's rule. */
  lemma PlusMinimumDayRows()
    ensures WellFormed(FiveMinutes, PlusSchedules.MinimumDay.periods)
  {
    var ps := PlusSchedules.MinimumDay.periods;
    PlusMinimumDayRows0To1();
    PlusMinimumDayRows2To3();
    PlusMinimumDayRows4To5();
    PlusMinimumDayRows6To7();
    PlusMinimumDayRows8To9();
    assert RowsFrom(FiveMinutes, ps, 10);
    assert RowsFrom(FiveMinutes, ps, 9);
    assert RowsFrom(FiveMinutes, ps, 8);
    assert RowsFrom(FiveMinutes, ps, 7);
    assert RowsFrom(FiveMinutes, ps, 6);
    assert RowsFrom(FiveMinutes, ps, 5);
    assert RowsFrom(FiveMinutes, ps, 4);
    assert RowsFrom(FiveMinutes, ps, 3);
    assert RowsFrom(FiveMinutes, ps, 2);
    assert RowsFrom(FiveMinutes, ps, 1);
    assert RowsFrom(FiveMinutes, ps, 0);
    RowsFromWellFormed(FiveMinutes, ps);
  }

  lemma PlusAssemblyRows0To1()
    ensures RowOk(FiveMinutes, PlusSchedules.Assembly.periods, 0) && RowOk(FiveMinutes, PlusSchedules.Assembly.periods, 1)
  {
    TwoDigitLabel(14);
    TwoDigitLabel(37);
    TwoDigitLabel(40);
    TwoDigitLabel(41);
  }

  lemma PlusAssemblyRows2To3()
    ensures RowOk(FiveMinutes, PlusSchedules.Assembly.periods, 2) && RowOk(FiveMinutes, PlusSchedules.Assembly.periods, 3)
  {
    TwoDigitLabel(14);
    TwoDigitLabel(37);
    TwoDigitLabel(40);
    TwoDigitLabel(41);
  }

  lemma PlusAssemblyRows4To5()
    ensures RowOk(FiveMinutes, PlusSchedules.Assembly.periods, 4) && RowOk(FiveMinutes, PlusSchedules.Assembly.periods, 5)
  {
    TwoDigitLabel(14);
    TwoDigitLabel(37);
    TwoDigitLabel(40);
    TwoDigitLabel(41);
  }

  lemma PlusAssemblyRows6To7()
    ensures RowOk(FiveMinutes, PlusSchedules.Assembly.periods, 6) && RowOk(FiveMinutes, PlusSchedules.Assembly.periods, 7)
  {
    TwoDigitLabel(14);
    TwoDigitLabel(37);
    TwoDigitLabel(40);
    TwoDigitLabel(41);
  }

  lemma PlusAssemblyRows8To9()
    ensures RowOk(FiveMinutes, PlusSchedules.Assembly.periods, 8) && RowOk(FiveMinutes, PlusSchedules.Assembly.periods, 9)
  {
    TwoDigitLabel(14);
    TwoDigitLabel(37);
    TwoDigitLabel(40);
    TwoDigitLabel(41);
  }

  lemma PlusAssemblyRows10To11()
    ensures RowOk(FiveMinutes, PlusSchedules.Assembly.periods, 10) && RowOk(FiveMinutes, PlusSchedules.Assembly.periods, 11)
  {
    TwoDigitLabel(14);
    TwoDigitLabel(37);
    TwoDigitLabel(40);
    TwoDigitLabel(41);
  }

  /** Every row of the table is in order, labelled by its length, and rings
      the bell by the table's rule. */
  lemma PlusAssemblyRows()
    ensures WellFormed(FiveMinutes, PlusSchedules.Assembly.periods)
  {
    var ps := PlusSchedules.Assembly.periods;
    PlusAssemblyRows0To1();
    PlusAssemblyRows2To3();
    PlusAssemblyRows4To5();
    PlusAssemblyRows6To7();
    PlusAssemblyRows8To9();
    PlusAssemblyRows10To11();
    assert RowsFrom(FiveMinutes, ps, 12);
    assert RowsFrom(FiveMinutes, ps, 11);
    assert RowsFrom(FiveMinutes, ps, 10);
    assert RowsFrom(FiveMinutes, ps, 9);
    assert RowsFrom(FiveMinutes, ps, 8);
    assert RowsFrom(FiveMinutes, ps, 7);
    assert RowsFrom(FiveMinutes, ps, 6);
    assert RowsFrom(FiveMinutes, ps, 5);
    assert RowsFrom(FiveMinutes, ps, 4);
    assert RowsFrom(FiveMinutes, ps, 3);
    assert RowsFrom(FiveMinutes, ps, 2);
    assert RowsFrom(FiveMinutes, ps, 1);
    assert RowsFrom(FiveMinutes, ps, 0);
    RowsFromWellFormed(FiveMinutes, ps);
  }

  /** Every schedule of the main timer is well formed, and so its starts
      strictly increase. */
  lemma MainTablesWellFormed(name: string)
    requires name in Table
    ensures WellFormed(NoLength, Table[name].periods)
    ensures TimerMain.StartsAscending(Table[name].periods)
  {
    if name == "monday" {
      MainMondayRows();
      assert Table[name] == Monday;
    } else if name == "tuesday" {
      MainTuesdayRows();
      assert Table[name] == Tuesday;
    } else if name == "wednesday" {
      MainWednesdayRows();
      assert Table[name] == Wednesday;
    } else if name == "thursday" {
      MainThursdayRows();
      assert Table[name] == Thursday;
    } else if name == "friday" {
      MainFridayRows();
      assert Table[name] == Friday;
    } else if name == "saturday" {
      MainSaturdayRows();
      assert Table[name] == Saturday;
    } else if name == "sunday" {
      MainSundayRows();
      assert Table[name] == Sunday;
    } else if name == "minimumDay" {
      MainMinimumDayRows();
      assert Table[name] == MinimumDay;
    } else if name == "assembly" {
      MainAssemblyRows();
      assert Table[name] == Assembly;
    }
    WellFormedAscending(NoLength, Table[name].periods);
  }

  /** Every schedule of the bell-plus timer is well formed, and so its starts
      strictly increase. */
  lemma PlusTablesWellFormed(name: string)
    requires name in PlusSchedules.Table
    ensures WellFormed(FiveMinutes, PlusSchedules.Table[name].periods)
    ensures TimerMain.StartsAscending(PlusSchedules.Table[name].periods)
  {
    if name == "monday" {
      PlusMondayRows();
      assert PlusSchedules.Table[name] == PlusSchedules.Monday;
    } else if name == "tuesday" {
      PlusTuesdayRows();
      assert PlusSchedules.Table[name] == PlusSchedules.Tuesday;
    } else if name == "wednesday" {
      PlusWednesdayRows();
      assert PlusSchedules.Table[name] == PlusSchedules.Wednesday;
    } else if name == "thursday" {
      PlusThursdayRows();
      assert PlusSchedules.Table[name] == PlusSchedules.Thursday;
    } else if name == "friday" {
      PlusFridayRows();
      assert PlusSchedules.Table[name] == PlusSchedules.Friday;
    } else if name == "saturday" {
      PlusSaturdayRows();
      assert PlusSchedules.Table[name] == PlusSchedules.Saturday;
    } else if name == "sunday" {
      PlusSundayRows();
      assert PlusSchedules.Table[name] == PlusSchedules.Sunday;
    } else if name == "minimumDay" {
      PlusMinimumDayRows();
      assert PlusSchedules.Table[name] == PlusSchedules.MinimumDay;
    } else if name == "assembly" {
      PlusAssemblyRows();
      assert PlusSchedules.Table[name] == PlusSchedules.Assembly;
    }
    WellFormedAscending(FiveMinutes, PlusSchedules.Table[name].periods);
  }

  /** Whatever the day, the schedule the main timer picks is well formed,
      so the schedule list's row states agree with its period search. */
  lemma MainDayScheduleWellFormed(day: int)
    ensures WellFormed(NoLength, GetCurrentDaySchedule(day).periods)
    ensures ScheduleView.Ascending(GetCurrentDaySchedule(day).periods)
  {
    var s := GetCurrentDaySchedule(day);
    MainTablesWellFormed(s.name);
    ScheduleView.AscendingAsTimer(s.periods);
  }

  /** Whatever the day, the schedule the bell-plus timer picks is well
      formed. */
  lemma PlusDayScheduleWellFormed(day: int)
    ensures WellFormed(FiveMinutes, PlusSchedules.GetCurrentDaySchedule(day).periods)
    ensures TimerMain.StartsAscending(PlusSchedules.GetCurrentDaySchedule(day).periods)
  {
    PlusTablesWellFormed(PlusSchedules.GetCurrentDaySchedule(day).name);
  }
  /** Every start time from row `i` on is a bare time, with nothing after
      the minute digits. */
  predicate BareFrom(ps: seq<Period>, i: nat)
    decreases |ps| - i
  {
    i >= |ps| || (ps[i].startTime.suffix == "" && BareFrom(ps, i + 1))
  }

  lemma {:induction false} BareFromEach(ps: seq<Period>, i: nat, k: int)
    requires BareFrom(ps, i) && i <= k < |ps|
    ensures ps[k].startTime.suffix == ""
    decreases k - i
  {
    if i < k {
      BareFromEach(ps, i + 1, k);
    }
  }

  /** Every bell-plus table writes its start times bare. */
  lemma PlusTablesBare(name: string)
    requires name in PlusSchedules.Table
    ensures BareFrom(PlusSchedules.Table[name].periods, 0)
  {
  }

  /** On a bare time the uploaded timer's reading is the main timer's. */
  lemma BareReadingsAgree(t: ClockText)
    requires t.suffix == ""
    ensures TimerLatest.ParseTimeString(t) == TimerMain.ParseTimeString(t)
  {
    assert Lower(t.suffix) == "";
    assert !Contains("", "pm") && !Contains("", "am");
  }

  /** Every bell-plus table has strictly increasing starts under the
      uploaded timer's reading, in milliseconds and in the minutes its
      schedule list compares, so the uploaded timer's and list's slot
      lemmas apply to the real tables. */
  lemma PlusTablesAscendForLatest(name: string)
    requires name in PlusSchedules.Table
    ensures TimerLatest.StartsAscending(PlusSchedules.Table[name].periods)
    ensures ScheduleViewLatest.Ascending(ScheduleViewLatest.AsTimer, PlusSchedules.Table[name].periods)
  {
    var ps := PlusSchedules.Table[name].periods;
    PlusTablesWellFormed(name);
    PlusTablesBare(name);
    forall i | 0 <= i < |ps|
      ensures TimerLatest.StartOf(ps[i]) == TimerMain.StartOf(ps[i])
    {
      BareFromEach(ps, 0, i);
      BareReadingsAgree(ps[i].startTime);
    }
    forall j, k | 0 <= j < k < |ps|
      ensures ScheduleViewLatest.StartMinutes(ScheduleViewLatest.AsTimer, ps[j]) <
              ScheduleViewLatest.StartMinutes(ScheduleViewLatest.AsTimer, ps[k])
    {
      var a := ScheduleViewLatest.StartMinutes(ScheduleViewLatest.AsTimer, ps[j]);
      var b := ScheduleViewLatest.StartMinutes(ScheduleViewLatest.AsTimer, ps[k]);
      assert a * MinuteMs < b * MinuteMs;
    }
  }

  /** Whatever the day, the schedule the bell-plus timer picks meets the
      uploaded timer's and list's ascending requirement. */
  lemma PlusDayScheduleAscendsForLatest(day: int)
    ensures TimerLatest.StartsAscending(PlusSchedules.GetCurrentDaySchedule(day).periods)
    ensures ScheduleViewLatest.Ascending(ScheduleViewLatest.AsTimer, PlusSchedules.GetCurrentDaySchedule(day).periods)
  {
    PlusTablesAscendForLatest(PlusSchedules.GetCurrentDaySchedule(day).name);
  }
}
