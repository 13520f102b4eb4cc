/**
 * The in-game calendar and the day clock: a validated date that rolls over at
 * month and year ends, a clock that advances the date, the weekday and a
 * bounded game-day counter, and a registry of weakly held day observers.
 */
module TimeSystem {
  import opened Wrappers

  // Valid ranges of the date components and of the game-day counter.
  const MinDataDay := 1
  const MaxDataDay := 31
  const MinDataMonth := 1
  const MaxDataMonth := 12
  const MinDataYear := 1939
  const MaxDataYear := 1946
  const MinGameDay := 1
  const MaxGameDay := 1826

  /** The `std::range_error`s raised by the calendar and the clock, one per message. */
  datatype RangeError =
    | YearOutOfRange
    | MonthOutOfRange
    | DayOutOfRange
    | DayTooBigForMonth
    | DayTooBigForMonthInYear
    | DateOutOfRange
    | GameDaysExceeded

  // ---------------------------------------------------------------------------
  // Weekdays
  // ---------------------------------------------------------------------------

  /** The seven weekdays, in enumerator order: MONDAY is 0 and SUNDAY is 6. */
  datatype DayOfWeek = Monday | Tuesday | Wednesday | Thursday | Friday | Saturday | Sunday
  {
    /** The underlying value of the enumerator. */
    function Index(): (i: nat)
      ensures i < 7
    {
      match this
      case Monday => 0
      case Tuesday => 1
      case Wednesday => 2
      case Thursday => 3
      case Friday => 4
      case Saturday => 5
      case Sunday => 6
    }
  }

  /** `static_cast<DayOfWeek>(i)`: the weekday whose value is `i`. */
  function DayOfWeekAt(i: nat): (w: DayOfWeek)
    requires i < 7
    ensures w.Index() == i
  {
    if i == 0 then Monday
    else if i == 1 then Tuesday
    else if i == 2 then Wednesday
    else if i == 3 then Thursday
    else if i == 4 then Friday
    else if i == 5 then Saturday
    else Sunday
  }

  /** Every weekday is recovered from its value, so the seven values are distinct. */
  lemma DayOfWeekRoundTrip(w: DayOfWeek)
    ensures DayOfWeekAt(w.Index()) == w
  {
  }

  /** The weekday after `w`, Sunday wrapping round to Monday. */
  function NextWeekday(w: DayOfWeek): DayOfWeek
  {
    match w
    case Monday => Tuesday
    case Tuesday => Wednesday
    case Wednesday => Thursday
    case Thursday => Friday
    case Friday => Saturday
    case Saturday => Sunday
    case Sunday => Monday
  }

  /** The rotation is the enumerator's value plus one, modulo 7. */
  lemma NextWeekdayIsRotation(w: DayOfWeek)
    ensures NextWeekday(w) == DayOfWeekAt((w.Index() + 1) % 7)
  {
    ModSevenBelowFourteen(w.Index() + 1);
  }

  /** The weekday reached after `k` successive rotations from `w`. */
  function WeekdayAfter(w: DayOfWeek, k: nat): DayOfWeek
  {
    if k == 0 then w else NextWeekday(WeekdayAfter(w, k - 1))
  }

  /** A weekday whose value is `a` modulo 7 is followed by the one whose value is `b = a + 1` modulo 7. */
  lemma NextWeekdayIndex(v: DayOfWeek, a: nat, b: nat)
    requires v.Index() == a % 7 && b == a + 1
    ensures NextWeekday(v).Index() == b % 7
  {
    NextWeekdayIsRotation(v);
    ModSevenSucc(a);
  }

  /** After `k` rotations the weekday value has advanced by `k` modulo 7. */
  lemma {:induction false} WeekdayAfterIndex(w: DayOfWeek, k: nat)
    ensures WeekdayAfter(w, k).Index() == (w.Index() + k) % 7
  {
    if k == 0 {
      ModSevenBelowFourteen(w.Index() + k);
    } else {
      WeekdayAfterIndex(w, k - 1);
      NextWeekdayIndex(WeekdayAfter(w, k - 1), w.Index() + (k - 1), w.Index() + k);
    }
  }

  /** Taking the successor commutes with reduction modulo 7. */
  lemma ModSevenSucc(a: nat)
    ensures (a % 7 + 1) % 7 == (a + 1) % 7
  {
    var q, b := a / 7, a % 7;
    assert a == 7 * q + b;
    if b == 6 {
      assert a + 1 == 7 * (q + 1);
    } else {
      assert a + 1 == 7 * q + (b + 1);
    }
  }

  /** Below fourteen, reduction modulo 7 subtracts seven at most once. */
  lemma ModSevenBelowFourteen(s: nat)
    requires s < 14
    ensures s % 7 == if s < 7 then s else s - 7
  {
  }

  /** The rotation is a full cycle: it returns to the start after seven steps and not before. */
  lemma WeekdayCycle(w: DayOfWeek)
    ensures WeekdayAfter(w, 7) == w
    ensures forall k :: 0 < k < 7 ==> WeekdayAfter(w, k) != w
  {
    WeekdayReturnsAt(w, 7);
    forall k | 0 < k < 7
      ensures WeekdayAfter(w, k) != w
    {
      WeekdayReturnsAt(w, k);
    }
  }

  /** Within one week of rotations, the start weekday comes back exactly at the seventh. */
  lemma WeekdayReturnsAt(w: DayOfWeek, k: nat)
    requires 0 < k <= 7
    ensures WeekdayAfter(w, k) == w <==> k == 7
  {
    var v, i := WeekdayAfter(w, k), w.Index();
    WeekdayAfterIndex(w, k);
    ModSevenBelowFourteen(i + k);
    if k == 7 {
      DayOfWeekRoundTrip(v);
      DayOfWeekRoundTrip(w);
    }
  }

  // ---------------------------------------------------------------------------
  // Dates
  // ---------------------------------------------------------------------------

  /** The fixed leap rule: every fourth year, with no century correction. */
  predicate IsLeap(year: int)
  {
    year % 4 == 0
  }

  /** The length of a month; 0 for a month number outside 1..12. */
  function DaysInMonth(month: int, year: int): (r: nat)
    ensures r == 0 <==> !(MinDataMonth <= month <= MaxDataMonth)
    ensures r != 0 ==> 28 <= r <= MaxDataDay
    ensures 0 < r < 30 <==> month == 2
    ensures month == 2 ==> (r == 29 <==> IsLeap(year))
    ensures r == 30 <==> month == 4 || month == 6 || month == 9 || month == 11
  {
    match month
    case 1 => 31
    case 2 => if IsLeap(year) then 29 else 28
    case 3 => 31
    case 4 => 30
    case 5 => 31
    case 6 => 30
    case 7 => 31
    case 8 => 31
    case 9 => 30
    case 10 => 31
    case 11 => 30
    case 12 => 31
    case _ => 0
  }

  /** A day/month/year triple, not necessarily valid. */
  datatype Date = Date(day: int, month: int, year: int)

  /** A date inside the game's historical range whose day exists in its month. */
  predicate ValidDate(d: Date)
  {
    && MinDataYear <= d.year <= MaxDataYear
    && MinDataMonth <= d.month <= MaxDataMonth
    && MinDataDay <= d.day <= DaysInMonth(d.month, d.year)
  }

  /**
   * The checks of the validating constructor, in the order it makes them:
   * the year first, then the month, then the day against the month length.
   */
  function CheckDate(day: int, month: int, year: int): (r: Outcome<RangeError>)
    ensures r.Pass? <==> ValidDate(Date(day, month, year))
    ensures r == Fail(YearOutOfRange) <==> !(MinDataYear <= year <= MaxDataYear)
    ensures r == Fail(MonthOutOfRange) <==>
      MinDataYear <= year <= MaxDataYear && !(MinDataMonth <= month <= MaxDataMonth)
  {
    if year < MinDataYear || year > MaxDataYear then Fail(YearOutOfRange)
    else if month < MinDataMonth || month > MaxDataMonth then Fail(MonthOutOfRange)
    else if day < MinDataDay || day > DaysInMonth(month, year) then Fail(DayOutOfRange)
    else Pass
  }

  /**
   * The date `DateModel::nextDay` leaves behind, whether or not it then raises:
   * the day is incremented, and on overflow the month, and on overflow the year.
   */
  function NextDate(d: Date): Date
  {
    if d.day + 1 > DaysInMonth(d.month, d.year) then
      if d.month + 1 > MaxDataMonth then Date(MinDataDay, MinDataMonth, d.year + 1)
      else Date(MinDataDay, d.month + 1, d.year)
    else
      d.(day := d.day + 1)
  }

  /** `DateModel::nextDay` raises exactly when the year it rolled over to is past the range. */
  predicate LeavesRange(d: Date)
  {
    d.day + 1 > DaysInMonth(d.month, d.year) && d.month + 1 > MaxDataMonth && d.year + 1 > MaxDataYear
  }

  /** How `NextDate` acts on a valid date: below month end, at month end, and at 31 December. */
  lemma NextDateCases(d: Date)
    requires ValidDate(d)
    ensures d.day < DaysInMonth(d.month, d.year) ==> NextDate(d) == Date(d.day + 1, d.month, d.year)
    ensures d.day == DaysInMonth(d.month, d.year) && d.month < 12 ==> NextDate(d) == Date(1, d.month + 1, d.year)
    ensures d.day == 31 && d.month == 12 ==> NextDate(d) == Date(1, 1, d.year + 1)
  {
  }

  /**
   * From a valid date the advance raises only on the last day of the range, and
   * from every other valid date it yields a valid date.
   */
  lemma NextDateStaysValid(d: Date)
    requires ValidDate(d)
    ensures LeavesRange(d) <==> d == Date(31, 12, MaxDataYear)
    ensures !LeavesRange(d) ==> ValidDate(NextDate(d))
  {
  }

  /** The number of days in a year under the fixed leap rule. */
  function YearLength(year: int): nat
  {
    if IsLeap(year) then 366 else 365
  }

  /** Days from 1 January of the first year of the range to 1 January of `year`. */
  function DaysBeforeYear(year: int): nat
    decreases year - MinDataYear
  {
    if year <= MinDataYear then 0 else DaysBeforeYear(year - 1) + YearLength(year - 1)
  }

  /** Days in the months of `year` that precede `month`. */
  function DaysBeforeMonth(month: int, year: int): nat
    decreases month
  {
    if month <= 1 then 0 else DaysBeforeMonth(month - 1, year) + DaysInMonth(month - 1, year)
  }

  /** The ordinal of a date: how many days after 1 January 1939 it is. */
  function DayNumber(d: Date): int
  {
    DaysBeforeYear(d.year) + DaysBeforeMonth(d.month, d.year) + d.day - 1
  }

  /** The years before the next one are those before this one and this one. */
  lemma DaysBeforeNextYear(year: int)
    requires year >= MinDataYear
    ensures DaysBeforeYear(year + 1) == DaysBeforeYear(year) + YearLength(year)
  {
  }

  /** The months before the next one are those before this one and this one. */
  lemma DaysBeforeNextMonth(month: int, year: int)
    requires month >= 1
    ensures DaysBeforeMonth(month + 1, year) == DaysBeforeMonth(month, year) + DaysInMonth(month, year)
  {
  }

  /** The twelve month lengths add up to the length of the year. */
  lemma MonthLengthsSumToYear(year: int)
    ensures DaysBeforeMonth(13, year) == YearLength(year)
  {
    var feb := DaysInMonth(2, year);
    assert DaysBeforeMonth(2, year) == 31;
    assert DaysBeforeMonth(3, year) == 31 + feb;
    assert DaysBeforeMonth(4, year) == 62 + feb;
    assert DaysBeforeMonth(5, year) == 92 + feb;
    assert DaysBeforeMonth(6, year) == 123 + feb;
    assert DaysBeforeMonth(7, year) == 153 + feb;
    assert DaysBeforeMonth(8, year) == 184 + feb;
    assert DaysBeforeMonth(9, year) == 215 + feb;
    assert DaysBeforeMonth(10, year) == 245 + feb;
    assert DaysBeforeMonth(11, year) == 276 + feb;
    assert DaysBeforeMonth(12, year) == 306 + feb;
    assert DaysBeforeMonth(13, year) == 337 + feb;
  }

  /** `NextDate` is "one day later": on a valid date it advances the ordinal by exactly one. */
  lemma NextDateCountsOneDay(d: Date)
    requires ValidDate(d)
    ensures DayNumber(NextDate(d)) == DayNumber(d) + 1
  {
    var (day, month, year) := (d.day, d.month, d.year);
    if day + 1 <= DaysInMonth(month, year) {
      assert NextDate(d) == Date(day + 1, month, year);
    } else if month + 1 <= MaxDataMonth {
      assert NextDate(d) == Date(1, month + 1, year);
      assert day == DaysInMonth(month, year);
      DaysBeforeNextMonth(month, year);
    } else {
      assert NextDate(d) == Date(1, 1, year + 1);
      DaysBeforeNextYear(year);
      MonthLengthsSumToYear(year);
      DaysBeforeNextMonth(12, year);
    }
  }

  /** The last valid date of the range is day number 2921. */
  lemma LastDayNumber()
    ensures DayNumber(Date(31, 12, MaxDataYear)) == 2921
  {
    assert DaysBeforeYear(1940) == 365;
    assert DaysBeforeYear(1941) == 731;
    assert DaysBeforeYear(1942) == 1096;
    assert DaysBeforeYear(1943) == 1461;
    assert DaysBeforeYear(1944) == 1826;
    assert DaysBeforeYear(1945) == 2192;
    assert DaysBeforeYear(1946) == 2557;
    MonthLengthsSumToYear(MaxDataYear);
  }

  /** A date numbered below 2921 is not the last day of the range. */
  lemma BeforeLastDay(d: Date)
    requires DayNumber(d) < 2921
    ensures d != Date(31, 12, MaxDataYear)
  {
    LastDayNumber();
  }

  /** The date reached from `d` after `k` successive advances. */
  function DateAfter(d: Date, k: nat): Date
  {
    if k == 0 then d else NextDate(DateAfter(d, k - 1))
  }

  /** Advancing from the first of a month as many times as the month has days reaches the next first. */
  lemma {:induction false} WholeMonth(month: int, year: int)
    requires ValidDate(Date(1, month, year))
    ensures DateAfter(Date(1, month, year), DaysInMonth(month, year)) ==
      if month == 12 then Date(1, 1, year + 1) else Date(1, month + 1, year)
  {
    var n := DaysInMonth(month, year);
    var k := 1;
    while k < n
      invariant 1 <= k <= n
      invariant DateAfter(Date(1, month, year), k - 1) == Date(k, month, year)
    {
      k := k + 1;
    }
  }

  // ---------------------------------------------------------------------------
  // The calendar object
  // ---------------------------------------------------------------------------

  /** A weakly held observer registration; each handle object is a distinct identity. */
  class DayObserverHandle {
    constructor()
    {
    }
  }

  /** A mutable date whose setters re-validate. */
  class DateModel {
    var day: nat
    var month: nat
    var year: nat

    /** The date the object holds. */
    function Value(): Date
      reads this
    {
      Date(day, month, year)
    }

    /** The default constructor: 1 January 1939. */
    constructor Default()
      ensures Value() == Date(MinDataDay, MinDataMonth, MinDataYear)
    {
      day, month, year := MinDataDay, MinDataMonth, MinDataYear;
    }

    /**
     * The validating constructor: it raises unless the triple is a valid date,
     * and the object exists only once every check has passed.
     */
    static method New(d: nat, m: nat, y: nat) returns (r: Result<DateModel, RangeError>)
      ensures r.Success? <==> CheckDate(d, m, y) == Pass
      ensures r.Failure? ==> Fail(r.error) == CheckDate(d, m, y)
      ensures r.Success? ==> fresh(r.value) && r.value.Value() == Date(d, m, y)
    {
      var check := CheckDate(d, m, y);
      if check.Fail? {
        return Failure(check.error);
      }
      var model := new DateModel.Default();
      model.year, model.month, model.day := y, m, d;
      return Success(model);
    }

    /** Sets the day if it exists in the current month; otherwise raises and changes nothing. */
    method SetDay(a: nat) returns (r: Outcome<RangeError>)
      modifies this
      ensures r.Pass? <==> MinDataDay <= a <= DaysInMonth(old(month), old(year))
      ensures r.Pass? ==> Value() == old(Value()).(day := a)
      ensures r.Fail? ==> r.error == DayOutOfRange && Value() == old(Value())
      ensures old(ValidDate(Value())) && r.Pass? ==> ValidDate(Value())
    {
      if a < MinDataDay || a > DaysInMonth(month, year) {
        return Fail(DayOutOfRange);
      }
      day := a;
      return Pass;
    }

    /** Sets the month if it is in range and the current day fits in it; otherwise raises and changes nothing. */
    method SetMonth(a: nat) returns (r: Outcome<RangeError>)
      modifies this
      ensures r.Pass? <==> MinDataMonth <= a <= MaxDataMonth && old(day) <= DaysInMonth(a, old(year))
      ensures r.Pass? ==> Value() == old(Value()).(month := a)
      ensures r.Fail? ==> Value() == old(Value())
      ensures r.Fail? ==> r.error == if MinDataMonth <= a <= MaxDataMonth then DayTooBigForMonth else MonthOutOfRange
      ensures old(ValidDate(Value())) && r.Pass? ==> ValidDate(Value())
    {
      if a < MinDataMonth || a > MaxDataMonth {
        return Fail(MonthOutOfRange);
      }
      if day > DaysInMonth(a, year) {
        return Fail(DayTooBigForMonth);
      }
      month := a;
      return Pass;
    }

    /** Sets the year if it is in range and the current day fits in the month that year; otherwise raises and changes nothing. */
    method SetYear(a: nat) returns (r: Outcome<RangeError>)
      modifies this
      ensures r.Pass? <==> MinDataYear <= a <= MaxDataYear && old(day) <= DaysInMonth(old(month), a)
      ensures r.Pass? ==> Value() == old(Value()).(year := a)
      ensures r.Fail? ==> Value() == old(Value())
      ensures r.Fail? ==> r.error == if MinDataYear <= a <= MaxDataYear then DayTooBigForMonthInYear else YearOutOfRange
      ensures old(ValidDate(Value())) && r.Pass? ==> ValidDate(Value())
    {
      if a < MinDataYear || a > MaxDataYear {
        return Fail(YearOutOfRange);
      }
      if day > DaysInMonth(month, a) {
        return Fail(DayTooBigForMonthInYear);
      }
      year := a;
      return Pass;
    }

    /**
     * Advances by one day. It is not atomic: when it raises, the fields already
     * hold 1 January of the year after the range.
     */
    method NextDay() returns (r: Outcome<RangeError>)
      modifies this
      ensures Value() == NextDate(old(Value()))
      ensures r == if LeavesRange(old(Value())) then Fail(DateOutOfRange) else Pass
    {
      day := day + 1;
      if day > DaysInMonth(month, year) {
        day := MinDataDay;
        month := month + 1;
        if month > MaxDataMonth {
          month := MinDataMonth;
          year := year + 1;
          if year > MaxDataYear {
            return Fail(DateOutOfRange);
          }
        }
      }
      return Pass;
    }
  }

  // ---------------------------------------------------------------------------
  // The clock
  // ---------------------------------------------------------------------------

  /** The observable state of the clock. */
  datatype ClockState = ClockState(date: Date, gameDay: int, weekday: DayOfWeek)

  /** The clock at construction: 1 January 1939, game day 1, a Thursday. */
  function InitialClock(): ClockState
  {
    ClockState(Date(MinDataDay, MinDataMonth, MinDataYear), MinGameDay, Thursday)
  }

  /**
   * One `TimeDataModel::nextDay`: the date is advanced (and a date error is
   * raised before anything else changes), then the weekday and the game day;
   * exceeding the game-day bound raises after both increments.
   */
  function Step(s: ClockState): (ClockState, Outcome<RangeError>)
  {
    var date := NextDate(s.date);
    if LeavesRange(s.date) then
      (s.(date := date), Fail(DateOutOfRange))
    else
      var t := ClockState(date, s.gameDay + 1, NextWeekday(s.weekday));
      if t.gameDay > MaxGameDay then (t, Fail(GameDaysExceeded)) else (t, Pass)
  }

  /** Up to `n` successive steps, stopping at (and reporting) the first one that raises. */
  function Advance(s: ClockState, n: nat): (ClockState, Outcome<RangeError>)
  {
    if n == 0 then (s, Pass)
    else
      var (t, o) := Advance(s, n - 1);
      if o.Fail? then (t, o) else Step(t)
  }

  /** A successful step is one day later on every counter. */
  lemma StepAdvancesEverything(s: ClockState)
    requires Step(s).1 == Pass
    requires ValidDate(s.date)
    ensures ValidDate(Step(s).0.date)
    ensures DayNumber(Step(s).0.date) == DayNumber(s.date) + 1
    ensures Step(s).0.gameDay == s.gameDay + 1 <= MaxGameDay
    ensures Step(s).0.weekday == NextWeekday(s.weekday)
  {
    NextDateStaysValid(s.date);
    NextDateCountsOneDay(s.date);
  }

  /** From a valid date before the last one and a game day under the bound, a step succeeds. */
  lemma StepWithinRange(s: ClockState)
    requires ValidDate(s.date) && DayNumber(s.date) < 2921 && s.gameDay < MaxGameDay
    ensures Step(s).1 == Pass
    ensures ValidDate(Step(s).0.date)
    ensures DayNumber(Step(s).0.date) == DayNumber(s.date) + 1
    ensures Step(s).0.gameDay == s.gameDay + 1
  {
    BeforeLastDay(s.date);
    NextDateStaysValid(s.date);
    StepAdvancesEverything(s);
  }

  /** Passing steps rotate the weekday once each. */
  lemma {:induction false} AdvanceRotatesWeekday(s: ClockState, k: nat)
    requires Advance(s, k).1 == Pass
    ensures Advance(s, k).0.weekday == WeekdayAfter(s.weekday, k)
  {
    if k > 0 {
      var p := Advance(s, k - 1);
      assert p.1 == Pass;
      AdvanceRotatesWeekday(s, k - 1);
      assert Advance(s, k) == Step(p.0);
      StepRotatesWeekday(p.0);
    }
  }

  /** A passing step rotates the weekday once. */
  lemma StepRotatesWeekday(t: ClockState)
    requires Step(t).1 == Pass
    ensures Step(t).0.weekday == NextWeekday(t.weekday)
  {
  }

  /** From the initial clock, the first `k <= 1825` steps all succeed and count `k` days. */
  lemma {:induction false} AdvanceDatesFromStart(k: nat)
    requires k <= MaxGameDay - MinGameDay
    ensures Advance(InitialClock(), k).1 == Pass
    ensures ValidDate(Advance(InitialClock(), k).0.date)
    ensures DayNumber(Advance(InitialClock(), k).0.date) == k
    ensures Advance(InitialClock(), k).0.gameDay == MinGameDay + k
  {
    if k > 0 {
      AdvanceDatesFromStart(k - 1);
      StepWithinRange(Advance(InitialClock(), k - 1).0);
    }
  }

  /** From the initial clock, the first `k <= 1825` steps all succeed, count `k` days and rotate the weekday `k` times. */
  lemma AdvanceFromStart(k: nat)
    requires k <= MaxGameDay - MinGameDay
    ensures Advance(InitialClock(), k).1 == Pass
    ensures ValidDate(Advance(InitialClock(), k).0.date)
    ensures DayNumber(Advance(InitialClock(), k).0.date) == k
    ensures Advance(InitialClock(), k).0.gameDay == MinGameDay + k
    ensures Advance(InitialClock(), k).0.weekday == WeekdayAfter(Thursday, k)
  {
    AdvanceDatesFromStart(k);
    AdvanceRotatesWeekday(InitialClock(), k);
  }

  /**
   * From the initial clock, 1825 calls succeed and the 1826th raises the
   * game-day error, after incrementing the counter to 1827.
   */
  lemma MaxGameDayThrows()
    ensures Advance(InitialClock(), MaxGameDay - 1).1 == Pass
    ensures Advance(InitialClock(), MaxGameDay - 1).0.gameDay == MaxGameDay
    ensures Step(Advance(InitialClock(), MaxGameDay - 1).0).1 == Fail(GameDaysExceeded)
    ensures Step(Advance(InitialClock(), MaxGameDay - 1).0).0.gameDay == MaxGameDay + 1
  {
    AdvanceFromStart(MaxGameDay - 1);
    var s := Advance(InitialClock(), MaxGameDay - 1).0;
    LastDayNumber();
    NextDateStaysValid(s.date);
  }

  /** Once the game day has reached the bound, every further call raises and the counter stays past it. */
  lemma PastTheBoundAlwaysRaises(s: ClockState)
    requires s.gameDay >= MaxGameDay
    ensures Step(s).1.Fail?
    ensures Step(s).0.gameDay >= MaxGameDay
  {
  }

  // ---------------------------------------------------------------------------
  // The observer registry
  // ---------------------------------------------------------------------------

  /** The registrations whose observers are still alive, in registration order. */
  function Live(s: seq<DayObserverHandle>, alive: set<DayObserverHandle>): seq<DayObserverHandle>
  {
    if s == [] then []
    else Live(s[..|s| - 1], alive) + (if s[|s| - 1] in alive then [s[|s| - 1]] else [])
  }

  /** Pruning distributes over concatenation, so survivors keep their relative order. */
  lemma {:induction false} LiveAppend(a: seq<DayObserverHandle>, b: seq<DayObserverHandle>, alive: set<DayObserverHandle>)
    ensures Live(a + b, alive) == Live(a, alive) + Live(b, alive)
    decreases |b|
  {
    if b == [] {
      assert a + b == a;
    } else {
      var n := |b| - 1;
      assert (a + b)[..|a + b| - 1] == a + b[..n];
      assert (a + b)[|a + b| - 1] == b[n];
      LiveAppend(a, b[..n], alive);
    }
  }

  /** Each live observer is kept as many times as it was registered, each dead one not at all. */
  lemma {:induction false} LiveCounts(s: seq<DayObserverHandle>, alive: set<DayObserverHandle>, h: DayObserverHandle)
    ensures multiset(Live(s, alive))[h] == if h in alive then multiset(s)[h] else 0
  {
    if s != [] {
      var n := |s| - 1;
      var init, last := s[..n], s[n];
      LiveCounts(init, alive, h);
      assert s == init + [last];
      assert multiset(s) == multiset(init) + multiset{last};
      var kept := if last in alive then [last] else [];
      assert Live(s, alive) == Live(init, alive) + kept;
      assert multiset(Live(s, alive)) == multiset(Live(init, alive)) + multiset(kept);
    }
  }

  /** Pruning twice with the same survivors removes nothing more. */
  lemma {:induction false} LiveIdempotent(s: seq<DayObserverHandle>, alive: set<DayObserverHandle>)
    ensures Live(Live(s, alive), alive) == Live(s, alive)
  {
    if s != [] {
      var n := |s| - 1;
      LiveIdempotent(s[..n], alive);
      var tail := if s[n] in alive then [s[n]] else [];
      LiveAppend(Live(s[..n], alive), tail, alive);
      if s[n] in alive {
        assert Live(tail, alive) == Live([], alive) + [s[n]] by {
          assert tail[..0] == [];
        }
      }
    }
  }

  /** The simulated clock: current date, game day, weekday and the day-observer registry. */
  class TimeDataModel {
    const currentDate: DateModel
    var currentGameDay: nat
    var currentDayOfWeek: DayOfWeek
    var dayObservers: seq<DayObserverHandle>

    /** The observable clock state. */
    function State(): ClockState
      reads this, currentDate
    {
      ClockState(currentDate.Value(), currentGameDay, currentDayOfWeek)
    }

    /** A clock at 1 January 1939, game day 1, Thursday, with no observers. */
    constructor()
      ensures State() == InitialClock()
      ensures dayObservers == []
      ensures fresh(currentDate)
    {
      currentDate := new DateModel.Default();
      currentGameDay := MinGameDay;
      currentDayOfWeek := Thursday;
      dayObservers := [];
    }

    /** Registers a weak handle at the end of the registry; the handle's liveness stays with its owner. */
    method AddDayObserver(h: DayObserverHandle)
      modifies this
      ensures dayObservers == old(dayObservers) + [h]
      ensures State() == old(State())
    {
      dayObservers := dayObservers + [h];
    }

    /**
     * One pass over the registry: every live observer is notified once, in
     * registration order, and dead ones are erased; the survivors keep their order.
     * The notifications are returned as the list of handles called.
     */
    method NotifyDayObservers(alive: set<DayObserverHandle>) returns (notified: seq<DayObserverHandle>)
      modifies this
      ensures notified == Live(old(dayObservers), alive)
      ensures dayObservers == notified
      ensures State() == old(State())
    {
      ghost var original := dayObservers;
      ghost var k := 0;
      notified := [];
      var i := 0;
      while i < |dayObservers|
        invariant 0 <= i <= |dayObservers|
        invariant 0 <= k <= |original|
        invariant dayObservers[..i] == notified == Live(original[..k], alive)
        invariant dayObservers[i..] == original[k..]
        invariant State() == old(State())
        decreases |dayObservers| - i
      {
        assert original[..k + 1][..k] == original[..k];
        assert dayObservers[i] == original[k];
        if dayObservers[i] in alive {
          notified := notified + [dayObservers[i]];
          i := i + 1;
        } else {
          dayObservers := dayObservers[..i] + dayObservers[i + 1..];
        }
        k := k + 1;
      }
      assert original[..k] == original;
    }

    /**
     * Advances the date, the weekday and the game day; raises on a date past
     * the range or a game day past the bound, and otherwise notifies observers.
     */
    method NextDay(alive: set<DayObserverHandle>) returns (r: Outcome<RangeError>, notified: seq<DayObserverHandle>)
      modifies this, currentDate
      ensures (State(), r) == Step(old(State()))
      ensures r.Pass? ==> notified == Live(old(dayObservers), alive) && dayObservers == notified
      ensures r.Fail? ==> notified == [] && dayObservers == old(dayObservers)
    {
      notified := [];
      r := currentDate.NextDay();
      if r.Fail? {
        return;
      }
      NextWeekdayIsRotation(currentDayOfWeek);
      currentDayOfWeek := DayOfWeekAt((currentDayOfWeek.Index() + 1) % 7);
      currentGameDay := currentGameDay + 1;
      if currentGameDay > MaxGameDay {
        return Fail(GameDaysExceeded), [];
      }
      notified := NotifyDayObservers(alive);
    }

    /** The clock stands `i` passing steps after `start`. */
    ghost predicate AfterDays(start: ClockState, i: nat)
      reads this, currentDate
    {
      (State(), Pass) == Advance(start, i)
    }

    /** `i` rounds of notification have run, each reaching the observers of `registered` still alive. */
    ghost predicate Rounds(rounds: seq<seq<DayObserverHandle>>, i: nat, registered: seq<DayObserverHandle>, alive: set<DayObserverHandle>)
      reads this
    {
      && |rounds| == i
      && (forall j :: 0 <= j < i ==> rounds[j] == Live(registered, alive))
      && dayObservers == if i == 0 then registered else Live(registered, alive)
    }

    /** Ten successive `NextDay` calls; the first one that raises ends the sequence. */
    method NextTeenDays(alive: set<DayObserverHandle>) returns (r: Outcome<RangeError>, rounds: seq<seq<DayObserverHandle>>)
      modifies this, currentDate
      ensures (State(), r) == Advance(old(State()), 10)
      ensures r.Pass? <==> |rounds| == 10
      ensures |rounds| <= 10
      ensures forall j :: 0 <= j < |rounds| ==> rounds[j] == Live(old(dayObservers), alive)
      ensures dayObservers == if rounds == [] then old(dayObservers) else Live(old(dayObservers), alive)
    {
      ghost var start := State();
      ghost var registered := dayObservers;
      rounds := [];
      r := Pass;
      var i := 0;
      while i < 10
        invariant 0 <= i <= 10
        invariant r == Pass && AfterDays(start, i)
        invariant Rounds(rounds, i, registered, alive)
      {
        var notified;
        r, notified := NextDay(alive);
        if r.Fail? {
          AdvanceAfterFailure(start, i + 1, 10);
          return;
        }
        LiveIdempotent(registered, alive);
        rounds := rounds + [notified];
        i := i + 1;
      }
    }
  }

  /** After passing steps, one more call is one more step. */
  lemma AdvanceOneMore(s: ClockState, n: nat)
    requires Advance(s, n).1 == Pass
    ensures Advance(s, n + 1) == Step(Advance(s, n).0)
  {
  }

  /** Once a step has raised, further steps are not taken. */
  lemma {:induction false} AdvanceAfterFailure(s: ClockState, m: nat, n: nat)
    requires m <= n
    requires Advance(s, m).1.Fail?
    ensures Advance(s, n) == Advance(s, m)
    decreases n - m
  {
    if m < n {
      AdvanceAfterFailure(s, m, n - 1);
    }
  }
}
