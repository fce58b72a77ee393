/**
 * Advancing a game calendar by hours: the month-walking loops of both games, against a closed-form
 * day number. Time of day and day counters are reals; years are 32-bit integers.
 */
module Calendar {
  import opened Wrappers

  const MIN_INT32 := -0x8000_0000
  const MAX_INT32 := 0x7FFF_FFFF
  const MAX_ADVANCE_HOURS := 100000.0
  const MONTH_LENGTHS := [31, 28, 31, 30, 31, 30, 31, 31, 30, 31, 30, 31]

  // What distinguishes the games: the number of the first month, the least year, the length of a day.
  datatype Rules = Rules(firstMonth: int, minYear: int, hoursPerDay: real)

  const FALLOUT4 := Rules(1, 0, 24.0)

  // Skyrim reads the length of a day from the game.
  function Skyrim(hoursPerDay: real): Rules { Rules(0, MIN_INT32, hoursPerDay) }

  datatype State = State(year: int, month: int, day: int, hour: real, daysPassed: real, rawDaysPassed: real)

  datatype Advance = Advance(state: State, dayDelta: int)

  datatype Refusal =
    | InvalidHours
    | InvalidHoursPerDay
    | InvalidHour
    | InvalidDate
    | InvalidYear
    | DayDeltaOutOfRange
    | YearOverflow
    | YearUnderflow

  function DaysInMonth(r: Rules, month: int): (days: int)
    ensures days == 0 || 28 <= days <= 31
    ensures days != 0 <==> 0 <= month - r.firstMonth < 12
  {
    if 0 <= month - r.firstMonth < |MONTH_LENGTHS| then MONTH_LENGTHS[month - r.firstMonth] else 0
  }

  predicate ValidDate(r: Rules, s: State) { 1 <= s.day <= DaysInMonth(r, s.month) }

  predicate FitsInt32(n: int) { MIN_INT32 <= n <= MAX_INT32 }

  // ----- The closed form -----

  function DaysBefore(monthIndex: nat): (days: nat)
    requires monthIndex <= 12
  {
    if monthIndex == 0 then 0 else DaysBefore(monthIndex - 1) + MONTH_LENGTHS[monthIndex - 1]
  }

  function DayNumber(r: Rules, s: State): int
    requires ValidDate(r, s)
  {
    365 * s.year + DaysBefore(s.month - r.firstMonth) + s.day
  }

  lemma {:induction false} MonthsAddUp(i: nat, j: nat)
    requires i < j <= 12
    ensures DaysBefore(i) + MONTH_LENGTHS[i] <= DaysBefore(j)
    decreases j
  {
    if i + 1 < j { MonthsAddUp(i, j - 1); }
  }

  lemma YearHas365Days()
    ensures DaysBefore(12) == 365
  {
    assert DaysBefore(2) == 59;
    assert DaysBefore(4) == 120;
    assert DaysBefore(6) == 181;
    assert DaysBefore(8) == 243;
    assert DaysBefore(10) == 304;
  }

  // The day after the last of a month is the first of the next.
  lemma MonthEnd(r: Rules, s: State, next: State)
    requires ValidDate(r, s) && next.day == 1
    requires if s.month - r.firstMonth == 11 then next.month == r.firstMonth && next.year == s.year + 1
             else next.month == s.month + 1 && next.year == s.year
    ensures ValidDate(r, next) && DayNumber(r, next) == DayNumber(r, s) - s.day + DaysInMonth(r, s.month) + 1
  {
    YearHas365Days();
  }

  // A day of the year lies between 1 and 365.
  lemma DayOfYear(r: Rules, s: State)
    requires ValidDate(r, s)
    ensures 365 * s.year < DayNumber(r, s) <= 365 * s.year + 365
  {
    MonthsAddUp(s.month - r.firstMonth, 12);
    YearHas365Days();
  }

  /** A date is determined by its day number. */
  lemma DateOfDayNumber(r: Rules, s: State, t: State)
    requires ValidDate(r, s) && ValidDate(r, t) && DayNumber(r, s) == DayNumber(r, t)
    ensures s.year == t.year && s.month == t.month && s.day == t.day
  {
    DayOfYear(r, s);
    DayOfYear(r, t);
    var i, j := s.month - r.firstMonth, t.month - r.firstMonth;
    if i < j {
      MonthsAddUp(i, j);
    } else if j < i {
      MonthsAddUp(j, i);
    }
  }

  // A number of hours, in days of the given length; and a number of whole days, in hours.
  function InDays(hours: real, unit: real): real
    requires unit > 0.0
  {
    hours / unit
  }

  function InHours(days: int, unit: real): real { days as real * unit }

  function DayDelta(r: Rules, s: State, hours: real): int
    requires r.hoursPerDay > 0.0
  {
    InDays(s.hour + hours, r.hoursPerDay).Floor
  }

  // Which complaint, if any, comes first.
  function FirstRefusal(r: Rules, s: State, hours: real): Option<Refusal> {
    if hours == 0.0 || hours < -MAX_ADVANCE_HOURS || hours > MAX_ADVANCE_HOURS then Some(InvalidHours)
    else if r.hoursPerDay <= 0.0 then Some(InvalidHoursPerDay)
    else if s.hour < 0.0 || s.hour > r.hoursPerDay then Some(InvalidHour)
    else if !ValidDate(r, s) then Some(InvalidDate)
    else if s.year < r.minYear then Some(InvalidYear)
    else
      var delta := DayDelta(r, s, hours);
      if !FitsInt32(delta) then Some(DayDeltaOutOfRange)
      else if DayNumber(r, s) + delta > 365 * MAX_INT32 + 365 then Some(YearOverflow)
      else if DayNumber(r, s) + delta < 365 * r.minYear + 1 then Some(YearUnderflow)
      else None
  }

  ghost predicate Moves(r: Rules, s: State, hours: real, a: Advance)
    requires FirstRefusal(r, s, hours).None?
  {
    && a.dayDelta == DayDelta(r, s, hours)
    && ValidDate(r, a.state) && DayNumber(r, a.state) == DayNumber(r, s) + a.dayDelta
    && a.state.hour == s.hour + hours - InHours(a.dayDelta, r.hoursPerDay)
    && a.state.daysPassed == s.daysPassed + InDays(hours, r.hoursPerDay)
    && a.state.rawDaysPassed == a.state.daysPassed - InDays(a.state.hour, r.hoursPerDay)
  }

  // What an advance must answer.
  ghost predicate Answers(r: Rules, s: State, hours: real, result: Result<Advance, Refusal>) {
    match FirstRefusal(r, s, hours)
    case Some(refusal) => result == Failure(refusal)
    case None => result.Success? && Moves(r, s, hours, result.value)
  }

  // ----- The walk -----

  predicate Plausible(r: Rules, s: State) {
    ValidDate(r, s) && r.minYear <= s.year <= MAX_INT32
  }

  // Moving within a month moves the day number as much.
  lemma WithinMonth(r: Rules, s: State, day: int)
    requires ValidDate(r, s) && 1 <= day <= DaysInMonth(r, s.month)
    ensures DayNumber(r, s.(day := day)) == DayNumber(r, s) - s.day + day
  {}

  method WalkForward(r: Rules, start: State, days: int) returns (result: Result<State, Refusal>)
    requires Plausible(r, start) && days > 0
    ensures DayNumber(r, start) + days > 365 * MAX_INT32 + 365 ==> result == Failure(YearOverflow)
    ensures DayNumber(r, start) + days <= 365 * MAX_INT32 + 365 ==>
              && result.Success? && Plausible(r, result.value)
              && DayNumber(r, result.value) == DayNumber(r, start) + days
  {
    hide DayNumber, DaysBefore;
    var year, month, day := start.year, start.month, start.day;
    var remaining := days;
    while remaining > 0
      invariant remaining >= 0 && Plausible(r, start.(year := year, month := month, day := day))
      invariant DayNumber(r, start.(year := year, month := month, day := day)) + remaining == DayNumber(r, start) + days
    {
      ghost var now := start.(year := year, month := month, day := day);
      var daysRemainingInMonth := DaysInMonth(r, month) - day;
      if remaining <= daysRemainingInMonth {
        WithinMonth(r, now, day + remaining);
        day := day + remaining;
        remaining := 0;
      } else {
        remaining := remaining - (daysRemainingInMonth + 1);
        day := 1;
        month := month + 1;
        if month == r.firstMonth + 12 {
          month := r.firstMonth;
          if year == MAX_INT32 {
            ghost var never := now.(year := year + 1, month := month, day := day);
            MonthEnd(r, now, never);
            DayOfYear(r, never);
            return Failure(YearOverflow);
          }
          year := year + 1;
        }
        MonthEnd(r, now, now.(year := year, month := month, day := day));
      }
    }
    DayOfYear(r, start.(year := year, month := month, day := day));
    return Success(start.(year := year, month := month, day := day));
  }

  method WalkBackward(r: Rules, start: State, days: int) returns (result: Result<State, Refusal>)
    requires Plausible(r, start) && days > 0
    ensures DayNumber(r, start) - days < 365 * r.minYear + 1 ==> result == Failure(YearUnderflow)
    ensures DayNumber(r, start) - days >= 365 * r.minYear + 1 ==>
              && result.Success? && Plausible(r, result.value)
              && DayNumber(r, result.value) == DayNumber(r, start) - days
  {
    hide DayNumber, DaysBefore;
    var year, month, day := start.year, start.month, start.day;
    var remaining := days;
    while remaining > 0
      invariant remaining >= 0 && Plausible(r, start.(year := year, month := month, day := day))
      invariant DayNumber(r, start.(year := year, month := month, day := day)) - remaining == DayNumber(r, start) - days
    {
      ghost var now := start.(year := year, month := month, day := day);
      var daysBefore := day - 1;
      WithinMonth(r, now, 1);
      if remaining <= daysBefore {
        WithinMonth(r, now, day - remaining);
        day := day - remaining;
        remaining := 0;
      } else {
        remaining := remaining - (daysBefore + 1);
        month := month - 1;
        if month < r.firstMonth {
          month := r.firstMonth + 11;
          if year == r.minYear {
            ghost var never := now.(year := year - 1, month := month, day := 31);
            MonthEnd(r, never, now.(day := 1));
            DayOfYear(r, never);
            return Failure(YearUnderflow);
          }
          year := year - 1;
        }
        day := DaysInMonth(r, month);
        MonthEnd(r, now.(year := year, month := month, day := day), now.(day := 1));
      }
    }
    DayOfYear(r, start.(year := year, month := month, day := day));
    return Success(start.(year := year, month := month, day := day));
  }

  /** The date moves by exactly the whole days in hour + hours, in the closed form; the advance fails
      with a year error exactly when that day lies outside the representable years. */
  method AdvanceCalendar(r: Rules, s: State, hours: real) returns (result: Result<Advance, Refusal>)
    requires FitsInt32(s.year) && FitsInt32(r.minYear)
    ensures Answers(r, s, hours, result)
  {
    hide InDays, InHours, DaysBefore;
    if hours == 0.0 || hours < -MAX_ADVANCE_HOURS || hours > MAX_ADVANCE_HOURS { return Failure(InvalidHours); }
    if r.hoursPerDay <= 0.0 { return Failure(InvalidHoursPerDay); }
    if s.hour < 0.0 || s.hour > r.hoursPerDay { return Failure(InvalidHour); }
    var daysInCurrentMonth := DaysInMonth(r, s.month);
    if daysInCurrentMonth == 0 || s.day < 1 || s.day > daysInCurrentMonth { return Failure(InvalidDate); }
    if s.year < r.minYear { return Failure(InvalidYear); }
    var totalHours := s.hour + hours;
    var dayDelta := InDays(totalHours, r.hoursPerDay).Floor;
    if dayDelta < MIN_INT32 || dayDelta > MAX_INT32 { return Failure(DayDeltaOutOfRange); }
    var newHour := totalHours - InHours(dayDelta, r.hoursPerDay);
    var moved := s;
    DayOfYear(r, s);
    if dayDelta > 0 {
      var walked := WalkForward(r, s, dayDelta);
      if walked.Failure? { return Failure(walked.error); }
      moved := walked.value;
      DayOfYear(r, moved);
    } else if dayDelta < 0 {
      var walked := WalkBackward(r, s, -dayDelta);
      if walked.Failure? { return Failure(walked.error); }
      moved := walked.value;
      DayOfYear(r, moved);
    }
    var daysPassed := s.daysPassed + InDays(hours, r.hoursPerDay);
    var rawDaysPassed := daysPassed - InDays(newHour, r.hoursPerDay);
    return Success(Advance(moved.(hour := newHour, daysPassed := daysPassed, rawDaysPassed := rawDaysPassed),
                           dayDelta));
  }

  // ----- Whole days and what is left -----

  // Products with the unit are named, so that the facts about them are linear.
  lemma Scale(p: real, q: real, unit: real, pUnits: real, qUnits: real)
    requires unit > 0.0 && p * unit == pUnits && q * unit == qUnits
    ensures p < q <==> pUnits < qUnits
  {
    if p < q {
      assert (q - p) * unit > 0.0;
    } else if q < p {
      assert (p - q) * unit > 0.0;
    }
  }

  lemma OneMore(p: real, unit: real, pUnits: real)
    requires p * unit == pUnits
    ensures (p + 1.0) * unit == pUnits + unit
  {}

  lemma Multiple(x: real, unit: real)
    requires unit > 0.0
    ensures x / unit * unit == x
  {}

  lemma WholePart(q: real, low: real, x: real, span: real, unit: real)
    requires unit > 0.0 && q * unit == x && low * unit == span
    ensures low <= q < low + 1.0 <==> 0.0 <= x - span < unit
  {
    Scale(q, low, unit, x, span);
    OneMore(low, unit, span);
    Scale(q, low + 1.0, unit, x, span + unit);
  }

  lemma FloorBounds(q: real, n: int)
    ensures q.Floor == n <==> n as real <= q < n as real + 1.0
  {}

  // The whole number of units in x, and only that, leaves a rest in [0, unit).
  lemma WholeUnits(x: real, unit: real, n: int)
    requires unit > 0.0
    ensures InDays(x, unit).Floor == n <==> 0.0 <= x - InHours(n, unit) < unit
  {
    Multiple(x, unit);
    FloorBounds(InDays(x, unit), n);
    WholePart(InDays(x, unit), n as real, x, InHours(n, unit), unit);
  }

  lemma Distribute(x: real, y: real, unit: real)
    ensures x * unit + y * unit == (x + y) * unit
  {}

  lemma HoursAdd(m: int, n: int, unit: real)
    ensures InHours(m, unit) + InHours(n, unit) == InHours(m + n, unit)
  {
    Distribute(m as real, n as real, unit);
    assert (m + n) as real == m as real + n as real;
  }

  lemma DaysAdd(x: real, y: real, unit: real)
    requires unit > 0.0
    ensures InDays(x, unit) + InDays(y, unit) == InDays(x + y, unit)
  {}

  lemma ZeroUnits(unit: real)
    requires unit > 0.0
    ensures InDays(0.0, unit) == 0.0 && InHours(0, unit) == 0.0
  {}

  // Both counters agree on the moment.
  predicate Consistent(r: Rules, s: State)
    requires r.hoursPerDay > 0.0
  {
    s.rawDaysPassed + InDays(s.hour, r.hoursPerDay) == s.daysPassed
  }

  /** A successful advance leaves an hour inside the day, a date in the representable years, and the
      relation rawDaysPassed + hour / hoursPerDay == daysPassed, whatever it was before. */
  lemma AdvanceIsConsistent(r: Rules, s: State, hours: real, a: Advance)
    requires FirstRefusal(r, s, hours).None? && Moves(r, s, hours, a)
    ensures 0.0 <= a.state.hour < r.hoursPerDay && Consistent(r, a.state)
    ensures Plausible(r, a.state)
  {
    WholeUnits(s.hour + hours, r.hoursPerDay, a.dayDelta);
    DayOfYear(r, a.state);
  }

  /** An advance has only one answer. */
  lemma AnswerIsUnique(r: Rules, s: State, hours: real, one: Result<Advance, Refusal>, other: Result<Advance, Refusal>)
    requires Answers(r, s, hours, one) && Answers(r, s, hours, other)
    ensures one == other
  {
    if one.Success? && other.Success? {
      DateOfDayNumber(r, one.value.state, other.value.state);
    }
  }

  // Two advances in a row add up their hours and their days.
  lemma DeltasAdd(r: Rules, s: State, h1: real, a: Advance, h2: real)
    requires FirstRefusal(r, s, h1).None? && Moves(r, s, h1, a)
    ensures DayDelta(r, s, h1 + h2) == a.dayDelta + DayDelta(r, a.state, h2)
  {
    hide InDays, InHours, DayNumber;
    var d := DayDelta(r, a.state, h2);
    WholeUnits(a.state.hour + h2, r.hoursPerDay, d);
    HoursAdd(a.dayDelta, d, r.hoursPerDay);
    WholeUnits(s.hour + (h1 + h2), r.hoursPerDay, a.dayDelta + d);
    assert s.hour + h1 + h2 == s.hour + (h1 + h2);
  }

  /** Advancing by h1 and then by h2 is advancing by h1 + h2, exactly when that sum is itself a
      permitted number of hours and days. */
  lemma AdvancesCompose(r: Rules, s: State, h1: real, h2: real, a: Advance, b: Advance, both: Result<Advance, Refusal>)
    requires Answers(r, s, h1, Success(a)) && Answers(r, a.state, h2, Success(b)) && Answers(r, s, h1 + h2, both)
    ensures both == Success(Advance(b.state, a.dayDelta + b.dayDelta)) <==>
              h1 + h2 != 0.0 && -MAX_ADVANCE_HOURS <= h1 + h2 <= MAX_ADVANCE_HOURS && FitsInt32(a.dayDelta + b.dayDelta)
  {
    hide InDays, InHours, DaysBefore;
    DeltasAdd(r, s, h1, a, h2);
    DayOfYear(r, b.state);
    AdvanceIsConsistent(r, a.state, h2, b);
    DaysAdd(h1, h2, r.hoursPerDay);
    HoursAdd(a.dayDelta, b.dayDelta, r.hoursPerDay);
    var sum := Advance(b.state, a.dayDelta + b.dayDelta);
    if FirstRefusal(r, s, h1 + h2).None? {
      assert Moves(r, s, h1 + h2, sum);
      AnswerIsUnique(r, s, h1 + h2, both, Success(sum));
    }
  }

  /** Advancing back by the same hours restores the calendar exactly when the hour lay inside the day,
      the two counters agreed, and the day delta can be negated in 32 bits. */
  lemma AdvanceUndone(r: Rules, s: State, hours: real, a: Advance, back: Result<Advance, Refusal>)
    requires FitsInt32(s.year) && Answers(r, s, hours, Success(a)) && Answers(r, a.state, -hours, back)
    ensures back == Success(Advance(s, -a.dayDelta)) <==>
              s.hour < r.hoursPerDay && Consistent(r, s) && FitsInt32(-a.dayDelta)
  {
    ZeroUnits(r.hoursPerDay);
    hide InDays, InHours, DaysBefore;
    DeltasAdd(r, s, hours, a, -hours);
    AdvanceIsConsistent(r, s, hours, a);
    DayOfYear(r, s);
    WholeUnits(s.hour, r.hoursPerDay, 0);
    DaysAdd(hours, -hours, r.hoursPerDay);
    HoursAdd(a.dayDelta, -a.dayDelta, r.hoursPerDay);
    if s.hour < r.hoursPerDay && FitsInt32(-a.dayDelta) {
      var home := Advance(s.(rawDaysPassed := s.daysPassed - s.hour / r.hoursPerDay), -a.dayDelta);
      assert Moves(r, a.state, -hours, home);
      AnswerIsUnique(r, a.state, -hours, back, Success(home));
    } else if back.Success? {
      AdvanceIsConsistent(r, a.state, -hours, back.value);
    }
  }

  // The last hour of a day, written as hour 24, and the same moment written as hour 0 of the next.
  const AT_DAY_END := State(287, 10, 23, 24.0, 1.0, 0.0)
  const AT_DAY_START := State(287, 10, 24, 0.0, 1.0, 1.0)

  /** At hour 24, which the check of the hour lets pass, going one hour on and back does not restore
      the calendar: it comes back as hour 0 of the next day. */
  lemma DayEndIsNotRestored()
    ensures var there := AT_DAY_END.(day := 24, hour := 1.0, daysPassed := 1.0 + 1.0 / 24.0, rawDaysPassed := 1.0);
      && Consistent(FALLOUT4, AT_DAY_END)
      && Answers(FALLOUT4, AT_DAY_END, 1.0, Success(Advance(there, 1)))
      && Answers(FALLOUT4, there, -1.0, Success(Advance(AT_DAY_START, 0)))
      && AT_DAY_START != AT_DAY_END
  {
    var there := AT_DAY_END.(day := 24, hour := 1.0, daysPassed := 1.0 + 1.0 / 24.0, rawDaysPassed := 1.0);
    DayOfYear(FALLOUT4, AT_DAY_END);
    DayOfYear(FALLOUT4, there);
    WholeUnits(25.0, 24.0, 1);
    WholeUnits(0.0, 24.0, 0);
  }

  /** In the 24-hour calendar the day delta always fits, so a permitted advance of a valid calendar is
      refused only for leaving the representable years. */
  lemma Fallout4RefusesOnlyYears(s: State, hours: real)
    requires ValidDate(FALLOUT4, s) && s.year >= 0 && 0.0 <= s.hour <= 24.0
    requires hours != 0.0 && -MAX_ADVANCE_HOURS <= hours <= MAX_ADVANCE_HOURS
    ensures -4167 <= DayDelta(FALLOUT4, s, hours) <= 4167
    ensures FirstRefusal(FALLOUT4, s, hours) in {None, Some(YearOverflow), Some(YearUnderflow)}
  {}

  // ----- The year the Fallout 4 interface shows -----

  // Decimal digits, most significant first.
  function Digits(n: nat): (digits: seq<nat>)
    ensures |digits| > 0
  {
    if n < 10 then [n] else Digits(n / 10) + [n % 10]
  }

  function Power10(k: nat): (p: nat)
    ensures p > 0
  {
    if k == 0 then 1 else 10 * Power10(k - 1)
  }

  lemma {:induction false} DigitCount(n: nat)
    ensures n < Power10(|Digits(n)|)
    ensures n >= 10 ==> Power10(|Digits(n)| - 1) <= n
  {
    if n >= 10 {
      DigitCount(n / 10);
      if n / 10 < 10 {
        assert Power10(1) == 10;
      }
    }
  }

  lemma {:induction false} PrefixTwo(n: nat)
    ensures Digits(2 * Power10(|Digits(n)|) + n) == [2] + Digits(n)
  {
    var p := Power10(|Digits(n)|);
    if n < 10 {
      assert Power10(1) == 10;
      assert Digits(2) == [2] && (20 + n) / 10 == 2;
    } else {
      PrefixTwo(n / 10);
      var rest := Power10(|Digits(n / 10)|);
      assert |Digits(n)| == |Digits(n / 10)| + 1;
      assert Power10(|Digits(n / 10)| + 1) == 10 * rest;
      assert 2 * p + n == 10 * (2 * rest + n / 10) + n % 10;
    }
  }

  lemma {:induction false} PowersGrow(j: nat, k: nat)
    requires j <= k
    ensures Power10(j) <= Power10(k)
  {
    if j < k { PowersGrow(j, k - 1); }
  }

  /** The display year is the raw year with the digit 2 written in front of it. */
  method Fallout4DisplayYear(rawYear: int) returns (shown: Option<int>)
    ensures rawYear < 0 ==> shown == None
    ensures rawYear >= 0 ==> shown.Some? && shown.value >= 0 && Digits(shown.value) == [2] + Digits(rawYear)
  {
    if rawYear < 0 {
      return None;
    }
    var decimalPlace := 10;
    ghost var k: nat := 1;
    DigitCount(rawYear);
    while decimalPlace <= rawYear
      invariant decimalPlace == Power10(k) && 1 <= k <= |Digits(rawYear)|
      decreases |Digits(rawYear)| - k
    {
      if k == |Digits(rawYear)| { assert false; }
      decimalPlace := decimalPlace * 10;
      k := k + 1;
    }
    if k < |Digits(rawYear)| {
      PowersGrow(k, |Digits(rawYear)| - 1);
    }
    PrefixTwo(rawYear);
    return Some(2 * decimalPlace + rawYear);
  }
}
