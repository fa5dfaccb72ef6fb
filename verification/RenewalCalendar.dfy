/** The renewal arithmetic of internal/task/auto_renew.go over the proleptic Gregorian
    calendar. All dates are read in the location of the stored end time, taken as a fixed
    offset from UTC. */
module RenewalCalendar {
  import opened Prelude

  const NANOS_PER_DAY := 86_400_000_000_000

  predicate Leap(year: int) {
    year % 4 == 0 && (year % 100 != 0 || year % 400 == 0)
  }

  function DaysInMonth(year: int, month: int): (days: int)
    ensures 28 <= days <= 31
  {
    if month == 2 then (if Leap(year) then 29 else 28)
    else if month == 4 || month == 6 || month == 9 || month == 11 then 30
    else 31
  }

  /** The calendar: the twelve lengths, and 146097 days to every 400 years. */
  lemma Gregorian(year: int)
    ensures DaysInMonth(year, 1) == 31 && DaysInMonth(year, 3) == 31 && DaysInMonth(year, 4) == 30
    ensures DaysInMonth(year, 5) == 31 && DaysInMonth(year, 6) == 30 && DaysInMonth(year, 7) == 31
    ensures DaysInMonth(year, 8) == 31 && DaysInMonth(year, 9) == 30 && DaysInMonth(year, 10) == 31
    ensures DaysInMonth(year, 11) == 30 && DaysInMonth(year, 12) == 31
    ensures DaysInMonth(year, 2) == if year % 4 == 0 && (year % 100 != 0 || year % 400 == 0) then 29 else 28
    ensures DaysBeforeYear(year + 400) == DaysBeforeYear(year) + 146097
  {
    FourHundredYears(year - 1);
  }

  lemma FourHundredYears(n: int)
    ensures (n + 400) / 4 == n / 4 + 100 && (n + 400) / 100 == n / 100 + 4 && (n + 400) / 400 == n / 400 + 1
  {
  }

  /** A civil date and the nanoseconds since its midnight. */
  datatype Civil = Civil(year: int, month: int, day: int, nanos: int) {
    predicate Valid() {
      1 <= month <= 12 && 1 <= day <= DaysInMonth(year, month) && 0 <= nanos < NANOS_PER_DAY
    }

    predicate MonthEnd() {
      day == DaysInMonth(year, month)
    }

    /** Months since year 0. */
    function Month(): int {
      year * 12 + month - 1
    }
  }

  // ------------------------------------------------------------------ instants

  function DaysBeforeYear(year: int): int {
    365 * (year - 1) + (year - 1) / 4 - (year - 1) / 100 + (year - 1) / 400
  }

  function DaysBeforeMonth(year: int, month: int): int
    requires 1 <= month
  {
    if month == 1 then 0 else DaysBeforeMonth(year, month - 1) + DaysInMonth(year, month - 1)
  }

  /** Nanoseconds from the start of year 1, up to the constant offset. */
  function Instant(t: Civil): int
    requires t.Valid()
  {
    (DaysBeforeYear(t.year) + DaysBeforeMonth(t.year, t.month) + t.day - 1) * NANOS_PER_DAY + t.nanos
  }

  /** time.Time.Before; BeforeComparesInstants shows that it is the order of instants. */
  predicate Before(a: Civil, b: Civil) {
    || a.Month() < b.Month()
    || (a.Month() == b.Month() && (a.day < b.day || (a.day == b.day && a.nanos < b.nanos)))
  }

  lemma {:induction false} MonthsFit(year: int, m: int, n: int)
    requires 1 <= m < n <= 13
    ensures DaysBeforeMonth(year, m) + DaysInMonth(year, m) <= DaysBeforeMonth(year, n)
    decreases n
  {
    if m < n - 1 {
      MonthsFit(year, m, n - 1);
    }
  }

  lemma MonthsAddUp(year: int)
    ensures DaysBeforeMonth(year, 13) == 337 + DaysInMonth(year, 2)
  {
    var march := DaysBeforeMonth(year, 3);
    assert march == 31 + DaysInMonth(year, 2) by { assert DaysBeforeMonth(year, 2) == 31; }
    assert DaysBeforeMonth(year, 5) == march + 61;
    assert DaysBeforeMonth(year, 7) == march + 122;
    assert DaysBeforeMonth(year, 9) == march + 184;
    assert DaysBeforeMonth(year, 11) == march + 245;
  }

  lemma FourthYears(year: int)
    ensures year / 4 - (year - 1) / 4 == if year % 4 == 0 then 1 else 0
  {
  }

  lemma HundredthYears(year: int)
    ensures year / 100 - (year - 1) / 100 == if year % 100 == 0 then 1 else 0
  {
  }

  lemma FourHundredthYears(year: int)
    ensures year / 400 - (year - 1) / 400 == if year % 400 == 0 then 1 else 0
  {
  }

  lemma CenturiesAreFourthYears(year: int)
    ensures year % 100 == 0 ==> year % 4 == 0
    ensures year % 400 == 0 ==> year % 100 == 0
  {
  }

  lemma LeapDays(year: int)
    ensures year / 4 - year / 100 + year / 400 - ((year - 1) / 4 - (year - 1) / 100 + (year - 1) / 400)
         == if Leap(year) then 1 else 0
  {
    FourthYears(year);
    HundredthYears(year);
    FourHundredthYears(year);
    CenturiesAreFourthYears(year);
  }

  lemma YearLength(year: int)
    ensures DaysBeforeYear(year + 1) == DaysBeforeYear(year) + DaysBeforeMonth(year, 13)
  {
    MonthsAddUp(year);
    LeapDays(year);
  }

  lemma {:induction false} YearsFit(a: int, b: int)
    requires a < b
    ensures DaysBeforeYear(a) + DaysBeforeMonth(a, 13) <= DaysBeforeYear(b)
    decreases b - a
  {
    YearLength(a);
    if a + 1 < b {
      YearLength(a + 1);
      YearsFit(a + 1, b);
    }
  }

  lemma BeforeIsEarlier(a: Civil, b: Civil)
    requires a.Valid() && b.Valid() && Before(a, b)
    ensures Instant(a) < Instant(b)
  {
    var dayA := DaysBeforeYear(a.year) + DaysBeforeMonth(a.year, a.month) + a.day - 1;
    var dayB := DaysBeforeYear(b.year) + DaysBeforeMonth(b.year, b.month) + b.day - 1;
    if a.year < b.year {
      MonthsFit(a.year, a.month, 13);
      YearsFit(a.year, b.year);
      if 1 < b.month {
        MonthsFit(b.year, 1, b.month);
      }
      assert dayA < dayB;
    } else if a.month < b.month {
      MonthsFit(a.year, a.month, b.month);
      assert dayA < dayB;
    }
  }

  /** Comparing month, then day, then time of day is comparing instants. */
  lemma BeforeComparesInstants(a: Civil, b: Civil)
    requires a.Valid() && b.Valid()
    ensures Before(a, b) <==> Instant(a) < Instant(b)
    ensures Instant(a) == Instant(b) <==> a == b
  {
    if Before(a, b) {
      BeforeIsEarlier(a, b);
    } else if Before(b, a) {
      BeforeIsEarlier(b, a);
    } else {
      MonthIsUnique(a, b);
    }
  }

  // ------------------------------------------------------------------ addAnchoredMonths

  /** Go's `/` and `%` round towards zero. */
  function GoDiv(a: int, b: int): int
    requires 0 < b
  {
    if 0 <= a then a / b else -((-a) / b)
  }

  function GoMod(a: int, b: int): int
    requires 0 < b
  {
    a - b * GoDiv(a, b)
  }

  /** time.Date accepts a month outside 1..12 and carries it into the year. */
  function CarriedYear(year: int, month: int): int {
    year + (month - 1) / 12
  }

  function CarriedMonth(month: int): (m: int)
    ensures 1 <= m <= 12
  {
    (month - 1) % 12 + 1
  }

  function AddAnchoredMonths(value: Civil, months: int): Civil {
    var monthIndex := value.year * 12 + value.month - 1 + months;
    var year := GoDiv(monthIndex, 12);
    var month := GoMod(monthIndex, 12) + 1;
    var lastDay := DaysInMonth(CarriedYear(year, month), CarriedMonth(month));
    var day := if value.day == DaysInMonth(value.year, value.month) || value.day > lastDay then lastDay else value.day;
    Civil(CarriedYear(year, month), CarriedMonth(month), day, value.nanos)
  }

  /** The target month is the wanted number of months away, also before year 0, where Go's
      division and time.Date's carry undo each other. */
  lemma LandsOnMonth(value: Civil, months: int)
    ensures AddAnchoredMonths(value, months).Month() == value.Month() + months
    ensures AddAnchoredMonths(value, months).nanos == value.nanos
  {
    var i := value.Month() + months;
    var q, r := GoDiv(i, 12), GoMod(i, 12);
    assert i == 12 * q + r && -12 < r < 12;
  }

  lemma MonthIsUnique(a: Civil, b: Civil)
    requires a.Valid() && b.Valid() && a.Month() == b.Month()
    ensures a.year == b.year && a.month == b.month
  {
  }

  /** Month-end dates stay month-end; every other day is kept or clamped to the last one. */
  lemma Anchoring(value: Civil, months: int)
    requires value.Valid()
    ensures AddAnchoredMonths(value, months).Valid()
    ensures var r := AddAnchoredMonths(value, months);
      && (value.MonthEnd() ==> r.MonthEnd())
      && (!value.MonthEnd() ==> r.day == Min(value.day, DaysInMonth(r.year, r.month)))
    ensures AddAnchoredMonths(value, 0) == value
  {
    LandsOnMonth(value, 0);
    MonthIsUnique(AddAnchoredMonths(value, 0), value);
  }

  /** Adding a months and then b is adding a + b, exactly unless a day that is not a month
      end is clamped on the way and the clamped month end then outgrows it. */
  lemma Composition(value: Civil, a: int, b: int)
    requires value.Valid()
    ensures var mid, direct := AddAnchoredMonths(value, a), AddAnchoredMonths(value, a + b);
      AddAnchoredMonths(mid, b) == direct <==>
        || value.MonthEnd()
        || value.day < DaysInMonth(mid.year, mid.month)
        || DaysInMonth(direct.year, direct.month) <= value.day
  {
    var mid, direct := AddAnchoredMonths(value, a), AddAnchoredMonths(value, a + b);
    LandsOnMonth(value, a);
    LandsOnMonth(value, a + b);
    LandsOnMonth(mid, b);
    MonthIsUnique(AddAnchoredMonths(mid, b), direct);
    Anchoring(value, a);
    Anchoring(value, a + b);
    Anchoring(mid, b);
  }

  /** So it composes for month ends and for days up to 27, across leap years. */
  lemma ComposesForMostDays(value: Civil, a: int, b: int)
    requires value.Valid() && (value.MonthEnd() || value.day <= 27)
    ensures AddAnchoredMonths(AddAnchoredMonths(value, a), b) == AddAnchoredMonths(value, a + b)
  {
    Composition(value, a, b);
  }

  /** The month, the anchoring rule and the time of day pin the result down. */
  lemma Lands(value: Civil, months: int, r: Civil)
    requires value.Valid() && r.Valid() && r.Month() == value.Month() + months && r.nanos == value.nanos
    requires if value.MonthEnd() then r.MonthEnd() else r.day == Min(value.day, DaysInMonth(r.year, r.month))
    ensures AddAnchoredMonths(value, months) == r
  {
    LandsOnMonth(value, months);
    Anchoring(value, months);
    MonthIsUnique(AddAnchoredMonths(value, months), r);
  }

  /** It fails for day 30: through February it comes out at the end of March. */
  lemma CompositionFails()
    ensures var jan30 := Civil(2023, 1, 30, 0);
      && AddAnchoredMonths(AddAnchoredMonths(jan30, 1), 1) == Civil(2023, 3, 31, 0)
      && AddAnchoredMonths(jan30, 2) == Civil(2023, 3, 30, 0)
  {
    var jan30, feb28 := Civil(2023, 1, 30, 0), Civil(2023, 2, 28, 0);
    Lands(jan30, 1, feb28);
    Lands(feb28, 1, Civil(2023, 3, 31, 0));
    Lands(jan30, 2, Civil(2023, 3, 30, 0));
  }

  // ------------------------------------------------------------------ nextRenewalEndTime

  /** Cycles 1 to 4: monthly, quarterly, half-yearly, yearly. */
  function MonthsPerCycle(cycle: int): int {
    match cycle
    case 1 => 1
    case 2 => 3
    case 3 => 6
    case 4 => 12
    case _ => 0
  }

  function FirstGuess(endTime: Civil, now: Civil, monthsPerCycle: int): int
    requires 0 < monthsPerCycle
  {
    var elapsedMonths := (now.year - endTime.year) * 12 + (now.month - endTime.month);
    var cycles := GoDiv(elapsedMonths, monthsPerCycle);
    if cycles < 1 then 1 else cycles
  }

  function NextRenewalEndTime(endTime: Civil, now: Civil, cycle: int): Option<Civil> {
    var m := MonthsPerCycle(cycle);
    if m == 0 then None
    else
      var cycles := FirstGuess(endTime, now, m);
      var newEndTime := AddAnchoredMonths(endTime, cycles * m);
      if Before(newEndTime, now) then Some(AddAnchoredMonths(endTime, (cycles + 1) * m)) else Some(newEndTime)
  }

  /** k cycles from the original date is the first that is not in the past: what adding
      cycles one by one, always from the original date, arrives at. */
  ghost predicate FirstNotPast(endTime: Civil, now: Civil, m: int, k: int) {
    && 1 <= k
    && !Before(AddAnchoredMonths(endTime, k * m), now)
    && forall j :: 1 <= j < k ==> Before(AddAnchoredMonths(endTime, j * m), now)
  }

  lemma MonthsOrder(endTime: Civil, months: int, now: Civil)
    ensures endTime.Month() + months < now.Month() ==> Before(AddAnchoredMonths(endTime, months), now)
    ensures endTime.Month() + months > now.Month() ==> !Before(AddAnchoredMonths(endTime, months), now)
  {
    LandsOnMonth(endTime, months);
  }

  lemma GuessBounds(elapsed: int, m: int)
    requires m == 1 || m == 3 || m == 6 || m == 12
    ensures var q := GoDiv(elapsed, m); (1 <= q ==> q * m <= elapsed) && elapsed < (if q < 1 then 2 else q + 1) * m
  {
  }

  lemma FewerMonths(j: int, k: int, m: int)
    requires j < k && 0 < m
    ensures j * m < k * m
  {
  }

  /** All cycles below the guess are past, and the one above it is not. */
  lemma AroundTheGuess(endTime: Civil, now: Civil, m: int, j: int)
    requires m == 1 || m == 3 || m == 6 || m == 12
    ensures var guess := FirstGuess(endTime, now, m);
      && (1 <= j < guess ==> Before(AddAnchoredMonths(endTime, j * m), now))
      && !Before(AddAnchoredMonths(endTime, (guess + 1) * m), now)
  {
    var guess := FirstGuess(endTime, now, m);
    GuessBounds(now.Month() - endTime.Month(), m);
    MonthsOrder(endTime, (guess + 1) * m, now);
    if 1 <= j < guess {
      FewerMonths(j, guess, m);
      MonthsOrder(endTime, j * m, now);
    }
  }

  function RenewalCycles(endTime: Civil, now: Civil, m: int): int
    requires 0 < m
  {
    var guess := FirstGuess(endTime, now, m);
    if Before(AddAnchoredMonths(endTime, guess * m), now) then guess + 1 else guess
  }

  lemma CyclesAreFirst(endTime: Civil, now: Civil, m: int)
    requires m == 1 || m == 3 || m == 6 || m == 12
    ensures FirstNotPast(endTime, now, m, RenewalCycles(endTime, now, m))
  {
    var k := RenewalCycles(endTime, now, m);
    AroundTheGuess(endTime, now, m, 0);
    forall j | 1 <= j < k
      ensures Before(AddAnchoredMonths(endTime, j * m), now)
    {
      AroundTheGuess(endTime, now, m, j);
    }
  }

  /** r is the original date plus the first number of periods of m months that is not past. */
  ghost predicate RenewsEvery(m: int, endTime: Civil, now: Civil, r: Option<Civil>) {
    exists k :: FirstNotPast(endTime, now, m, k) && r == Some(AddAnchoredMonths(endTime, k * m))
  }

  /** The closed form finds that number, for every end time and every now: cycle 1 renews
      monthly, 2 quarterly, 3 half-yearly and 4 yearly, and no other cycle renews at all. */
  lemma RenewalClosedForm(endTime: Civil, now: Civil)
    ensures RenewsEvery(1, endTime, now, NextRenewalEndTime(endTime, now, 1))
    ensures RenewsEvery(3, endTime, now, NextRenewalEndTime(endTime, now, 2))
    ensures RenewsEvery(6, endTime, now, NextRenewalEndTime(endTime, now, 3))
    ensures RenewsEvery(12, endTime, now, NextRenewalEndTime(endTime, now, 4))
    ensures forall cycle :: cycle < 1 || 4 < cycle ==> NextRenewalEndTime(endTime, now, cycle) == None
  {
    RenewalByCycle(endTime, now, 1);
    RenewalByCycle(endTime, now, 2);
    RenewalByCycle(endTime, now, 3);
    RenewalByCycle(endTime, now, 4);
  }

  lemma RenewalByCycle(endTime: Civil, now: Civil, cycle: int)
    requires 1 <= cycle <= 4
    ensures RenewsEvery(MonthsPerCycle(cycle), endTime, now, NextRenewalEndTime(endTime, now, cycle))
  {
    var m := MonthsPerCycle(cycle);
    CyclesAreFirst(endTime, now, m);
    RenewalTakesCycles(endTime, now, cycle);
    var k := RenewalCycles(endTime, now, m);
    assert FirstNotPast(endTime, now, m, k);
  }

  lemma RenewalTakesCycles(endTime: Civil, now: Civil, cycle: int)
    requires 1 <= cycle <= 4
    ensures var m := MonthsPerCycle(cycle);
      && (m == 1 || m == 3 || m == 6 || m == 12)
      && NextRenewalEndTime(endTime, now, cycle) == Some(AddAnchoredMonths(endTime, RenewalCycles(endTime, now, m) * m))
  {
  }

  lemma FirstIsUnique(endTime: Civil, now: Civil, m: int, j: int, k: int)
    requires FirstNotPast(endTime, now, m, j) && FirstNotPast(endTime, now, m, k)
    ensures j == k
  {
  }

  /** Any number of cycles the naive loop would stop at is the one the closed form takes. */
  lemma RenewalEqualsNaiveLoop(endTime: Civil, now: Civil, cycle: int, k: int)
    requires 1 <= cycle <= 4 && FirstNotPast(endTime, now, MonthsPerCycle(cycle), k)
    ensures NextRenewalEndTime(endTime, now, cycle) == Some(AddAnchoredMonths(endTime, k * MonthsPerCycle(cycle)))
  {
    RenewalByCycle(endTime, now, cycle);
    var j :| FirstNotPast(endTime, now, MonthsPerCycle(cycle), j)
      && NextRenewalEndTime(endTime, now, cycle) == Some(AddAnchoredMonths(endTime, j * MonthsPerCycle(cycle)));
    FirstIsUnique(endTime, now, MonthsPerCycle(cycle), j, k);
  }

  lemma PastMonthIsNotLater(endTime: Civil, months: int, now: Civil)
    requires Before(AddAnchoredMonths(endTime, months), now)
    ensures endTime.Month() + months <= now.Month()
  {
    MonthsOrder(endTime, months, now);
  }

  /** The naive loop itself, which the closed form replaces: one more cycle, from the original
      date, until the result is not in the past. It ends, and where the closed form is. */
  method RenewByLoop(endTime: Civil, now: Civil, cycle: int) returns (r: Option<Civil>)
    ensures r == NextRenewalEndTime(endTime, now, cycle)
    ensures cycle == 1 ==> RenewsEvery(1, endTime, now, r)
    ensures cycle == 2 ==> RenewsEvery(3, endTime, now, r)
    ensures cycle == 3 ==> RenewsEvery(6, endTime, now, r)
    ensures cycle == 4 ==> RenewsEvery(12, endTime, now, r)
    ensures r.Some? <==> 1 <= cycle <= 4
  {
    var m := MonthsPerCycle(cycle);
    if m == 0 {
      r := None;
    } else {
      r := LoopFrom(endTime, now, cycle, m);
    }
    RenewalClosedForm(endTime, now);
  }

  method LoopFrom(endTime: Civil, now: Civil, cycle: int, m: int) returns (r: Option<Civil>)
    requires 1 <= cycle <= 4 && m == MonthsPerCycle(cycle)
    ensures r == NextRenewalEndTime(endTime, now, cycle)
  {
    ghost var k := 1;
    var months := m;
    while Before(AddAnchoredMonths(endTime, months), now)
      invariant 1 <= k && months == k * m
      invariant forall j :: 1 <= j < k ==> Before(AddAnchoredMonths(endTime, j * m), now)
      decreases now.Month() - endTime.Month() - months
    {
      PastMonthIsNotLater(endTime, months, now);
      months, k := months + m, k + 1;
    }
    r := Some(AddAnchoredMonths(endTime, months));
    assert FirstNotPast(endTime, now, m, k);
    RenewalEqualsNaiveLoop(endTime, now, cycle, k);
  }

  /** The renewed end is not in the past and later than the old one. */
  lemma RenewalMovesForward(endTime: Civil, now: Civil, cycle: int)
    requires 1 <= cycle <= 4
    ensures var r := NextRenewalEndTime(endTime, now, cycle);
      r.Some? && !Before(r.value, now) && Before(endTime, r.value)
  {
    RenewalByCycle(endTime, now, cycle);
    var m := MonthsPerCycle(cycle);
    var k :| FirstNotPast(endTime, now, m, k) && NextRenewalEndTime(endTime, now, cycle) == Some(AddAnchoredMonths(endTime, k * m));
    assert 0 < k * m;
    LandsOnMonth(endTime, k * m);
  }

  /** A later now never gives an earlier renewal. */
  lemma RenewalMonotone(endTime: Civil, now: Civil, later: Civil, cycle: int)
    requires 1 <= cycle <= 4 && !Before(later, now)
    ensures !Before(NextRenewalEndTime(endTime, later, cycle).value, NextRenewalEndTime(endTime, now, cycle).value)
  {
    RenewalTakesCycles(endTime, now, cycle);
    RenewalTakesCycles(endTime, later, cycle);
    CyclesMonotone(endTime, now, later, MonthsPerCycle(cycle));
  }

  lemma CyclesMonotone(endTime: Civil, now: Civil, later: Civil, m: int)
    requires (m == 1 || m == 3 || m == 6 || m == 12) && !Before(later, now)
    ensures !Before(AddAnchoredMonths(endTime, RenewalCycles(endTime, later, m) * m),
                    AddAnchoredMonths(endTime, RenewalCycles(endTime, now, m) * m))
  {
    var j, k := RenewalCycles(endTime, now, m), RenewalCycles(endTime, later, m);
    CyclesAreFirst(endTime, now, m);
    CyclesAreFirst(endTime, later, m);
    FirstIsMonotone(endTime, now, later, m, j, k);
    if j < k {
      FewerMonths(j, k, m);
      MoreMonthsAreLater(endTime, j * m, k * m);
    }
  }

  lemma MoreMonthsAreLater(endTime: Civil, fewer: int, more: int)
    requires fewer < more
    ensures !Before(AddAnchoredMonths(endTime, more), AddAnchoredMonths(endTime, fewer))
  {
    LandsOnMonth(endTime, fewer);
    MonthsOrder(endTime, more, AddAnchoredMonths(endTime, fewer));
  }

  lemma FirstIsMonotone(endTime: Civil, now: Civil, later: Civil, m: int, j: int, k: int)
    requires FirstNotPast(endTime, now, m, j) && FirstNotPast(endTime, later, m, k) && !Before(later, now)
    ensures j <= k
  {
  }

  // ------------------------------------------------------------------ autoRenewAt

  datatype ServerInfo = ServerInfo(endTime: Option<Civil>, autoRenew: bool, cycle: int)

  /** The rows the query selects. */
  predicate Due(row: ServerInfo, now: Civil) {
    row.endTime.Some? && Before(row.endTime.value, now) && row.autoRenew && 1 <= row.cycle <= 4
  }

  function RenewedRow(row: ServerInfo, now: Civil): ServerInfo {
    if Due(row, now) then row.(endTime := NextRenewalEndTime(row.endTime.value, now, row.cycle)) else row
  }

  function Renewed(rows: map<int, ServerInfo>, now: Civil): map<int, ServerInfo> {
    map id | id in rows :: RenewedRow(rows[id], now)
  }

  /** A row that ended before now, renews itself and has cycle 1 to 4 gets the end that its
      cycle asks for and keeps everything else; any other row stays as it is. */
  ghost predicate RowRenewed(row: ServerInfo, now: Civil, after: ServerInfo) {
    if row.endTime.Some? && Before(row.endTime.value, now) && row.autoRenew && 1 <= row.cycle <= 4 then
      && after.autoRenew && after.cycle == row.cycle
      && (row.cycle == 1 ==> RenewsEvery(1, row.endTime.value, now, after.endTime))
      && (row.cycle == 2 ==> RenewsEvery(3, row.endTime.value, now, after.endTime))
      && (row.cycle == 3 ==> RenewsEvery(6, row.endTime.value, now, after.endTime))
      && (row.cycle == 4 ==> RenewsEvery(12, row.endTime.value, now, after.endTime))
    else after == row
  }

  lemma RowIsRenewed(row: ServerInfo, now: Civil)
    ensures RowRenewed(row, now, RenewedRow(row, now))
  {
    if Due(row, now) {
      RenewalClosedForm(row.endTime.value, now);
    }
  }

  class ServerTable {
    var rows: map<int, ServerInfo>

    constructor (rows: map<int, ServerInfo>)
      ensures this.rows == rows
    {
      this.rows := rows;
    }

    /** One transaction: every due row is renewed and no other row changes. The rollback on an
        unsupported cycle is never taken, since the query does not select such rows. */
    method AutoRenewAt(now: Civil) returns (ok: bool)
      modifies this
      ensures ok && rows == Renewed(old(rows), now)
      ensures rows.Keys == old(rows).Keys
      ensures forall id :: id in rows ==> RowRenewed(old(rows)[id], now, rows[id])
    {
      var due := set id | id in rows && Due(rows[id], now);
      var table := rows;
      while due != {}
        invariant table.Keys == rows.Keys && rows == old(rows) && due <= rows.Keys
        invariant forall id :: id in rows && id in due ==> table[id] == rows[id] && Due(rows[id], now)
        invariant forall id :: id in rows && id !in due ==> table[id] == RenewedRow(rows[id], now)
        decreases due
      {
        Inhabited(due);
        var id :| id in due;
        var v := table[id];
        var newEndTime := NextRenewalEndTime(v.endTime.value, now, v.cycle);
        if newEndTime.None? {
          return false;
        }
        table := table[id := v.(endTime := newEndTime)];
        due := due - {id};
      }
      assert forall id :: id in rows ==> id !in due && table[id] == RenewedRow(rows[id], now);
      assert table.Keys == Renewed(rows, now).Keys;
      forall id | id in rows
        ensures RowRenewed(rows[id], now, RenewedRow(rows[id], now))
      {
        RowIsRenewed(rows[id], now);
      }
      rows := table;
      ok := true;
    }
  }

  /** A second pass at the same instant selects nothing and changes nothing. */
  lemma SecondPassSelectsNothing(rows: map<int, ServerInfo>, now: Civil)
    ensures forall id :: id in Renewed(rows, now) ==> !Due(Renewed(rows, now)[id], now)
    ensures Renewed(Renewed(rows, now), now) == Renewed(rows, now)
  {
    forall id | id in rows
      ensures !Due(RenewedRow(rows[id], now), now)
      ensures RenewedRow(RenewedRow(rows[id], now), now) == RenewedRow(rows[id], now)
    {
      if Due(rows[id], now) {
        RenewalMovesForward(rows[id].endTime.value, now, rows[id].cycle);
      }
    }
  }
}
