/** Calendar dates as the record store keeps them (year, month, day) and
    their day numbers: the count of days since 1970-01-01, which is what a
    timestamp normalised to midnight measures once divided by the length
    of a day. Every day-span in the billing rules is a difference of two
    day numbers. */
module Calendar {

  datatype Date = Date(year: int, month: int, day: int)

  predicate IsLeapYear(y: int)
  {
    y % 4 == 0 && (y % 100 != 0 || y % 400 == 0)
  }

  function DaysInMonth(y: int, m: int): int
  {
    if m == 2 then (if IsLeapYear(y) then 29 else 28)
    else if m == 4 || m == 6 || m == 9 || m == 11 then 30
    else 31
  }

  predicate ValidDate(d: Date)
  {
    1 <= d.month <= 12 && 1 <= d.day <= DaysInMonth(d.year, d.month)
  }

  /** Days since 1970-01-01 in the proleptic Gregorian calendar. The year is
      counted from March so that the leap day falls at its end. */
  function DayNumber(d: Date): int
  {
    var y := if d.month <= 2 then d.year - 1 else d.year;
    var era := y / 400;
    var yoe := y - era * 400;
    var mp := if d.month > 2 then d.month - 3 else d.month + 9;
    var doy := (153 * mp + 2) / 5 + d.day - 1;
    var doe := yoe * 365 + yoe / 4 - yoe / 100 + doy;
    era * 146097 + doe - 719468
  }

  /** The calendar day after `d`. */
  function NextDate(d: Date): (n: Date)
    requires ValidDate(d)
    ensures ValidDate(n)
  {
    if d.day < DaysInMonth(d.year, d.month) then Date(d.year, d.month, d.day + 1)
    else if d.month < 12 then Date(d.year, d.month + 1, 1)
    else Date(d.year + 1, 1, 1)
  }

  /** Day numbers count days: consecutive calendar days are one apart,
      across month ends, year ends and leap days alike. */
  lemma NextDateIsNextDay(d: Date)
    requires ValidDate(d)
    ensures DayNumber(NextDate(d)) == DayNumber(d) + 1
  {
    if d.day < DaysInMonth(d.year, d.month) {
      assert NextDate(d) == d.(day := d.day + 1);
    } else if d.month != 2 {
      MonthEndStep(d.year, d.month);
    } else {
      // 28 or 29 February to 1 March: the March-based year advances by one.
      FebruaryToMarch(d.year);
    }
  }

  /** The year counted from March that a date belongs to. */
  function MarchYear(d: Date): int
  {
    if d.month <= 2 then d.year - 1 else d.year
  }

  /** Days from March 1 to the first of month `m` of the same March-based year. */
  function MonthOffset(m: int): int
  {
    (153 * (if m > 2 then m - 3 else m + 9) + 2) / 5
  }

  /** Within one March-based year, day numbers differ by the month offsets
      and the days of the month. */
  lemma SameMarchYear(a: Date, b: Date)
    requires MarchYear(a) == MarchYear(b)
    ensures DayNumber(b) - DayNumber(a) == MonthOffset(b.month) - MonthOffset(a.month) + b.day - a.day
  {
  }

  /** From the last day of a month other than February to the first of the
      next; the March-based year changes only after February. */
  lemma MonthEndStep(y: int, m: int)
    requires 1 <= m <= 12 && m != 2
    ensures DayNumber(NextDate(Date(y, m, DaysInMonth(y, m)))) == DayNumber(Date(y, m, DaysInMonth(y, m))) + 1
  {
    var d := Date(y, m, DaysInMonth(y, m));
    var n := NextDate(d);
    assert n == if m == 12 then Date(y + 1, 1, 1) else Date(y, m + 1, 1);
    SameMarchYear(d, n);
  }

  lemma FebruaryToMarch(y: int)
    ensures DayNumber(Date(y, 3, 1)) == DayNumber(Date(y, 2, DaysInMonth(y, 2))) + 1
  {
    SameMarchYear(Date(y - 1, 3, 1), Date(y, 2, DaysInMonth(y, 2)));
    YearStartStep(y - 1);
  }

  /** A March-based year has 366 days when the February that ends it has a
      leap day, and 365 otherwise. */
  lemma YearStartStep(y: int)
    ensures DayNumber(Date(y + 1, 3, 1)) - DayNumber(Date(y, 3, 1)) == if IsLeapYear(y + 1) then 366 else 365
  {
    var era := y / 400;
    var yoe := y - era * 400;
    DayNumberInEra(Date(y, 3, 1), era, yoe);
    if yoe == 399 {
      ErasShift(era + 1, 0);
      DayNumberInEra(Date(y + 1, 3, 1), era + 1, 0);
    } else {
      ErasShift(era, yoe + 1);
      DayNumberInEra(Date(y + 1, 3, 1), era, yoe + 1);
      StepCount(yoe + 1);
    }
  }

  /** The day number of `d` once its March-based year is split into a
      400-year era and a year within it. */
  lemma DayNumberInEra(d: Date, era: int, yoe: int)
    requires 0 <= yoe < 400
    requires (if d.month <= 2 then d.year - 1 else d.year) == era * 400 + yoe
    ensures DayNumber(d) == era * 146097 + yoe * 365 + yoe / 4 - yoe / 100
                            + (153 * (if d.month > 2 then d.month - 3 else d.month + 9) + 2) / 5
                            + d.day - 1 - 719468
  {
    ErasShift(era, yoe);
  }

  /** Moving from year q - 1 to year q of an era adds one to the count of
      multiples of 4 (and of 100) exactly when q is such a multiple. */
  lemma StepCount(q: int)
    requires q >= 1
    ensures q / 4 - (q - 1) / 4 == if q % 4 == 0 then 1 else 0
    ensures q / 100 - (q - 1) / 100 == if q % 100 == 0 then 1 else 0
  {
  }

  /** Whole 400-year eras do not change the leap-year residues. */
  lemma ErasShift(e: int, q: int)
    requires 0 <= q < 400
    ensures (e * 400 + q) / 400 == e
    ensures (e * 400 + q) % 4 == q % 4
    ensures (e * 400 + q) % 100 == q % 100
    ensures (e * 400 + q) % 400 == q
  {
    ShiftBy4(e * 100, q);
    ShiftBy100(e * 4, q);
    ShiftBy400(e, q);
  }

  lemma ShiftBy4(k: int, q: int)
    ensures (4 * k + q) % 4 == q % 4
  {
  }

  lemma ShiftBy100(k: int, q: int)
    ensures (100 * k + q) % 100 == q % 100
  {
  }

  lemma ShiftBy400(k: int, q: int)
    requires 0 <= q < 400
    ensures (400 * k + q) / 400 == k && (400 * k + q) % 400 == q
  {
  }

  /** The calendar date `n` days after `d`. */
  function AddDays(d: Date, n: nat): (r: Date)
    requires ValidDate(d)
    ensures ValidDate(r)
    decreases n
  {
    if n == 0 then d else AddDays(NextDate(d), n - 1)
  }

  lemma {:induction false} AddDaysCountsDays(d: Date, n: nat)
    requires ValidDate(d)
    ensures DayNumber(AddDays(d, n)) == DayNumber(d) + n
    decreases n
  {
    if n > 0 {
      NextDateIsNextDay(d);
      AddDaysCountsDays(NextDate(d), n - 1);
    }
  }
}
