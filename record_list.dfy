/** The record page's projections over the full record list: the visible
    list for a tab and a filter selection, the summary counters, the
    revenue figure and the year options. All are pure: they read the list
    and never change it. */
module RecordList {
  import opened Common
  import opened Calendar
  import opened Billing

  /** The due-date selector of the Active tab. `Unlisted` stands for any
      other value, which the selector's switch lets through. */
  datatype DueFilter = AnyDue | OneDayBefore | DueToday | PastDue | Unlisted

  /** The filter selection. `year` and `month` are None when no value is
      chosen; `month` counts from 1. */
  datatype Criteria = Criteria(
    tab: string,
    search: string,
    year: Option<int>,
    month: Option<int>,
    due: DueFilter)

  predicate MatchesStatus(r: Record, c: Criteria)
  {
    Lower(r.rentalStatus) == Lower(c.tab)
  }

  /** Customer and attire names are matched case-insensitively; the two ids
      are matched on their decimal text against the query as typed. */
  predicate MatchesSearch(r: Record, c: Criteria)
  {
    var text := Lower(c.search);
    (r.customerName.Some? && Contains(Lower(r.customerName.value), text))
    || (r.attireName.Some? && Contains(Lower(r.attireName.value), text))
    || (r.attireId.Some? && Contains(IntToString(r.attireId.value), c.search))
    || Contains(IntToString(r.id), c.search)
  }

  predicate MatchesYear(r: Record, c: Criteria)
  {
    c.year.None? || (r.rentalDate.Some? && r.rentalDate.value.year == c.year.value)
  }

  predicate MatchesMonth(r: Record, c: Criteria)
  {
    c.month.None? || (r.rentalDate.Some? && r.rentalDate.value.month == c.month.value)
  }

  /** Days from today until the expected return date (negative once past). */
  function DaysUntilDue(r: Record, today: int): int
    requires r.expectedReturn.Some?
  {
    DayNumber(r.expectedReturn.value) - today
  }

  /** The due-date bucket: checked only on the "Active" tab with a bucket
      chosen and only for records that have an expected date. */
  predicate MatchesDue(r: Record, c: Criteria, today: int)
  {
    if c.tab != "Active" || c.due == AnyDue || r.expectedReturn.None? then true
    else match c.due
      case OneDayBefore => DaysUntilDue(r, today) == 1
      case DueToday => DaysUntilDue(r, today) == 0
      case PastDue => DaysUntilDue(r, today) < 0
      case _ => true
  }

  predicate RecordMatches(r: Record, c: Criteria, today: int)
  {
    MatchesStatus(r, c) && MatchesSearch(r, c) && MatchesYear(r, c)
    && MatchesMonth(r, c) && MatchesDue(r, c, today)
  }

  /** The visible records for a tab and filter selection. */
  function FilteredRecords(records: seq<Record>, c: Criteria, today: int): seq<Record>
  {
    Filter(r => RecordMatches(r, c, today), records)
  }

  /** The visible list keeps record order, and a record is in it exactly
      when it is in the full list and passes every filter. */
  lemma FilteredRecordsSelects(records: seq<Record>, c: Criteria, today: int)
    ensures Subseq(FilteredRecords(records, c, today), records)
    ensures forall r :: r in FilteredRecords(records, c, today) <==> r in records && RecordMatches(r, c, today)
    ensures forall r :: multiset(FilteredRecords(records, c, today))[r]
                        == if RecordMatches(r, c, today) then multiset(records)[r] else 0
  {
    var p := (r: Record) => RecordMatches(r, c, today);
    FilterIsSubseq(p, records);
    forall r ensures multiset(FilteredRecords(records, c, today))[r]
                     == if RecordMatches(r, c, today) then multiset(records)[r] else 0 {
      FilterMultiplicity(p, records, r);
    }
  }

  /** The buckets of the Active tab for a record that has an expected date:
      upcoming is due tomorrow, due-today is due today, overdue is past due. */
  lemma DueBuckets(r: Record, c: Criteria, today: int)
    requires c.tab == "Active" && r.expectedReturn.Some?
    ensures c.due == OneDayBefore ==> (MatchesDue(r, c, today) <==> DayNumber(r.expectedReturn.value) == today + 1)
    ensures c.due == DueToday ==> (MatchesDue(r, c, today) <==> DayNumber(r.expectedReturn.value) == today)
    ensures c.due == PastDue ==> (MatchesDue(r, c, today) <==> DayNumber(r.expectedReturn.value) < today)
  {
  }

  /** A record with no expected date is never excluded by the due-date
      bucket, and outside the "Active" tab the bucket is ignored. */
  lemma DueBucketPassThrough(r: Record, c: Criteria, today: int)
    requires r.expectedReturn.None? || c.tab != "Active"
    ensures MatchesDue(r, c, today)
  {
  }

  /** The due-date buckets agree with the overdue flag: on the "Active"
      tab, an open record in the overdue bucket is flagged overdue. */
  lemma PastDueBucketIsOverdue(r: Record, c: Criteria, today: int)
    requires c.tab == "Active" && c.due == PastDue && r.expectedReturn.Some?
    requires !IsReturned(r) && MatchesDue(r, c, today)
    ensures IsOverdue(r, today)
  {
  }

  /** With no search text and no year, month or bucket, the visible list is
      exactly the records of the chosen tab. */
  lemma NoFiltersShowsWholeTab(records: seq<Record>, c: Criteria, today: int)
    requires c.search == "" && c.year.None? && c.month.None? && c.due == AnyDue
    ensures FilteredRecords(records, c, today) == Filter(r => MatchesStatus(r, c), records)
  {
    forall i | 0 <= i < |records|
      ensures RecordMatches(records[i], c, today) == MatchesStatus(records[i], c)
    {
      ContainsEmpty(IntToString(records[i].id));
    }
    FilterCongruent(r => RecordMatches(r, c, today), r => MatchesStatus(r, c), records);
  }

  /** `wide` is `narrow` with some filters cleared (the tab is the same). */
  predicate Relaxes(wide: Criteria, narrow: Criteria)
  {
    wide.tab == narrow.tab
    && (wide.search == "" || wide.search == narrow.search)
    && (wide.year.None? || wide.year == narrow.year)
    && (wide.month.None? || wide.month == narrow.month)
    && (wide.due == AnyDue || wide.due == narrow.due)
  }

  /** Adding filters only narrows the visible list, keeping its order. */
  lemma MoreFiltersNarrow(records: seq<Record>, wide: Criteria, narrow: Criteria, today: int)
    requires Relaxes(wide, narrow)
    ensures Subseq(FilteredRecords(records, narrow, today), FilteredRecords(records, wide, today))
  {
    forall r | RecordMatches(r, narrow, today)
      ensures RecordMatches(r, wide, today)
    {
      ContainsEmpty(IntToString(r.id));
    }
    FilterNarrowing(r => RecordMatches(r, narrow, today), r => RecordMatches(r, wide, today), records);
  }

  /* ---------------- Summary counters ---------------- */

  predicate IsActive(r: Record)
  {
    StatusOf(r.rentalStatus) == Active
  }

  function TotalRentals(records: seq<Record>): nat
  {
    |records|
  }

  function TotalActive(records: seq<Record>): nat
  {
    Count(IsActive, records)
  }

  function TotalOverdue(records: seq<Record>, today: int): nat
  {
    Count(r => IsActive(r) && IsOverdue(r, today), records)
  }

  /** Overdue records are among the active ones, which are among all. */
  lemma CountersOrdered(records: seq<Record>, today: int)
    ensures TotalOverdue(records, today) <= TotalActive(records) <= TotalRentals(records)
  {
    CountMonotone(r => IsActive(r) && IsOverdue(r, today), IsActive, records);
  }

  /** The revenue card: the sum of the resolved totals. */
  function TotalRevenue(records: seq<Record>, today: int): int
  {
    Sum(r => TotalAmount(r, today), records)
  }

  /** Revenue never falls as today advances: frozen totals stay put and
      live totals only grow. */
  lemma RevenueMonotone(records: seq<Record>, t1: int, t2: int)
    requires t1 <= t2
    ensures TotalRevenue(records, t1) <= TotalRevenue(records, t2)
  {
    forall i | 0 <= i < |records|
      ensures TotalAmount(records[i], t1) <= TotalAmount(records[i], t2)
    {
      if IsReturned(records[i]) {
        FrozenTotalIgnoresToday(records[i], t1, t2);
      } else {
        LiveTotalMonotone(records[i], t1, t2);
      }
    }
    SumMonotone(r => TotalAmount(r, t1), r => TotalAmount(r, t2), records);
  }

  /* ---------------- Year options ---------------- */

  datatype YearOption = AllYears | Year(value: int)

  /** The rental years of the records, skipping undated records and the
      falsy year 0. */
  function RentalYears(records: seq<Record>): seq<int>
  {
    if records == [] then []
    else
      var rest := RentalYears(records[1..]);
      var d := records[0].rentalDate;
      if d.Some? && d.value.year != 0 then [d.value.year] + rest else rest
  }

  lemma {:induction false} RentalYearsMembership(records: seq<Record>, y: int)
    ensures y in RentalYears(records) <==>
            y != 0 && exists r :: r in records && r.rentalDate.Some? && r.rentalDate.value.year == y
  {
    if records != [] {
      RentalYearsMembership(records[1..], y);
      assert records == [records[0]] + records[1..];
    }
  }

  /** "All" followed by the given years as options. */
  function WithAll(ys: seq<int>): (opts: seq<YearOption>)
    ensures |opts| == |ys| + 1 && opts[0] == AllYears
    ensures forall i :: 0 <= i < |ys| ==> opts[i + 1] == Year(ys[i])
  {
    [AllYears] + seq(|ys|, i requires 0 <= i < |ys| => Year(ys[i]))
  }

  /** "All" followed by the distinct rental years, newest first. */
  function AvailableYears(records: seq<Record>): seq<YearOption>
  {
    WithAll(SortDesc(Distinct(RentalYears(records))))
  }

  lemma WithAllMembership(ys: seq<int>, y: int)
    ensures Year(y) in WithAll(ys) <==> y in ys
  {
    var opts := WithAll(ys);
    if Year(y) in opts {
      var k :| 0 <= k < |opts| && opts[k] == Year(y);
      assert ys[k - 1] == y;
    }
    if y in ys {
      var k :| 0 <= k < |ys| && ys[k] == y;
      assert opts[k + 1] == Year(y);
    }
  }

  /** A year is offered exactly when some record was rented in it (year 0
      excepted). */
  lemma AvailableYearMember(records: seq<Record>, y: int)
    ensures Year(y) in AvailableYears(records) <==>
            y != 0 && exists r :: r in records && r.rentalDate.Some? && r.rentalDate.value.year == y
  {
    var ds := Distinct(RentalYears(records));
    var ys := SortDesc(ds);
    WithAllMembership(ys, y);
    assert y in ys <==> y in multiset(ys);
    assert y in ds <==> y in multiset(ds);
    RentalYearsMembership(records, y);
  }

  /** The year options start with "All", list each year in which some record
      was rented exactly once, and go from the newest year to the oldest. */
  lemma AvailableYearsSpec(records: seq<Record>)
    ensures |AvailableYears(records)| >= 1 && AvailableYears(records)[0] == AllYears
    ensures forall y :: Year(y) in AvailableYears(records) <==>
              y != 0 && exists r :: r in records && r.rentalDate.Some? && r.rentalDate.value.year == y
    ensures forall i, j :: 1 <= i < j < |AvailableYears(records)| ==>
              AvailableYears(records)[i].value > AvailableYears(records)[j].value
  {
    var ys := SortDesc(Distinct(RentalYears(records)));
    SortDescStrict(Distinct(RentalYears(records)));
    var opts := WithAll(ys);
    assert forall i :: 1 <= i < |opts| ==> opts[i].value == ys[i - 1];
    forall y ensures Year(y) in AvailableYears(records) <==>
              y != 0 && exists r :: r in records && r.rentalDate.Some? && r.rentalDate.value.year == y {
      AvailableYearMember(records, y);
    }
  }
}
