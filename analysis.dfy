/** The analysis page: the year selector's options, the records of the
    chosen year, their revenue, and the twelve monthly buckets of rentals
    and revenue. Amounts here are the stored totals, read as they are. */
module Analysis {
  import opened Common
  import opened Calendar
  import opened Billing

  /* ---------------- Years ---------------- */

  /** The rental year of every dated record, in record order. */
  function DatedYears(records: seq<Record>): seq<int>
  {
    if records == [] then []
    else
      var rest := DatedYears(records[1..]);
      if records[0].rentalDate.Some? then [records[0].rentalDate.value.year] + rest else rest
  }

  lemma {:induction false} DatedYearsMembership(records: seq<Record>, y: int)
    ensures y in DatedYears(records) <==>
            exists r :: r in records && r.rentalDate.Some? && r.rentalDate.value.year == y
  {
    if records != [] {
      DatedYearsMembership(records[1..], y);
      assert records == [records[0]] + records[1..];
    }
  }

  /** The years offered: each rental year once, newest first. */
  function UniqueYears(records: seq<Record>): seq<int>
  {
    SortDesc(Distinct(DatedYears(records)))
  }

  /** The year options are strictly decreasing, so each appears once, and
      they are exactly the years in which some dated record was rented. */
  lemma UniqueYearsSpec(records: seq<Record>)
    ensures StrictlyDesc(UniqueYears(records))
    ensures forall y :: y in UniqueYears(records) <==>
              exists r :: r in records && r.rentalDate.Some? && r.rentalDate.value.year == y
  {
    var ds := Distinct(DatedYears(records));
    SortDescStrict(ds);
    forall y ensures y in UniqueYears(records) <==>
                     exists r :: r in records && r.rentalDate.Some? && r.rentalDate.value.year == y {
      assert y in UniqueYears(records) <==> y in multiset(UniqueYears(records));
      assert y in ds <==> y in multiset(ds);
      DatedYearsMembership(records, y);
    }
  }

  /* ---------------- Year filter ---------------- */

  datatype YearChoice = EveryYear | OneYear(year: int)

  /** Undated records are always dropped; "all" keeps every dated record. */
  predicate KeptForYear(r: Record, choice: YearChoice)
  {
    r.rentalDate.Some? && (choice.EveryYear? || r.rentalDate.value.year == choice.year)
  }

  function YearFiltered(records: seq<Record>, choice: YearChoice): seq<Record>
  {
    Filter(r => KeptForYear(r, choice), records)
  }

  lemma YearFilterSelects(records: seq<Record>, choice: YearChoice)
    ensures Subseq(YearFiltered(records, choice), records)
    ensures forall r :: r in YearFiltered(records, choice) <==>
              r in records && r.rentalDate.Some?
              && (choice.EveryYear? || r.rentalDate.value.year == choice.year)
  {
    var p := (r: Record) => KeptForYear(r, choice);
    FilterIsSubseq(p, records);
    forall r ensures r in YearFiltered(records, choice) <==> r in records && KeptForYear(r, choice) {
      FilterMembership(p, records, r);
    }
  }

  /* ---------------- Revenue and monthly buckets ---------------- */

  /** The revenue card: the stored totals added up from the left. */
  function TotalRevenue(rs: seq<Record>): int
  {
    if rs == [] then 0 else TotalRevenue(rs[..|rs| - 1]) + rs[|rs| - 1].totalAmount
  }

  /** The bucket a record is counted in: its rental month from 0 to 11, or
      -1 when it has no month that names a bucket. */
  function MonthIndex(r: Record): (m: int)
    ensures -1 <= m < 12
    ensures r.rentalDate.Some? && 1 <= r.rentalDate.value.month <= 12 ==> m == r.rentalDate.value.month - 1
    ensures m == -1 <==> r.rentalDate.None? || !(1 <= r.rentalDate.value.month <= 12)
  {
    if r.rentalDate.Some? && 1 <= r.rentalDate.value.month <= 12 then r.rentalDate.value.month - 1 else -1
  }

  /** The number of records whose bucket is `m`. */
  function MonthCount(rs: seq<Record>, m: int): nat
  {
    if rs == [] then 0
    else MonthCount(rs[..|rs| - 1], m) + (if MonthIndex(rs[|rs| - 1]) == m then 1 else 0)
  }

  /** Slot m of the rental chart counts the records rented in calendar
      month m + 1: slot 0 is January, slot 11 December. */
  lemma {:induction false} MonthCountIsCalendarMonth(rs: seq<Record>, m: int)
    requires 0 <= m < 12
    ensures MonthCount(rs, m) == Count((r: Record) => r.rentalDate.Some? && r.rentalDate.value.month == m + 1, rs)
  {
    if rs != [] {
      var init := rs[..|rs| - 1];
      MonthCountIsCalendarMonth(init, m);
      CountSnoc((r: Record) => r.rentalDate.Some? && r.rentalDate.value.month == m + 1, init, rs[|rs| - 1]);
      assert init + [rs[|rs| - 1]] == rs;
    }
  }

  /** The stored totals of the records whose bucket is `m`. */
  function MonthRevenue(rs: seq<Record>, m: int): int
  {
    if rs == [] then 0
    else MonthRevenue(rs[..|rs| - 1], m) + (if MonthIndex(rs[|rs| - 1]) == m then rs[|rs| - 1].totalAmount else 0)
  }

  /** The records that fall in some bucket, and their stored totals. */
  function Bucketed(rs: seq<Record>): nat
  {
    if rs == [] then 0
    else Bucketed(rs[..|rs| - 1]) + (if MonthIndex(rs[|rs| - 1]) >= 0 then 1 else 0)
  }

  function BucketedRevenue(rs: seq<Record>): int
  {
    if rs == [] then 0
    else BucketedRevenue(rs[..|rs| - 1]) + (if MonthIndex(rs[|rs| - 1]) >= 0 then rs[|rs| - 1].totalAmount else 0)
  }

  function Total12(b: seq<int>): int
    requires |b| == 12
  {
    b[0] + b[1] + b[2] + b[3] + b[4] + b[5] + b[6] + b[7] + b[8] + b[9] + b[10] + b[11]
  }

  /** Each record lands in at most one bucket, so the twelve counts add up
      to the number of records that land in one. */
  lemma {:induction false} MonthCountsAddUp(rs: seq<Record>)
    ensures MonthCount(rs, 0) + MonthCount(rs, 1) + MonthCount(rs, 2) + MonthCount(rs, 3)
            + MonthCount(rs, 4) + MonthCount(rs, 5) + MonthCount(rs, 6) + MonthCount(rs, 7)
            + MonthCount(rs, 8) + MonthCount(rs, 9) + MonthCount(rs, 10) + MonthCount(rs, 11)
            == Bucketed(rs)
  {
    if rs != [] {
      MonthCountsAddUp(rs[..|rs| - 1]);
    }
  }

  lemma {:induction false} MonthRevenuesAddUp(rs: seq<Record>)
    ensures MonthRevenue(rs, 0) + MonthRevenue(rs, 1) + MonthRevenue(rs, 2) + MonthRevenue(rs, 3)
            + MonthRevenue(rs, 4) + MonthRevenue(rs, 5) + MonthRevenue(rs, 6) + MonthRevenue(rs, 7)
            + MonthRevenue(rs, 8) + MonthRevenue(rs, 9) + MonthRevenue(rs, 10) + MonthRevenue(rs, 11)
            == BucketedRevenue(rs)
  {
    if rs != [] {
      MonthRevenuesAddUp(rs[..|rs| - 1]);
    }
  }

  /** When every record has a month, every record is in a bucket: the counts
      add up to the number of records and the revenues to the total. */
  lemma {:induction false} AllBucketed(rs: seq<Record>)
    requires forall i :: 0 <= i < |rs| ==> MonthIndex(rs[i]) >= 0
    ensures Bucketed(rs) == |rs|
    ensures BucketedRevenue(rs) == TotalRevenue(rs)
  {
    if rs != [] {
      AllBucketed(rs[..|rs| - 1]);
    }
  }

  /** The twelve rental counters, one pass over the records. */
  method MonthlyRentals(filtered: seq<Record>) returns (rentals: seq<int>)
    ensures |rentals| == 12
    ensures forall m :: 0 <= m < 12 ==> rentals[m] == MonthCount(filtered, m)
    ensures Total12(rentals) == Bucketed(filtered)
  {
    var a := new int[12](_ => 0);
    var i := 0;
    while i < |filtered|
      invariant 0 <= i <= |filtered|
      invariant forall m :: 0 <= m < 12 ==> a[m] == MonthCount(filtered[..i], m)
    {
      var r := filtered[i];
      assert filtered[..i + 1][..i] == filtered[..i];
      assert filtered[..i + 1][i] == r;
      var m := MonthIndex(r);
      if m >= 0 {
        a[m] := a[m] + 1;
      }
      i := i + 1;
    }
    assert filtered[..i] == filtered;
    rentals := a[..];
    MonthCountsAddUp(filtered);
  }

  /** The twelve revenue counters, one pass over the records. */
  method MonthlyRevenue(filtered: seq<Record>) returns (revenue: seq<int>)
    ensures |revenue| == 12
    ensures forall m :: 0 <= m < 12 ==> revenue[m] == MonthRevenue(filtered, m)
    ensures Total12(revenue) == BucketedRevenue(filtered)
  {
    var a := new int[12](_ => 0);
    var i := 0;
    while i < |filtered|
      invariant 0 <= i <= |filtered|
      invariant forall m :: 0 <= m < 12 ==> a[m] == MonthRevenue(filtered[..i], m)
    {
      var r := filtered[i];
      assert filtered[..i + 1][..i] == filtered[..i];
      assert filtered[..i + 1][i] == r;
      var m := MonthIndex(r);
      if m >= 0 {
        a[m] := a[m] + r.totalAmount;
      }
      i := i + 1;
    }
    assert filtered[..i] == filtered;
    revenue := a[..];
    MonthRevenuesAddUp(filtered);
  }

  /** For the records of a chosen year whose months are calendar months, the
      rental chart adds up to the number of records and the revenue chart to
      the revenue card. */
  lemma ChartsMatchCards(records: seq<Record>, choice: YearChoice)
    requires forall r :: r in records && r.rentalDate.Some? ==> 1 <= r.rentalDate.value.month <= 12
    ensures var rs := YearFiltered(records, choice);
            Bucketed(rs) == |rs| && BucketedRevenue(rs) == TotalRevenue(rs)
  {
    var rs := YearFiltered(records, choice);
    YearFilterSelects(records, choice);
    forall i | 0 <= i < |rs| ensures MonthIndex(rs[i]) >= 0 {
      assert rs[i] in rs;
    }
    AllBucketed(rs);
  }
}
