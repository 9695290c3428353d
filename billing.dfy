/** The charge calculator, overdue classifier and total resolver of the
    admin record page. Dates are calendar dates; every span is a whole
    number of days obtained from day numbers, and "today" is the day
    number of the current date, passed in. Money is an integer. */
module Billing {
  import opened Common
  import opened Calendar

  /** The base rental package covers this many days. */
  const BaseRentalDays := 3
  /** Charge per day of an agreed rental beyond the base package. */
  const ExtraDayRate := 200
  /** Charge per day past the expected return date. */
  const OverdueDayRate := 250

  /** The two lifecycle states. Any other stored string matches neither. */
  datatype Status = Active | Returned | Unrecognised

  /** Statuses are compared after lower-casing, so "Returned", "returned"
      and "RETURNED" are all the terminal state; a missing status is "". */
  function StatusOf(raw: string): (s: Status)
    ensures s == Returned <==> Lower(raw) == "returned"
    ensures s == Active <==> Lower(raw) == "active"
  {
    if Lower(raw) == "returned" then Returned
    else if Lower(raw) == "active" then Active
    else Unrecognised
  }

  /** One rental record as the record list delivers it. `price` and
      `totalAmount` are 0 when the stored value is missing or falsy. */
  datatype Record = Record(
    id: int,
    attireId: Option<int>,
    attireName: Option<string>,
    customerName: Option<string>,
    price: int,
    rentalDate: Option<Date>,
    expectedReturn: Option<Date>,
    rentalStatus: string,
    totalAmount: int)

  /** The status the return action writes is the terminal state. */
  lemma ReturnedStatusIsTerminal()
    ensures StatusOf("returned") == Returned
  {
    assert Lower("returned") == "returned";
  }

  predicate IsReturned(r: Record)
  {
    StatusOf(r.rentalStatus) == Returned
  }

  predicate HasBothDates(r: Record)
  {
    r.rentalDate.Some? && r.expectedReturn.Some?
  }

  /** Whole days from the rental date to the expected return date. */
  function RentalSpan(r: Record): int
    requires HasBothDates(r)
  {
    DayNumber(r.expectedReturn.value) - DayNumber(r.rentalDate.value)
  }

  /** Days from the expected return date to `today` (negative before it). */
  function DaysPastDue(r: Record, today: int): int
    requires r.expectedReturn.Some?
  {
    today - DayNumber(r.expectedReturn.value)
  }

  function Max(a: int, b: int): int
  {
    if a >= b then a else b
  }

  datatype Extra = Extra(totalDays: int, extraDays: int, extraCharge: int)

  /** The extra-day charge: the rental lasts at least one day, the first
      three are covered by the base price, each further day costs 200. */
  function ExtraDays(r: Record): (e: Extra)
    ensures e.extraDays >= 0 && e.extraCharge == ExtraDayRate * e.extraDays
    ensures !HasBothDates(r) ==> e == Extra(0, 0, 0)
    ensures HasBothDates(r) && RentalSpan(r) <= 1 ==> e.totalDays == 1
    ensures HasBothDates(r) && RentalSpan(r) >= 1 ==> e.totalDays == RentalSpan(r)
    ensures HasBothDates(r) ==> e.extraDays == (if e.totalDays > BaseRentalDays then e.totalDays - BaseRentalDays else 0)
  {
    if !HasBothDates(r) then Extra(0, 0, 0)
    else
      var totalDays := Max(1, RentalSpan(r));
      var extraDays := Max(0, totalDays - BaseRentalDays);
      Extra(totalDays, extraDays, extraDays * ExtraDayRate)
  }

  /** The on-screen overdue flag: never for a returned record or one
      without an expected date; otherwise a full day past the due date. */
  predicate IsOverdue(r: Record, today: int)
  {
    if IsReturned(r) then false
    else if r.expectedReturn.None? then false
    else DaysPastDue(r, today) >= 1
  }

  datatype Fees = Fees(overdueDays: int, overdueCharge: int)

  /** The overdue fee. For an open record it is charged live, 250 per day
      past the due date. For a returned record it is read back out of the
      frozen total: whatever the total holds beyond price and extra charge
      (not clamped), and the days that charge stands for, rounded up. */
  function OverdueFees(r: Record, today: int): (f: Fees)
    ensures f.overdueDays >= 0
    ensures !IsReturned(r) ==> f.overdueCharge == OverdueDayRate * f.overdueDays
    ensures !IsReturned(r) && r.expectedReturn.None? ==> f == Fees(0, 0)
    ensures (!IsReturned(r) && r.expectedReturn.Some? && today <= DayNumber(r.expectedReturn.value))
            ==> f == Fees(0, 0)
    ensures (!IsReturned(r) && r.expectedReturn.Some? && today >= DayNumber(r.expectedReturn.value))
            ==> f.overdueDays == today - DayNumber(r.expectedReturn.value)
    ensures IsReturned(r) && r.totalAmount == 0 ==> f == Fees(0, 0)
    ensures (IsReturned(r) && r.totalAmount != 0)
            ==> f.overdueCharge == r.totalAmount - (r.price + ExtraDays(r).extraCharge)
                && f.overdueCharge <= OverdueDayRate * f.overdueDays
                && (f.overdueDays == 0 || OverdueDayRate * (f.overdueDays - 1) < f.overdueCharge)
  {
    if IsReturned(r) then
      if r.totalAmount == 0 then Fees(0, 0)
      else
        var charge := r.totalAmount - (r.price + ExtraDays(r).extraCharge);
        Fees(Max(0, CeilDiv(charge, OverdueDayRate)), charge)
    else if r.expectedReturn.None? then Fees(0, 0)
    else
      var days := Max(0, DaysPastDue(r, today));
      Fees(days, days * OverdueDayRate)
  }

  /** The amount the record page shows and sums: the stored total of a
      returned record, verbatim; otherwise the live price + extra + overdue. */
  function TotalAmount(r: Record, today: int): int
  {
    if IsReturned(r) then r.totalAmount
    else r.price + ExtraDays(r).extraCharge + OverdueFees(r, today).overdueCharge
  }

  /** The amount the detail view shows: always recomputed from the parts. */
  function DisplayAmount(r: Record, today: int): int
  {
    r.price + ExtraDays(r).extraCharge + OverdueFees(r, today).overdueCharge
  }

  /* ---------------- Extra-day charge ---------------- */

  /** A rental of at most three days costs no extra. */
  lemma ExtraFreeWithinBase(r: Record)
    requires HasBothDates(r) && RentalSpan(r) <= BaseRentalDays
    ensures ExtraDays(r).extraDays == 0 && ExtraDays(r).extraCharge == 0
  {
  }

  /** A rental of 3 + k days costs exactly k extra days at 200. */
  lemma ExtraBeyondBase(r: Record, k: nat)
    requires HasBothDates(r) && RentalSpan(r) == BaseRentalDays + k
    ensures ExtraDays(r) == Extra(BaseRentalDays + k, k, ExtraDayRate * k)
  {
  }

  /** An open record k days past its due date is charged k overdue days at
      250, and nothing up to and including the due date. */
  lemma LiveFeesCountDaysPastDue(r: Record, k: nat, t: int)
    requires !IsReturned(r) && r.expectedReturn.Some?
    ensures OverdueFees(r, DayNumber(r.expectedReturn.value) + k) == Fees(k, OverdueDayRate * k)
    ensures t <= DayNumber(r.expectedReturn.value) ==> OverdueFees(r, t) == Fees(0, 0)
  {
  }

  /** The extra charge never decreases as the agreed span grows. */
  lemma ExtraMonotoneInSpan(r1: Record, r2: Record)
    requires HasBothDates(r1) && HasBothDates(r2) && RentalSpan(r1) <= RentalSpan(r2)
    ensures ExtraDays(r1).extraCharge <= ExtraDays(r2).extraCharge
  {
  }

  /* ---------------- Overdue classification ---------------- */

  /** A returned record is never overdue, whatever day it is. */
  lemma ReturnedNeverOverdue(r: Record, today: int)
    requires IsReturned(r)
    ensures !IsOverdue(r, today)
  {
  }

  /** One day of grace: not overdue on the due date, overdue from the next
      day on, for every open record with an expected date. */
  lemma OverdueFromDayAfterDue(r: Record)
    requires !IsReturned(r) && r.expectedReturn.Some?
    ensures !IsOverdue(r, DayNumber(r.expectedReturn.value))
    ensures forall today :: today > DayNumber(r.expectedReturn.value) ==> IsOverdue(r, today)
  {
  }

  /** The flag and the fee agree: an open record is flagged overdue exactly
      when at least one overdue day is being charged. */
  lemma OverdueIffCharged(r: Record, today: int)
    requires !IsReturned(r)
    ensures IsOverdue(r, today) <==> OverdueFees(r, today).overdueDays >= 1
    ensures IsOverdue(r, today) <==> OverdueFees(r, today).overdueCharge >= OverdueDayRate
  {
  }

  /** The live fee is never negative and never shrinks as today advances. */
  lemma LiveFeesMonotone(r: Record, t1: int, t2: int)
    requires !IsReturned(r) && t1 <= t2
    ensures 0 <= OverdueFees(r, t1).overdueDays <= OverdueFees(r, t2).overdueDays
    ensures 0 <= OverdueFees(r, t1).overdueCharge <= OverdueFees(r, t2).overdueCharge
  {
  }

  /** The reconstruction of a returned record's fee undoes the way the
      return action froze it: a total of price + extra + 250k reads back
      as k overdue days and a charge of 250k. */
  lemma FrozenFeeRoundTrip(r: Record, today: int, k: nat)
    requires IsReturned(r) && r.price >= 0
    requires r.totalAmount == r.price + ExtraDays(r).extraCharge + OverdueDayRate * k
    ensures OverdueFees(r, today) == Fees(k, OverdueDayRate * k)
  {
    var charge := r.totalAmount - (r.price + ExtraDays(r).extraCharge);
    assert charge == OverdueDayRate * k;
    if r.totalAmount != 0 {
      assert CeilDiv(charge, OverdueDayRate) == k by {
        assert -charge == OverdueDayRate * (0 - k as int);
        DivideExact(0 - k as int);
      }
    }
  }

  /** The frozen charge is not clamped: a stored total below price plus
      extra charge reads back as no overdue days but a negative charge. */
  lemma FrozenChargeNotClamped(r: Record, today: int)
    requires IsReturned(r) && r.totalAmount != 0
    requires r.totalAmount < r.price + ExtraDays(r).extraCharge
    ensures OverdueFees(r, today).overdueDays == 0
    ensures OverdueFees(r, today).overdueCharge == r.totalAmount - (r.price + ExtraDays(r).extraCharge) < 0
  {
  }

  lemma DivideExact(m: int)
    ensures (OverdueDayRate * m) / OverdueDayRate == m
  {
  }

  /* ---------------- Total resolver ---------------- */

  /** A returned record's total is its stored total, whatever today is. */
  lemma FrozenTotalIgnoresToday(r: Record, t1: int, t2: int)
    requires IsReturned(r)
    ensures TotalAmount(r, t1) == TotalAmount(r, t2) == r.totalAmount
  {
  }

  /** An open record's total is at least its price and never decreases as
      today advances. */
  lemma LiveTotalMonotone(r: Record, t1: int, t2: int)
    requires !IsReturned(r) && t1 <= t2
    ensures r.price <= TotalAmount(r, t1) <= TotalAmount(r, t2)
  {
    LiveFeesMonotone(r, t1, t2);
  }

  /** Recomputing a returned record with a non-zero stored total gives back
      that total, so the detail view agrees with the list. */
  lemma DisplayMatchesFrozenTotal(r: Record, today: int)
    requires IsReturned(r) && r.totalAmount != 0
    ensures DisplayAmount(r, today) == TotalAmount(r, today) == r.totalAmount
  {
  }

  /** For an open record the detail view and the list show the same amount. */
  lemma DisplayMatchesLiveTotal(r: Record, today: int)
    requires !IsReturned(r)
    ensures DisplayAmount(r, today) == TotalAmount(r, today)
  {
  }
}
