/** The return action: the final amount is computed once, on the day of
    return, and persisted as two separate writes to the record store, the
    amount first and the status second. The store is a map from record id
    to record plus the log of requests it received; whether a request
    succeeds is decided by the store's reply, which is an input here. */
module MarkReturn {
  import opened Common
  import opened Calendar
  import opened Billing

  /** The final amount as the return action computes it: the base price
      alone when a date is missing, otherwise price, extra-day charge and
      the overdue charge as of `today`. */
  function FinalAmount(r: Record, today: int): int
  {
    if !HasBothDates(r) then r.price
    else
      var totalDays := Max(1, RentalSpan(r));
      var extraDays := Max(0, totalDays - BaseRentalDays);
      var overdueDays := Max(0, DaysPastDue(r, today));
      r.price + extraDays * ExtraDayRate + overdueDays * OverdueDayRate
  }

  /** Without both dates nothing is charged beyond the price. */
  lemma FinalAmountWithoutDates(r: Record, today: int)
    requires !HasBothDates(r)
    ensures FinalAmount(r, today) == r.price
  {
  }

  /** The frozen amount is the amount the record page showed live for the
      same open record on the same day. */
  lemma FinalAmountIsLiveTotal(r: Record, today: int)
    requires !IsReturned(r)
    requires HasBothDates(r) || r.expectedReturn.None?
    ensures FinalAmount(r, today) == TotalAmount(r, today)
  {
  }

  /** The one case where the two disagree: an open record with an expected
      date but no rental date is frozen at its bare price, although the
      record page charges it overdue days. */
  lemma FinalAmountDropsFeeWithoutRentalDate(r: Record, today: int)
    requires !IsReturned(r) && r.rentalDate.None? && r.expectedReturn.Some?
    ensures TotalAmount(r, today) == FinalAmount(r, today) + OverdueFees(r, today).overdueCharge
  {
  }

  /** The final amount is at least the price and grows with the return day. */
  lemma FinalAmountMonotone(r: Record, t1: int, t2: int)
    requires t1 <= t2
    ensures r.price <= FinalAmount(r, t1) <= FinalAmount(r, t2)
  {
  }

  /** The record as it is after both writes succeed. */
  function Returned(r: Record, amount: int): Record
  {
    r.(totalAmount := amount, rentalStatus := "returned")
  }

  /** Returning freezes the bill: from then on the record page shows the
      amount of the return day on every later day, and reads back the same
      overdue days and charge that were billed on the return day. */
  lemma ReturnFreezesBill(r: Record, returnDay: int, later: int)
    requires !IsReturned(r) && HasBothDates(r) && r.price >= 0
    ensures var frozen := Returned(r, FinalAmount(r, returnDay));
            IsReturned(frozen)
            && TotalAmount(frozen, later) == FinalAmount(r, returnDay)
            && OverdueFees(frozen, later) == OverdueFees(r, returnDay)
  {
    var amount := FinalAmount(r, returnDay);
    var frozen := Returned(r, amount);
    ReturnedStatusIsTerminal();
    FinalAmountIsLiveTotal(r, returnDay);
    var k := Max(0, DaysPastDue(r, returnDay));
    assert OverdueFees(r, returnDay) == Fees(k, OverdueDayRate * k);
    assert ExtraDays(frozen) == ExtraDays(r);
    FrozenFeeRoundTrip(frozen, later, k);
  }

  /** If the amount is written but the status write fails, the record stays
      open and its live total ignores the amount that was written. */
  lemma PartialReturnIsHarmless(r: Record, amount: int, today: int)
    requires !IsReturned(r)
    ensures !IsReturned(r.(totalAmount := amount))
    ensures TotalAmount(r.(totalAmount := amount), today) == TotalAmount(r, today)
  {
  }

  /* ---------------- The record store and its two writes ---------------- */

  datatype Request =
    | TotalUpdate(id: int, totalAmount: int)
    | StatusUpdate(id: int, attireId: Option<int>, rentalStatus: string)

  /** The store's answer to one request: a reply carrying its `success`
      flag and optional message, or no answer at all. */
  datatype Reply = Ack(success: bool, message: Option<string>) | NoConnection

  predicate Succeeded(reply: Reply)
  {
    reply.Ack? && reply.success
  }

  function WithTotal(records: map<int, Record>, id: int, amount: int): map<int, Record>
  {
    if id in records then records[id := records[id].(totalAmount := amount)] else records
  }

  function WithStatus(records: map<int, Record>, id: int, status: string): map<int, Record>
  {
    if id in records then records[id := records[id].(rentalStatus := status)] else records
  }

  class RecordStore {
    var records: map<int, Record>
    var requests: seq<Request>

    constructor(initial: map<int, Record>)
      ensures records == initial && requests == []
    {
      records := initial;
      requests := [];
    }

    /** Write #1: the total-amount endpoint. */
    method PutTotal(id: int, amount: int, reply: Reply) returns (ok: bool)
      modifies this
      ensures ok == Succeeded(reply)
      ensures requests == old(requests) + [TotalUpdate(id, amount)]
      ensures records == if ok then WithTotal(old(records), id, amount) else old(records)
    {
      requests := requests + [TotalUpdate(id, amount)];
      ok := Succeeded(reply);
      if ok {
        records := WithTotal(records, id, amount);
      }
    }

    /** Write #2: the record-edit endpoint, used here for the status. */
    method PutStatus(id: int, attireId: Option<int>, status: string, reply: Reply) returns (ok: bool)
      modifies this
      ensures ok == Succeeded(reply)
      ensures requests == old(requests) + [StatusUpdate(id, attireId, status)]
      ensures records == if ok then WithStatus(old(records), id, status) else old(records)
    {
      requests := requests + [StatusUpdate(id, attireId, status)];
      ok := Succeeded(reply);
      if ok {
        records := WithStatus(records, id, status);
      }
    }
  }

  datatype Notice = Success(text: string) | Failure(text: string)

  const AmountFailedText := "Failed to update total amount."
  const StatusFailedText := "Failed to update status."
  const ConnectionFailedText := "Error connecting to server."
  const ReturnedText := "Record returned successfully! Total amount updated with overdue fees."

  /** The message shown after a confirmed return, given both replies. */
  function OutcomeNotice(totalReply: Reply, statusReply: Reply): Notice
  {
    if totalReply.NoConnection? then Failure(ConnectionFailedText)
    else if !totalReply.success then Failure(AmountFailedText)
    else if statusReply.NoConnection? then Failure(ConnectionFailedText)
    else if statusReply.success then Success(ReturnedText)
    else Failure(if statusReply.message.Some? && statusReply.message.value != "" then statusReply.message.value
                 else StatusFailedText)
  }

  /** The "mark as returned" button with its confirmation dialog. */
  class ReturnButton {
    const record: Record
    var showConfirm: bool
    var notice: Option<Notice>
    /** Whether the page has been told that the return went through. */
    var reportedReturned: bool

    constructor(record: Record)
      ensures this.record == record
      ensures !showConfirm && notice == None && !reportedReturned
    {
      this.record := record;
      showConfirm := false;
      notice := None;
      reportedReturned := false;
    }

    /** Pressing the button only opens the confirmation dialog. */
    method ReturnClick()
      modifies this
      ensures showConfirm
      ensures notice == old(notice) && reportedReturned == old(reportedReturned)
    {
      showConfirm := true;
    }

    /** Cancelling closes the dialog and sends nothing. */
    method Cancel(store: RecordStore)
      modifies this
      ensures !showConfirm
      ensures notice == old(notice) && reportedReturned == old(reportedReturned)
      ensures store.records == old(store.records) && store.requests == old(store.requests)
    {
      showConfirm := false;
    }

    /** Confirming, which the open dialog alone offers: close the dialog,
        write the amount, stop if that failed, then write the status. The
        page hears of the return only when both writes succeed. */
    method Confirm(store: RecordStore, today: int, totalReply: Reply, statusReply: Reply)
      requires showConfirm
      modifies this, store
      ensures !showConfirm
      ensures var amount := FinalAmount(record, today);
              store.requests == old(store.requests) + [TotalUpdate(record.id, amount)]
                + (if Succeeded(totalReply)
                   then [StatusUpdate(record.id, record.attireId, "returned")] else [])
      ensures var amount := FinalAmount(record, today);
              store.records ==
                if !Succeeded(totalReply) then old(store.records)
                else if !Succeeded(statusReply) then WithTotal(old(store.records), record.id, amount)
                else WithStatus(WithTotal(old(store.records), record.id, amount), record.id, "returned")
      ensures notice == Some(OutcomeNotice(totalReply, statusReply))
      ensures reportedReturned == (old(reportedReturned) || (Succeeded(totalReply) && Succeeded(statusReply)))
    {
      showConfirm := false;
      var amount := FinalAmount(record, today);
      var amountOk := store.PutTotal(record.id, amount, totalReply);
      if !amountOk {
        notice := Some(if totalReply.NoConnection? then Failure(ConnectionFailedText) else Failure(AmountFailedText));
        return;
      }
      var statusOk := store.PutStatus(record.id, record.attireId, "returned", statusReply);
      if statusOk {
        notice := Some(Success(ReturnedText));
        reportedReturned := true;
      } else if statusReply.NoConnection? {
        notice := Some(Failure(ConnectionFailedText));
      } else {
        notice := Some(Failure(if statusReply.message.Some? && statusReply.message.value != ""
                               then statusReply.message.value else StatusFailedText));
      }
    }
  }

  /** After a fully successful return the stored record is returned and
      carries the final amount; its bill is frozen from then on. */
  lemma StoredRecordAfterReturn(records: map<int, Record>, r: Record, today: int)
    requires r.id in records && records[r.id] == r
    ensures var after := WithStatus(WithTotal(records, r.id, FinalAmount(r, today)), r.id, "returned");
            r.id in after && after[r.id] == Returned(r, FinalAmount(r, today))
            && IsReturned(after[r.id])
  {
    ReturnedStatusIsTerminal();
  }
}
