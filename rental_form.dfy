/** The form that creates a rental record: the provisional total shown
    while it is filled in, the guard that keeps the return date on or after
    the rental date, the field validation run before submitting, and the
    attire picker (available items only, searchable by name or id). */
module RentalForm {
  import opened Common
  import opened Calendar
  import opened Items
  import Billing

  datatype RentalFormData = RentalFormData(
    attireId: Option<int>,
    attireName: string,
    priceOfRent: int,
    customerName: string,
    customerPhone: string,
    customerEmail: string,
    customerAddress: string,
    idType: string,
    idImage: Option<string>,
    rentalDate: Option<Date>,
    expectedReturnDate: Option<Date>,
    totalAmount: int,
    rentalStatus: string)

  /* ---------------- Provisional total ---------------- */

  /** The total shown on the form: nothing until both dates and a price are
      known, the bare price for a same-day or backwards span, and 200 per
      day beyond the first three otherwise. */
  function ComputeTotalAmount(rentalDate: Option<Date>, returnDate: Option<Date>, price: int): int
  {
    if rentalDate.None? || returnDate.None? || price == 0 then 0
    else
      var span := DayNumber(returnDate.value) - DayNumber(rentalDate.value);
      if span <= 0 then price
      else price + (if span > 3 then span - 3 else 0) * 200
  }

  datatype FormExtra = FormExtra(extraDays: int, extraCharge: int)

  /** The form's own extra-day breakdown, used for its receipt. */
  function ExtraDaysBetween(rentalDate: Option<Date>, returnDate: Option<Date>): (e: FormExtra)
    ensures e.extraDays >= 0 && e.extraCharge == 200 * e.extraDays
  {
    if rentalDate.None? || returnDate.None? then FormExtra(0, 0)
    else
      var span := DayNumber(returnDate.value) - DayNumber(rentalDate.value);
      var extraDays := Billing.Max(0, span - 3);
      FormExtra(extraDays, extraDays * 200)
  }

  /** The record this form describes, as the record page will read it. */
  function AsRecord(form: RentalFormData): Billing.Record
  {
    Billing.Record(0, form.attireId, Some(form.attireName), Some(form.customerName), form.priceOfRent,
                   form.rentalDate, form.expectedReturnDate, form.rentalStatus, form.totalAmount)
  }

  /** Until both dates and a price are filled in, the provisional total is 0. */
  lemma ProvisionalTotalIncomplete(rentalDate: Option<Date>, returnDate: Option<Date>, price: int)
    requires rentalDate.None? || returnDate.None? || price == 0
    ensures ComputeTotalAmount(rentalDate, returnDate, price) == 0
  {
  }

  /** With both dates and a price, the provisional total is the price plus
      the extra-day charge the record page will compute for the record. */
  lemma ProvisionalTotalMatchesRecordPage(form: RentalFormData)
    requires form.rentalDate.Some? && form.expectedReturnDate.Some? && form.priceOfRent != 0
    ensures ComputeTotalAmount(form.rentalDate, form.expectedReturnDate, form.priceOfRent)
            == form.priceOfRent + Billing.ExtraDays(AsRecord(form)).extraCharge
  {
  }

  /** The form's breakdown and the record page's breakdown agree. */
  lemma FormExtraMatchesRecordPage(form: RentalFormData)
    ensures ExtraDaysBetween(form.rentalDate, form.expectedReturnDate)
            == FormExtra(Billing.ExtraDays(AsRecord(form)).extraDays, Billing.ExtraDays(AsRecord(form)).extraCharge)
  {
  }

  /* ---------------- Field validation ---------------- */

  datatype Field = AttireIdField | CustomerNameField | CustomerPhoneField
                 | CustomerEmailField | CustomerAddressField | IdTypeField

  function Key(f: Field): string
  {
    match f
    case AttireIdField => "attire_id"
    case CustomerNameField => "customer_name"
    case CustomerPhoneField => "customer_phone"
    case CustomerEmailField => "customer_email"
    case CustomerAddressField => "customer_address"
    case IdTypeField => "id_type"
  }

  /** The fields checked for presence, in the order they are checked. */
  const Required: seq<Field> := [AttireIdField, CustomerNameField, CustomerPhoneField,
                                 CustomerEmailField, CustomerAddressField, IdTypeField]

  /** A field is filled when its value is truthy: a non-zero attire id or a
      non-empty text. */
  predicate Filled(form: RentalFormData, f: Field)
  {
    match f
    case AttireIdField => form.attireId.Some? && form.attireId.value != 0
    case CustomerNameField => form.customerName != ""
    case CustomerPhoneField => form.customerPhone != ""
    case CustomerEmailField => form.customerEmail != ""
    case CustomerAddressField => form.customerAddress != ""
    case IdTypeField => form.idType != ""
  }

  /** `s.replace(from, to)` with a one-character pattern: only the first
      occurrence is replaced. */
  function ReplaceFirst(s: string, from: char, to: char): (r: string)
    ensures |r| == |s|
    ensures from !in s ==> r == s
    ensures forall i :: 0 <= i < |s| ==> r[i] == (if s[i] == from && from !in s[..i] then to else s[i])
  {
    if s == [] then []
    else if s[0] == from then [to] + s[1..]
    else
      var rest := ReplaceFirst(s[1..], from, to);
      assert forall i :: 1 <= i < |s| ==> s[..i] == [s[0]] + s[1..][..i - 1];
      [s[0]] + rest
  }

  function MissingMessage(f: Field): string
  {
    "Please fill in " + ReplaceFirst(Key(f), '_', ' ')
  }

  const PhoneMessage := "Phone number must be 11 digits"
  const EmailMessage := "Please enter a valid email address"
  const ImageMessage := "Please upload an ID image"

  /** The position in `Required` of the first empty field, or |Required|
      when all are filled. */
  function FirstMissing(form: RentalFormData): (k: nat)
    ensures k <= |Required|
    ensures forall j :: 0 <= j < k ==> Filled(form, Required[j])
    ensures k < |Required| ==> !Filled(form, Required[k])
  {
    FirstMissingFrom(form, 0)
  }

  function FirstMissingFrom(form: RentalFormData, i: nat): (k: nat)
    requires i <= |Required|
    requires forall j :: 0 <= j < i ==> Filled(form, Required[j])
    ensures i <= k <= |Required|
    ensures forall j :: 0 <= j < k ==> Filled(form, Required[j])
    ensures k < |Required| ==> !Filled(form, Required[k])
    decreases |Required| - i
  {
    if i == |Required| || !Filled(form, Required[i]) then i else FirstMissingFrom(form, i + 1)
  }

  predicate IsDigit(c: char)
  {
    '0' <= c <= '9'
  }

  /** The pattern ^\d{11}$. */
  predicate IsPhone(s: string)
  {
    |s| == 11 && forall i :: 0 <= i < |s| ==> IsDigit(s[i])
  }

  /** Every character is in the class [^\s@]. */
  predicate Clean(s: string)
  {
    forall i :: 0 <= i < |s| ==> !IsSpace(s[i]) && s[i] != '@'
  }

  /** The pattern ^[^\s@]+@[^\s@]+\.[^\s@]+$, stated by its parts: a clean
      local part, an '@', a clean run, a '.', and a clean run. */
  ghost predicate EmailPattern(s: string)
  {
    exists at, dot :: 0 < at && at + 1 < dot < |s| - 1 && s[at] == '@' && s[dot] == '.'
      && Clean(s[..at]) && Clean(s[at + 1..dot]) && Clean(s[dot + 1..])
  }

  /** Position of the first '@', or -1. */
  function FirstAt(s: string): (i: int)
    ensures -1 <= i < |s|
    ensures i >= 0 ==> s[i] == '@'
    ensures forall j :: 0 <= j < |s| && (i == -1 || j < i) ==> s[j] != '@'
  {
    if s == [] then -1
    else if s[0] == '@' then 0
    else var k := FirstAt(s[1..]); if k == -1 then -1 else k + 1
  }

  /** The email check: split at the first '@'; the part before must be a
      non-empty clean run, the part after clean with a '.' that is neither
      its first nor its last character. */
  predicate IsEmail(s: string)
  {
    var at := FirstAt(s);
    0 < at && Clean(s[..at]) && Clean(s[at + 1..])
    && exists k :: at + 1 < k < |s| - 1 && s[k] == '.'
  }

  /** A slice of a clean run is clean. */
  lemma CleanSlice(s: string, i: int, j: int)
    requires 0 <= i <= j <= |s| && Clean(s)
    ensures Clean(s[i..j])
  {
    var t := s[i..j];
    forall k | 0 <= k < |t| ensures !IsSpace(t[k]) && t[k] != '@' {
      assert t[k] == s[i + k];
    }
  }

  /** Two clean runs joined by a '.' form a clean run. */
  lemma CleanAroundDot(s: string, from: int, dot: int)
    requires 0 <= from <= dot < |s| && s[dot] == '.'
    requires Clean(s[from..dot]) && Clean(s[dot + 1..])
    ensures Clean(s[from..])
  {
    var tail, mid, last := s[from..], s[from..dot], s[dot + 1..];
    forall i | 0 <= i < |tail| ensures !IsSpace(tail[i]) && tail[i] != '@' {
      if from + i < dot {
        assert tail[i] == mid[i];
      } else if from + i > dot {
        assert tail[i] == last[from + i - dot - 1];
      }
    }
  }

  lemma EmailMatchesPattern(s: string)
    requires IsEmail(s)
    ensures EmailPattern(s)
  {
    var at := FirstAt(s);
    var dot :| at + 1 < dot < |s| - 1 && s[dot] == '.';
    var tail := s[at + 1..];
    CleanSlice(tail, 0, dot - at - 1);
    CleanSlice(tail, dot - at, |tail|);
    assert tail[0..dot - at - 1] == s[at + 1..dot];
    assert tail[dot - at..|tail|] == s[dot + 1..];
  }

  lemma PatternPassesEmailCheck(s: string)
    requires EmailPattern(s)
    ensures IsEmail(s)
  {
    var at, dot :| 0 < at && at + 1 < dot < |s| - 1 && s[at] == '@' && s[dot] == '.'
      && Clean(s[..at]) && Clean(s[at + 1..dot]) && Clean(s[dot + 1..]);
    var head := s[..at];
    assert forall j :: 0 <= j < at ==> s[j] == head[j];
    assert FirstAt(s) == at;
    CleanAroundDot(s, at + 1, dot);
  }

  /** The email check accepts exactly the strings the pattern describes. */
  lemma EmailCheckMatchesPattern(s: string)
    ensures IsEmail(s) <==> EmailPattern(s)
  {
    if IsEmail(s) {
      EmailMatchesPattern(s);
    }
    if EmailPattern(s) {
      PatternPassesEmailCheck(s);
    }
  }

  /** validateFields: the presence checks in order, then the phone, the
      email and the ID image; the first failing check names the error. */
  method ValidateFields(form: RentalFormData, hasImage: bool) returns (ok: bool, error: Option<string>)
    ensures ok <==> error.None?
    ensures ok <==> (forall f :: f in Required ==> Filled(form, f))
                    && IsPhone(form.customerPhone) && IsEmail(form.customerEmail) && hasImage
    ensures FirstMissing(form) < |Required| ==> error == Some(MissingMessage(Required[FirstMissing(form)]))
    ensures FirstMissing(form) == |Required| && !IsPhone(form.customerPhone) ==> error == Some(PhoneMessage)
    ensures (FirstMissing(form) == |Required| && IsPhone(form.customerPhone) && !IsEmail(form.customerEmail))
            ==> error == Some(EmailMessage)
    ensures (FirstMissing(form) == |Required| && IsPhone(form.customerPhone) && IsEmail(form.customerEmail)
             && !hasImage) ==> error == Some(ImageMessage)
  {
    var i := 0;
    while i < |Required|
      invariant 0 <= i <= |Required|
      invariant forall j :: 0 <= j < i ==> Filled(form, Required[j])
    {
      if !Filled(form, Required[i]) {
        assert FirstMissing(form) == i;
        return false, Some(MissingMessage(Required[i]));
      }
      i := i + 1;
    }
    assert forall f :: f in Required ==> Filled(form, f);
    if !IsPhone(form.customerPhone) {
      return false, Some(PhoneMessage);
    }
    if !IsEmail(form.customerEmail) {
      return false, Some(EmailMessage);
    }
    if !hasImage {
      return false, Some(ImageMessage);
    }
    return true, None;
  }

  /** The phone box ignores an edit that would make it longer than 11. */
  function PhoneInput(current: string, typed: string): (next: string)
    ensures |next| <= 11 || next == current
    ensures |typed| <= 11 ==> next == typed
    ensures |typed| > 11 ==> next == current
  {
    if |typed| <= 11 then typed else current
  }

  /* ---------------- Attire picker ---------------- */

  /** Only items whose status is exactly "Available" can be picked. */
  function AvailableItems(items: seq<Item>): seq<Item>
  {
    Filter((item: Item) => item.status == "Available", items)
  }

  predicate SuggestionMatches(item: Item, query: string)
  {
    Contains(Lower(item.name), Lower(query)) || Contains(IntToString(item.id), query)
  }

  /** The suggestions under the attire box. */
  function Suggestions(items: seq<Item>, query: string): seq<Item>
  {
    Filter((item: Item) => SuggestionMatches(item, query), items)
  }

  /** The picker offers exactly the available items, in inventory order. */
  lemma AvailableItemsSelects(items: seq<Item>)
    ensures Subseq(AvailableItems(items), items)
    ensures forall item :: item in AvailableItems(items) <==> item in items && item.status == "Available"
  {
    var avail := (item: Item) => item.status == "Available";
    FilterIsSubseq(avail, items);
    forall item ensures item in AvailableItems(items) <==> item in items && item.status == "Available" {
      FilterMembership(avail, items, item);
    }
  }

  /** The suggestions keep picker order and are exactly the items whose name
      (ignoring case) or id text contains the query. */
  lemma SuggestionsSelect(items: seq<Item>, query: string)
    ensures Subseq(Suggestions(items, query), items)
    ensures forall item :: item in Suggestions(items, query) <==>
              item in items && (Contains(Lower(item.name), Lower(query)) || Contains(IntToString(item.id), query))
  {
    var sugg := (item: Item) => SuggestionMatches(item, query);
    FilterIsSubseq(sugg, items);
    forall item ensures item in Suggestions(items, query) <==> item in items && SuggestionMatches(item, query) {
      FilterMembership(sugg, items, item);
    }
  }

  /* ---------------- The form state ---------------- */

  datatype DateField = RentalDateField | ExpectedReturnField

  predicate DatesOrdered(form: RentalFormData)
  {
    form.rentalDate.Some? && form.expectedReturnDate.Some? ==>
      DayNumber(form.rentalDate.value) <= DayNumber(form.expectedReturnDate.value)
  }

  predicate TotalConsistent(form: RentalFormData)
  {
    form.totalAmount == ComputeTotalAmount(form.rentalDate, form.expectedReturnDate, form.priceOfRent)
  }

  const DateOrderMessage := "Expected return date cannot be before rental date."

  /** The empty form, with the rental date today and the return date a week
      later. */
  function InitialForm(defaultStatus: string, today: Date): RentalFormData
    requires ValidDate(today)
  {
    RentalFormData(None, "", 0, "", "", "", "", "", None,
                   Some(today), Some(AddDays(today, 7)), 0, defaultStatus)
  }

  /** A file chosen for the ID image: its name and its size in bytes. */
  datatype ImageFile = ImageFile(name: string, size: nat)

  /** The largest ID image accepted: 5 MB. */
  const MaxImageBytes := 5 * 1024 * 1024
  const ImageTooLargeMessage := "Image size must be less than 5MB"

  class RentalFormState {
    var form: RentalFormData
    var error: Option<string>
    /** The preview of the uploaded ID image. */
    var imgSrc: Option<string>
    /** The items the picker can offer. */
    var items: seq<Item>
    var attireQuery: string

    /** What the form keeps true between edits: the return date is not before
        the rental date, the total matches the dates and price, and the phone
        holds at most 11 characters. */
    ghost predicate Valid()
      reads this
    {
      DatesOrdered(form) && TotalConsistent(form) && |form.customerPhone| <= 11
    }

    constructor(defaultStatus: string, today: Date)
      requires ValidDate(today)
      ensures Valid()
      ensures form == InitialForm(defaultStatus, today)
      ensures error == None && imgSrc == None && items == [] && attireQuery == ""
    {
      AddDaysCountsDays(today, 7);
      form := InitialForm(defaultStatus, today);
      error := None;
      imgSrc := None;
      items := [];
      attireQuery := "";
    }

    /** The inventory arrives: keep only the available items. */
    method LoadItems(fetched: seq<Item>)
      requires Valid()
      modifies this
      ensures Valid()
      ensures items == AvailableItems(fetched)
      ensures form == old(form) && error == old(error) && imgSrc == old(imgSrc) && attireQuery == old(attireQuery)
    {
      items := AvailableItems(fetched);
    }

    /** handleDateChange: a return date before the rental date is refused
        with an error and changes nothing; otherwise the date is stored and
        the total recomputed from the new dates. */
    method HandleDateChange(field: DateField, value: Option<Date>)
      requires Valid()
      modifies this
      ensures Valid()
      ensures var start := if field == RentalDateField then value else old(form).rentalDate;
              var end := if field == ExpectedReturnField then value else old(form).expectedReturnDate;
              if start.Some? && end.Some? && DayNumber(end.value) < DayNumber(start.value)
              then form == old(form) && error == Some(DateOrderMessage)
              else form == old(form).(rentalDate := start, expectedReturnDate := end,
                                      totalAmount := ComputeTotalAmount(start, end, old(form).priceOfRent))
                   && error == old(error)
      ensures imgSrc == old(imgSrc) && items == old(items) && attireQuery == old(attireQuery)
    {
      var start := if field == RentalDateField then value else form.rentalDate;
      var end := if field == ExpectedReturnField then value else form.expectedReturnDate;
      if start.Some? && end.Some? && DayNumber(end.value) < DayNumber(start.value) {
        error := Some(DateOrderMessage);
        return;
      }
      if field == RentalDateField {
        form := form.(rentalDate := value);
      } else {
        form := form.(expectedReturnDate := value);
      }
      var total := ComputeTotalAmount(start, end, form.priceOfRent);
      form := form.(totalAmount := total);
    }

    /** Picking a suggestion fills in the attire, its price and the total. */
    method SelectAttire(item: Item)
      requires Valid()
      modifies this
      ensures Valid()
      ensures form == old(form).(attireId := Some(item.id), attireName := item.name, priceOfRent := item.price,
                                 totalAmount := ComputeTotalAmount(old(form).rentalDate, old(form).expectedReturnDate, item.price))
      ensures attireQuery == item.name + " (" + IntToString(item.id) + ")"
      ensures error == old(error) && imgSrc == old(imgSrc) && items == old(items)
    {
      form := form.(attireId := Some(item.id), attireName := item.name, priceOfRent := item.price);
      attireQuery := item.name + " (" + IntToString(item.id) + ")";
      var total := ComputeTotalAmount(form.rentalDate, form.expectedReturnDate, item.price);
      form := form.(totalAmount := total);
    }

    /** Typing in the phone box. */
    method PhoneChange(typed: string)
      requires Valid()
      modifies this
      ensures Valid()
      ensures form == old(form).(customerPhone := PhoneInput(old(form).customerPhone, typed))
      ensures error == old(error) && imgSrc == old(imgSrc) && items == old(items) && attireQuery == old(attireQuery)
    {
      if |typed| <= 11 {
        form := form.(customerPhone := typed);
      }
    }

    /** handleIdImageChange: no file chosen changes nothing; a file over
        5 MB is refused with an error; otherwise it becomes the ID image and
        its preview. The preview stands for the data URL the browser reads. */
    method ChooseIdImage(file: Option<ImageFile>)
      requires Valid()
      modifies this
      ensures Valid()
      ensures items == old(items) && attireQuery == old(attireQuery)
      ensures file.None? ==> form == old(form) && error == old(error) && imgSrc == old(imgSrc)
      ensures (file.Some? && file.value.size > MaxImageBytes)
              ==> form == old(form) && error == Some(ImageTooLargeMessage) && imgSrc == old(imgSrc)
      ensures (file.Some? && file.value.size <= MaxImageBytes)
              ==> form == old(form).(idImage := Some(file.value.name)) && imgSrc == Some(file.value.name)
                  && error == old(error)
    {
      if file.Some? {
        if file.value.size > MaxImageBytes {
          error := Some(ImageTooLargeMessage);
        } else {
          imgSrc := Some(file.value.name);
          form := form.(idImage := Some(file.value.name));
        }
      }
    }

    /** handleSubmit: validate, and hand the form on only when valid. */
    method HandleSubmit() returns (submitted: bool)
      requires Valid()
      modifies this
      ensures Valid()
      ensures submitted <==> (forall f :: f in Required ==> Filled(form, f))
                             && IsPhone(form.customerPhone) && IsEmail(form.customerEmail) && imgSrc.Some?
      ensures form == old(form) && imgSrc == old(imgSrc) && items == old(items) && attireQuery == old(attireQuery)
      ensures submitted ==> error == old(error)
      ensures !submitted ==> error.Some?
      ensures FirstMissing(form) < |Required| ==> error == Some(MissingMessage(Required[FirstMissing(form)]))
      ensures FirstMissing(form) == |Required| && !IsPhone(form.customerPhone) ==> error == Some(PhoneMessage)
      ensures (FirstMissing(form) == |Required| && IsPhone(form.customerPhone) && !IsEmail(form.customerEmail))
              ==> error == Some(EmailMessage)
      ensures (FirstMissing(form) == |Required| && IsPhone(form.customerPhone) && IsEmail(form.customerEmail)
               && imgSrc.None?) ==> error == Some(ImageMessage)
    {
      var ok, message := ValidateFields(form, imgSrc.Some?);
      if !ok {
        error := message;
        return false;
      }
      return true;
    }
  }
}
