/** The "add item" form of the inventory page: its initial and reset
    state, the required-field check run on submit, and the multipart
    payload it sends, in which the image is always present and every other
    field only when it is non-empty. */
module AddItem {
  import opened Common

  /** The form. Every field is text except the chosen image file, named
      here by its file name; `dateAdded` is the ISO date text. */
  datatype ItemForm = ItemForm(
    name: string,
    category: string,
    gender: string,
    size: string,
    color: string,
    rentalPrice: string,
    material: string,
    status: string,
    img: Option<string>,
    dateAdded: string,
    description: string)

  /** The form's fields, in the order the form object lists them. */
  datatype ItemField = Name | Category | Gender | Size | Color | RentalPrice
                     | Material | Status | Img | DateAdded | Description

  const FieldOrder: seq<ItemField> :=
    [Name, Category, Gender, Size, Color, RentalPrice, Material, Status, Img, DateAdded, Description]

  function Key(f: ItemField): string
  {
    match f
    case Name => "name"
    case Category => "category"
    case Gender => "gender"
    case Size => "size"
    case Color => "color"
    case RentalPrice => "rentalPrice"
    case Material => "material"
    case Status => "status"
    case Img => "img"
    case DateAdded => "dateAdded"
    case Description => "description"
  }

  /** The text of a text field ("" for the image, which is not text). */
  function Text(form: ItemForm, f: ItemField): string
  {
    match f
    case Name => form.name
    case Category => form.category
    case Gender => form.gender
    case Size => form.size
    case Color => form.color
    case RentalPrice => form.rentalPrice
    case Material => form.material
    case Status => form.status
    case Img => ""
    case DateAdded => form.dateAdded
    case Description => form.description
  }

  /** The form a new or reset dialog shows. */
  function EmptyForm(today: string): ItemForm
  {
    ItemForm("", "", "", "", "", "", "", "Available", None, today, "")
  }

  /* ---------------- Required fields ---------------- */

  /** The fields checked on submit, in the order they are checked; the
      status is not among them. */
  const RequiredFields: seq<ItemField> :=
    [Name, Category, Gender, Size, Color, Material, RentalPrice, Description, DateAdded, Img]

  /** A required field is missing when it is the absent image, or a text
      whose trimmed form is empty. */
  predicate FieldMissing(form: ItemForm, f: ItemField)
  {
    if f == Img then form.img.None? else Trim(Text(form, f)) == ""
  }

  /** `requiredFields.some(...)`: some required field is missing. */
  predicate Missing(form: ItemForm)
  {
    exists k :: 0 <= k < |RequiredFields| && FieldMissing(form, RequiredFields[k])
  }

  /** The same check, field by field, with blank meaning all white space. */
  predicate MissingByField(form: ItemForm)
  {
    form.img.None? || IsBlank(form.name) || IsBlank(form.category) || IsBlank(form.gender)
    || IsBlank(form.size) || IsBlank(form.color) || IsBlank(form.material)
    || IsBlank(form.rentalPrice) || IsBlank(form.description) || IsBlank(form.dateAdded)
  }

  lemma FieldMissingIsBlank(form: ItemForm, f: ItemField)
    requires f != Img
    ensures FieldMissing(form, f) <==> IsBlank(Text(form, f))
  {
    TrimEmptyIffBlank(Text(form, f));
  }

  /** The check fails exactly when there is no image or one of the nine
      required texts is blank; the status is never checked. */
  lemma MissingSpec(form: ItemForm)
    ensures Missing(form) <==> MissingByField(form)
  {
    var r := RequiredFields;
    forall k | 0 <= k < |r| && r[k] != Img
      ensures FieldMissing(form, r[k]) <==> IsBlank(Text(form, r[k]))
    {
      FieldMissingIsBlank(form, r[k]);
    }
    if Missing(form) {
      var k :| 0 <= k < |r| && FieldMissing(form, r[k]);
      assert k == 0 || k == 1 || k == 2 || k == 3 || k == 4 || k == 5 || k == 6 || k == 7 || k == 8 || k == 9;
    }
    if MissingByField(form) {
      if form.img.None? { assert FieldMissing(form, r[9]); }
      else if IsBlank(form.name) { assert FieldMissing(form, r[0]); }
      else if IsBlank(form.category) { assert FieldMissing(form, r[1]); }
      else if IsBlank(form.gender) { assert FieldMissing(form, r[2]); }
      else if IsBlank(form.size) { assert FieldMissing(form, r[3]); }
      else if IsBlank(form.color) { assert FieldMissing(form, r[4]); }
      else if IsBlank(form.material) { assert FieldMissing(form, r[5]); }
      else if IsBlank(form.rentalPrice) { assert FieldMissing(form, r[6]); }
      else if IsBlank(form.description) { assert FieldMissing(form, r[7]); }
      else { assert FieldMissing(form, r[8]); }
    }
  }

  /** A fresh or reset form cannot be submitted: it has no image. */
  lemma EmptyFormIsMissing(today: string)
    ensures Missing(EmptyForm(today))
  {
    assert FieldMissing(EmptyForm(today), RequiredFields[9]);
  }

  /* ---------------- Payload ---------------- */

  datatype Value = TextValue(text: string) | FileValue(fileName: string)

  datatype Entry = Entry(key: string, value: Value)

  /** The entries appended for the given fields: the image always, with the
      file to send, and any other field only when its text is not empty. */
  function EntriesFor(form: ItemForm, imageFile: string, fields: seq<ItemField>): seq<Entry>
  {
    if fields == [] then []
    else
      var f := fields[|fields| - 1];
      var before := EntriesFor(form, imageFile, fields[..|fields| - 1]);
      if f == Img then before + [Entry("img", FileValue(imageFile))]
      else if Text(form, f) != "" then before + [Entry(Key(f), TextValue(Text(form, f)))]
      else before
  }

  /** Walks the form's fields in order and appends each one that is sent. */
  method BuildPayload(form: ItemForm, imageFile: string) returns (payload: seq<Entry>)
    ensures payload == EntriesFor(form, imageFile, FieldOrder)
  {
    payload := [];
    var i := 0;
    while i < |FieldOrder|
      invariant 0 <= i <= |FieldOrder|
      invariant payload == EntriesFor(form, imageFile, FieldOrder[..i])
    {
      var f := FieldOrder[i];
      assert FieldOrder[..i + 1][..i] == FieldOrder[..i];
      if f == Img {
        payload := payload + [Entry("img", FileValue(imageFile))];
      } else if Text(form, f) != "" {
        payload := payload + [Entry(Key(f), TextValue(Text(form, f)))];
      }
      i := i + 1;
    }
    assert FieldOrder[..i] == FieldOrder;
  }

  lemma {:induction false} EntriesForMembership(form: ItemForm, imageFile: string, fields: seq<ItemField>, e: Entry)
    ensures e in EntriesFor(form, imageFile, fields) <==>
              exists f :: f in fields && e == (if f == Img then Entry("img", FileValue(imageFile))
                                               else Entry(Key(f), TextValue(Text(form, f))))
                          && (f == Img || Text(form, f) != "")
  {
    if fields != [] {
      var init := fields[..|fields| - 1];
      EntriesForMembership(form, imageFile, init, e);
      assert fields == init + [fields[|fields| - 1]];
    }
  }

  /** The payload holds the image file under "img", and a text field under
      its own key exactly when that field is not empty, with its text. */
  lemma PayloadSpec(form: ItemForm, imageFile: string)
    ensures Entry("img", FileValue(imageFile)) in EntriesFor(form, imageFile, FieldOrder)
    ensures forall f, v :: f != Img ==>
              (Entry(Key(f), TextValue(v)) in EntriesFor(form, imageFile, FieldOrder) <==> v == Text(form, f) && v != "")
  {
    EntriesForMembership(form, imageFile, FieldOrder, Entry("img", FileValue(imageFile)));
    assert Img in FieldOrder;
    forall f, v | f != Img
      ensures Entry(Key(f), TextValue(v)) in EntriesFor(form, imageFile, FieldOrder) <==> v == Text(form, f) && v != ""
    {
      EntriesForMembership(form, imageFile, FieldOrder, Entry(Key(f), TextValue(v)));
      assert f in FieldOrder;
    }
  }

  /* ---------------- The dialog ---------------- */

  /** The answer to the upload: a reply with its `success` flag and optional
      message, or a failure to reach the server. */
  datatype Reply = Ack(success: bool, message: Option<string>) | NoConnection(reason: string)

  const MissingMessage := "Complete all required information fields."
  const AddedMessage := "Item added successfully!"
  const AddFailedMessage := "Failed to add item."

  class AddItemDialog {
    /** Today's ISO date, fixed when the dialog is created. */
    const today: string
    var formData: ItemForm
    var imgSrc: Option<string>
    var error: string
    var showForm: bool

    constructor(today: string)
      ensures this.today == today
      ensures formData == EmptyForm(today) && imgSrc == None && error == "" && !showForm
    {
      this.today := today;
      formData := EmptyForm(today);
      imgSrc := None;
      error := "";
      showForm := false;
    }

    /** resetForm: back to the empty form, and the preview cleared. */
    method ResetForm()
      modifies this
      ensures formData == EmptyForm(today) && imgSrc == None
      ensures error == old(error) && showForm == old(showForm)
    {
      formData := EmptyForm(today);
      imgSrc := None;
    }

    /** handleSubmit: refuse a form with a missing field without sending
        anything; otherwise send the payload and, on success, reset and close
        the dialog. `sent` is the payload sent, if any. */
    method HandleSubmit(reply: Reply) returns (sent: Option<seq<Entry>>)
      modifies this
      ensures Missing(old(formData)) ==>
                sent == None && error == MissingMessage
                && formData == old(formData) && imgSrc == old(imgSrc) && showForm == old(showForm)
      ensures !Missing(old(formData)) ==>
                old(formData).img.Some?
                && sent == Some(EntriesFor(old(formData), old(formData).img.value, FieldOrder))
      ensures !Missing(old(formData)) && reply.Ack? && reply.success ==>
                error == AddedMessage && formData == EmptyForm(today) && imgSrc == None && !showForm
      ensures !Missing(old(formData)) && !(reply.Ack? && reply.success) ==>
                formData == old(formData) && imgSrc == old(imgSrc) && showForm == old(showForm)
                && error == (if reply.NoConnection? then "Network Error: " + reply.reason
                             else if reply.message.Some? && reply.message.value != "" then reply.message.value
                             else AddFailedMessage)
    {
      if Missing(formData) {
        error := MissingMessage;
        return None;
      }
      MissingSpec(formData);
      var payload := BuildPayload(formData, formData.img.value);
      sent := Some(payload);
      if reply.NoConnection? {
        error := "Network Error: " + reply.reason;
      } else if reply.success {
        error := AddedMessage;
        ResetForm();
        showForm := false;
      } else {
        error := if reply.message.Some? && reply.message.value != "" then reply.message.value else AddFailedMessage;
      }
    }
  }
}
