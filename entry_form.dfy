/**
 * The entry form: the text state behind the inputs, the handlers that edit it,
 * and the construction of a diary entry when the form is submitted.
 *
 * The handlers replace the component's `formData` state with a new value; each
 * new value is computed by one of the pure functions below, and the class
 * `EntryFormState` holds the state and applies them.
 */
module EntryForm {

  import opened Optional
  import opened Diary
  import opened JsText

  /** One formula row: its three inputs, as typed. */
  datatype FormulaRow = FormulaRow(shade: string, parts: string, color: string)

  const BlankRow: FormulaRow := FormulaRow("", "", "")

  /** The form's state: every input as text, the photo slots as files or `null`. */
  datatype FormData = FormData(
    date: string,
    name: string,
    formulas: seq<FormulaRow>,
    developer: string,
    processingTime: string,
    notes: string,
    photo: Option<Photo>,
    beforePhoto: Option<Photo>,
    afterPhoto: Option<Photo>)

  datatype RowField = Shade | Parts | Color

  datatype TextField = DateField | NameField | DeveloperField | ProcessingTimeField | NotesField

  datatype PhotoSlot = Before | After

  /**
   * The decimal conversions stay abstract; this is what the round trip of an
   * edit needs of them at a colour amount: its text parses back as it.
   */
  ghost predicate ParsesBack(format: Float -> string, parseFloat: string -> Float, x: Float)
  {
    parseFloat(format(x)) == x
  }

  /** At the developer amount the text must also be non-empty, since an empty one submits as no amount. */
  ghost predicate ReadsBack(format: Float -> string, parseFloat: string -> Float, x: Float)
  {
    ParsesBack(format, parseFloat, x) && format(x) != ""
  }

  /** Every colour amount of the formulas parses back. */
  ghost predicate ColorsReadBack(fs: seq<Formula>, format: Float -> string, parseFloat: string -> Float)
  {
    forall k :: 0 <= k < |fs| ==> ParsesBack(format, parseFloat, Finite(fs[k].color))
  }

  // ----- The initial state -----

  /** A new entry's form: the given date, empty texts, one blank row, no photos. */
  function BlankForm(today: string): FormData
  {
    FormData(today, "", [BlankRow], "", "", "", None, None, None)
  }

  /** The row that shows an existing formula: its shade and its two numbers as text. */
  function RowOf(f: Formula, format: Float -> string): FormulaRow
  {
    FormulaRow(f.shade, IntToString(f.parts), format(Finite(f.color)))
  }

  /** Each formula mapped to its row, in order. */
  function RowsOf(formulas: seq<Formula>, format: Float -> string): (rows: seq<FormulaRow>)
    ensures |rows| == |formulas|
    ensures forall k :: 0 <= k < |rows| ==> rows[k] == RowOf(formulas[k], format)
    decreases |formulas|
  {
    if formulas == [] then []
    else RowsOf(formulas[..|formulas| - 1], format) + [RowOf(formulas[|formulas| - 1], format)]
  }

  /** The developer amount as text, or the empty text when there is none. */
  function DeveloperText(developer: Option<Float>, format: Float -> string): string
  {
    match developer
    case None => ""
    case Some(x) => format(x)
  }

  /**
   * The form's first state: blank for a new entry; for an edit, the entry's
   * fields as text, except that an empty date falls back to today's.
   */
  function InitialFormData(entry: Option<Entry>, today: string, format: Float -> string): FormData
  {
    match entry
    case None => BlankForm(today)
    case Some(e) =>
      FormData(
        if e.date != "" then e.date else today,
        e.name,
        RowsOf(e.formulas, format),
        DeveloperText(e.developer, format),
        IntToString(e.processingTime),
        e.notes,
        e.photo,
        e.beforePhoto,
        e.afterPhoto)
  }

  // ----- Row and field edits -----

  function FieldOf(row: FormulaRow, field: RowField): string
  {
    match field
    case Shade => row.shade
    case Parts => row.parts
    case Color => row.color
  }

  /** A copy of the row with one field replaced. */
  function WithField(row: FormulaRow, field: RowField, value: string): (r: FormulaRow)
    ensures FieldOf(r, field) == value
    ensures forall g :: g != field ==> FieldOf(r, g) == FieldOf(row, g)
  {
    match field
    case Shade => row.(shade := value)
    case Parts => row.(parts := value)
    case Color => row.(color := value)
  }

  /** The rows whose position differs from `index`, in order: an index outside the rows removes nothing. */
  function WithoutRow(rows: seq<FormulaRow>, index: int): (r: seq<FormulaRow>)
    ensures 0 <= index < |rows| ==> r == rows[..index] + rows[index + 1..]
    ensures !(0 <= index < |rows|) ==> r == rows
    decreases |rows|
  {
    if rows == [] then []
    else
      var last := |rows| - 1;
      WithoutRow(rows[..last], index) + (if index == last then [] else [rows[last]])
  }

  function TextOf(form: FormData, field: TextField): string
  {
    match field
    case DateField => form.date
    case NameField => form.name
    case DeveloperField => form.developer
    case ProcessingTimeField => form.processingTime
    case NotesField => form.notes
  }

  /** A copy of the form with one plain text field replaced. */
  function WithText(form: FormData, field: TextField, value: string): (r: FormData)
    ensures TextOf(r, field) == value
    ensures forall g :: g != field ==> TextOf(r, g) == TextOf(form, g)
    ensures r.formulas == form.formulas
    ensures r.photo == form.photo && r.beforePhoto == form.beforePhoto && r.afterPhoto == form.afterPhoto
  {
    match field
    case DateField => form.(date := value)
    case NameField => form.(name := value)
    case DeveloperField => form.(developer := value)
    case ProcessingTimeField => form.(processingTime := value)
    case NotesField => form.(notes := value)
  }

  function PhotoIn(form: FormData, slot: PhotoSlot): Option<Photo>
  {
    match slot
    case Before => form.beforePhoto
    case After => form.afterPhoto
  }

  /** A copy of the form with the before or after photo slot replaced. */
  function WithPhoto(form: FormData, slot: PhotoSlot, file: Option<Photo>): (r: FormData)
    ensures PhotoIn(r, slot) == file
    ensures forall other :: other != slot ==> PhotoIn(r, other) == PhotoIn(form, other)
    ensures r.(beforePhoto := form.beforePhoto, afterPhoto := form.afterPhoto) == form
  {
    match slot
    case Before => form.(beforePhoto := file)
    case After => form.(afterPhoto := file)
  }

  // ----- Input names and their routing in `handleChange` -----

  function RowFieldKey(field: RowField): string
  {
    match field
    case Shade => "shade"
    case Parts => "parts"
    case Color => "color"
  }

  function RowFieldOfKey(key: string): (r: Option<RowField>)
    ensures r.Some? ==> RowFieldKey(r.value) == key
  {
    if key == "shade" then Some(Shade)
    else if key == "parts" then Some(Parts)
    else if key == "color" then Some(Color)
    else None
  }

  function TextFieldKey(field: TextField): string
  {
    match field
    case DateField => "date"
    case NameField => "name"
    case DeveloperField => "developer"
    case ProcessingTimeField => "processingTime"
    case NotesField => "notes"
  }

  function TextFieldOfKey(key: string): (r: Option<TextField>)
    ensures r.Some? ==> TextFieldKey(r.value) == key
  {
    if key == "date" then Some(DateField)
    else if key == "name" then Some(NameField)
    else if key == "developer" then Some(DeveloperField)
    else if key == "processingTime" then Some(ProcessingTimeField)
    else if key == "notes" then Some(NotesField)
    else None
  }

  /** An input of the form, as the markup lays them out. */
  datatype InputName = FormulaInput(index: nat, rowField: RowField) | PlainInput(textField: TextField)

  /** The `name` attribute of an input: "formula.", the row index, "." and the field for a row; the key otherwise. */
  function InputNameText(n: InputName): string
  {
    match n
    case FormulaInput(i, f) => "formula." + IntToString(i) + "." + RowFieldKey(f)
    case PlainInput(f) => TextFieldKey(f)
  }

  /** What `handleChange` makes of a name: a row index (`None`: `NaN`) and field, or a plain key. */
  datatype ChangeTarget = FormulaTarget(index: Option<int>, field: Option<string>) | PlainTarget(key: string)

  /** A name starting with "formula." is split at dots; its second piece is parsed as the row index, its third is the field. */
  function Route(name: string): (r: ChangeTarget)
    ensures r.FormulaTarget? <==> StartsWith(name, "formula.")
    ensures r.PlainTarget? ==> r.key == name
  {
    if StartsWith(name, "formula.") then
      var parts := Split(name, '.');
      FormulaTarget(
        if |parts| > 1 then ParseInt(parts[1]) else None,
        if |parts| > 2 then Some(parts[2]) else None)
    else
      PlainTarget(name)
  }

  /** The names `handleChange` is given: those of existing rows' inputs and of the plain inputs. */
  predicate Handled(name: string, rowCount: nat)
    ensures Handled(name, rowCount) && StartsWith(name, "formula.") ==> rowCount > 0
    ensures !StartsWith(name, "formula.") ==> (Handled(name, rowCount) <==> TextFieldOfKey(name).Some?)
  {
    match Route(name)
    case FormulaTarget(index, field) =>
      index.Some? && 0 <= index.value < rowCount && field.Some? && RowFieldOfKey(field.value).Some?
    case PlainTarget(key) => TextFieldOfKey(key).Some?
  }

  /** The state `handleChange` sets for an input event with this name and value. */
  function Changed(form: FormData, name: string, value: string): (r: FormData)
    requires Handled(name, |form.formulas|)
    ensures |r.formulas| == |form.formulas|
  {
    match Route(name)
    case FormulaTarget(index, field) =>
      var i := index.value;
      form.(formulas := form.formulas[i := WithField(form.formulas[i], RowFieldOfKey(field.value).value, value)])
    case PlainTarget(key) =>
      WithText(form, TextFieldOfKey(key).value, value)
  }

  // ----- Building the submitted entry -----

  /** One row as a formula: both numbers parsed, 0 when they do not parse. */
  function FormulaOf(row: FormulaRow, parseFloat: string -> Float): Formula
  {
    Formula(row.shade, ParseIntOrZero(row.parts), OrZero(parseFloat(row.color)))
  }

  /** Each row mapped to its formula, in order. */
  function FormulasOf(rows: seq<FormulaRow>, parseFloat: string -> Float): (fs: seq<Formula>)
    ensures |fs| == |rows|
    ensures forall k :: 0 <= k < |fs| ==> fs[k] == FormulaOf(rows[k], parseFloat)
    decreases |rows|
  {
    if rows == [] then []
    else FormulasOf(rows[..|rows| - 1], parseFloat) + [FormulaOf(rows[|rows| - 1], parseFloat)]
  }

  /**
   * The entry `handleSubmit` hands to its caller. The id is the edited entry's
   * (unless that is empty), otherwise the clock reading `Date.now()` as text.
   */
  function BuildEntry(form: FormData, entry: Option<Entry>, clockMillis: nat, parseFloat: string -> Float): (r: Entry)
    ensures r.id != ""
    ensures r.date == form.date && r.name == form.name && r.notes == form.notes
    ensures r.photo == form.photo && r.beforePhoto == form.beforePhoto && r.afterPhoto == form.afterPhoto
  {
    Entry(
      if entry.Some? && entry.value.id != "" then entry.value.id else IntToString(clockMillis),
      form.date,
      form.name,
      FormulasOf(form.formulas, parseFloat),
      if form.developer == "" then None else Some(parseFloat(form.developer)),
      ParseIntOrZero(form.processingTime),
      form.notes,
      form.photo,
      form.beforePhoto,
      form.afterPhoto)
  }

  // ----- Properties -----

  /** A new form starts with exactly one blank row and nothing else filled in. */
  lemma NewFormHasOneBlankRow(today: string, format: Float -> string)
    ensures InitialFormData(None, today, format).formulas == [BlankRow]
    ensures InitialFormData(None, today, format) == BlankForm(today)
    ensures var f := InitialFormData(None, today, format);
      f.date == today && f.name == f.developer == f.processingTime == f.notes == ""
      && f.photo.None? && f.beforePhoto.None? && f.afterPhoto.None?
  {
  }

  /** An edit form has one row per formula of the entry, in order, each showing that formula. */
  lemma EditFormMirrorsFormulas(e: Entry, today: string, format: Float -> string, k: nat)
    requires k < |e.formulas|
    ensures |InitialFormData(Some(e), today, format).formulas| == |e.formulas|
    ensures var row := InitialFormData(Some(e), today, format).formulas[k];
      row.shade == e.formulas[k].shade
      && ParseInt(row.parts) == Some(e.formulas[k].parts)
      && row.color == format(Finite(e.formulas[k].color))
  {
    ParseIntRoundTrip(e.formulas[k].parts);
  }

  /**
   * An edit form shows the entry's texts and photos as they are, its date or
   * today's when it has none, its developer as empty text when there is none,
   * and a processing time that reads back as the entry's.
   */
  lemma EditFormCarriesFields(e: Entry, today: string, format: Float -> string)
    ensures var f := InitialFormData(Some(e), today, format);
      && f.date == (if e.date == "" then today else e.date)
      && f.name == e.name && f.notes == e.notes
      && f.photo == e.photo && f.beforePhoto == e.beforePhoto && f.afterPhoto == e.afterPhoto
      && (e.developer.None? ==> f.developer == "")
      && (e.developer.Some? ==> f.developer == format(e.developer.value))
      && ParseIntOrZero(f.processingTime) == e.processingTime
  {
    ParseIntRoundTrip(e.processingTime);
  }

  /** Every input name handled before a row is appended is still handled after it. */
  lemma AddedRowKeepsNamesHandled(name: string, rowCount: nat)
    requires Handled(name, rowCount)
    ensures Handled(name, rowCount + 1)
  {
  }

  /** Adding a row and removing the last row are inverse. */
  lemma RemoveUndoesAdd(rows: seq<FormulaRow>)
    ensures WithoutRow(rows + [BlankRow], |rows|) == rows
  {
    assert (rows + [BlankRow])[..|rows|] == rows;
  }

  /** The guarded removal never empties a non-empty list of rows, and removes at most one. */
  lemma GuardedRemoveKeepsARow(rows: seq<FormulaRow>, index: int)
    requires |rows| >= 1
    ensures var r := if |rows| > 1 then WithoutRow(rows, index) else rows;
      |r| >= 1 && |rows| - 1 <= |r| <= |rows|
  {
  }

  /** The names the markup gives its inputs are routed back to those inputs. */
  lemma RouteOfInputName(n: InputName)
    ensures Route(InputNameText(n)) ==
      match n
      case FormulaInput(i, f) => FormulaTarget(Some(i), Some(RowFieldKey(f)))
      case PlainInput(f) => PlainTarget(TextFieldKey(f))
  {
    match n
    case FormulaInput(i, f) =>
      var index := IntToString(i);
      var key := RowFieldKey(f);
      var name := InputNameText(n);
      assert '.' !in index by {
        IntToStringChars(i);
      }
      assert name == "formula" + ['.'] + (index + ['.'] + key);
      assert StartsWith(name, "formula.");
      SplitAtFirstSeparator("formula", '.', index + ['.'] + key);
      SplitAtFirstSeparator(index, '.', key);
      SplitWithoutSeparator(key, '.');
      assert Split(name, '.') == ["formula", index, key];
      ParseIntRoundTrip(i);
    case PlainInput(f) =>
  }

  /**
   * Typing into field `f` of row `i` changes that field of that row only: the
   * row count, the row's other fields, the other rows and the rest of the form
   * stay as they were.
   */
  lemma ChangeRowField(form: FormData, i: nat, f: RowField, value: string)
    requires i < |form.formulas|
    ensures Handled(InputNameText(FormulaInput(i, f)), |form.formulas|)
    ensures var r := Changed(form, InputNameText(FormulaInput(i, f)), value);
      && |r.formulas| == |form.formulas|
      && FieldOf(r.formulas[i], f) == value
      && (forall g :: g != f ==> FieldOf(r.formulas[i], g) == FieldOf(form.formulas[i], g))
      && (forall j :: 0 <= j < |r.formulas| && j != i ==> r.formulas[j] == form.formulas[j])
      && r.(formulas := form.formulas) == form
  {
    RouteOfInputName(FormulaInput(i, f));
    assert RowFieldOfKey(RowFieldKey(f)) == Some(f) by {
      match f
      case Shade =>
      case Parts =>
      case Color =>
    }
  }

  /** Typing into a plain input changes that field only. */
  lemma ChangeTextField(form: FormData, f: TextField, value: string)
    ensures Handled(InputNameText(PlainInput(f)), |form.formulas|)
    ensures Changed(form, InputNameText(PlainInput(f)), value) == WithText(form, f, value)
  {
    RouteOfInputName(PlainInput(f));
    assert TextFieldOfKey(TextFieldKey(f)) == Some(f) by {
      match f
      case DateField =>
      case NameField =>
      case DeveloperField =>
      case ProcessingTimeField =>
      case NotesField =>
    }
  }

  /** The submitted formulas follow the rows one for one; shades are copied, numbers parsed with fallback 0. */
  lemma SubmittedFormulasFollowRows(form: FormData, entry: Option<Entry>, clockMillis: nat, parseFloat: string -> Float)
    ensures var fs := BuildEntry(form, entry, clockMillis, parseFloat).formulas;
      && |fs| == |form.formulas|
      && forall k :: 0 <= k < |fs| ==>
           && fs[k].shade == form.formulas[k].shade
           && fs[k].parts == ParseIntOrZero(form.formulas[k].parts)
           && fs[k].color == OrZero(parseFloat(form.formulas[k].color))
  {
  }

  /** The developer is absent exactly when its input is empty; numbers that do not parse become 0. */
  lemma SubmittedNumbers(form: FormData, entry: Option<Entry>, clockMillis: nat, parseFloat: string -> Float)
    ensures var r := BuildEntry(form, entry, clockMillis, parseFloat);
      && (r.developer.None? <==> form.developer == "")
      && (form.developer != "" ==> r.developer == Some(parseFloat(form.developer)))
      && (ParseInt(form.processingTime).None? ==> r.processingTime == 0)
      && (ParseInt(form.processingTime).Some? ==> r.processingTime == ParseInt(form.processingTime).value)
  {
  }

  /**
   * An edit keeps the entry's non-empty id; otherwise the id is the clock
   * reading as text, and it reads back as that number.
   */
  lemma SubmittedId(form: FormData, entry: Option<Entry>, clockMillis: nat, parseFloat: string -> Float)
    ensures var id := BuildEntry(form, entry, clockMillis, parseFloat).id;
      && (entry.Some? && entry.value.id != "" ==> id == entry.value.id)
      && (!(entry.Some? && entry.value.id != "") ==> id == IntToString(clockMillis) && ParseInt(id) == Some(clockMillis))
  {
    ParseIntRoundTrip(clockMillis);
  }

  lemma {:induction false} FormulasOfRowsOf(fs: seq<Formula>, format: Float -> string, parseFloat: string -> Float)
    requires ColorsReadBack(fs, format, parseFloat)
    ensures FormulasOf(RowsOf(fs, format), parseFloat) == fs
  {
    var back := FormulasOf(RowsOf(fs, format), parseFloat);
    forall k | 0 <= k < |fs| ensures back[k] == fs[k] {
      ParseIntRoundTrip(fs[k].parts);
      assert ParsesBack(format, parseFloat, Finite(fs[k].color));
    }
  }

  /**
   * Opening an entry for edit and submitting it untouched gives back the same
   * entry, provided its id and date are not empty and the decimal conversions
   * read back the entry's own colour and developer amounts.
   */
  lemma EditRoundTrip(e: Entry, today: string, clockMillis: nat, format: Float -> string, parseFloat: string -> Float)
    requires e.id != "" && e.date != ""
    requires ColorsReadBack(e.formulas, format, parseFloat)
    requires e.developer.Some? ==> ReadsBack(format, parseFloat, e.developer.value)
    ensures BuildEntry(InitialFormData(Some(e), today, format), Some(e), clockMillis, parseFloat) == e
  {
    FormulasOfRowsOf(e.formulas, format, parseFloat);
    ParseIntRoundTrip(e.processingTime);
  }

  // ----- The component's state -----

  /** The entry form component: the entry it edits (if any), the number conversions, and its `formData`. */
  class EntryFormState {
    const entry: Option<Entry>
    const format: Float -> string
    const parseFloat: string -> Float
    var formData: FormData

    /** The form always has a formula row. */
    ghost predicate Valid()
      reads this
    {
      |formData.formulas| > 0
    }

    /** The first state; it has a row unless the edited entry has no formulas. */
    constructor (entry: Option<Entry>, today: string, format: Float -> string, parseFloat: string -> Float)
      ensures this.entry == entry && this.format == format && this.parseFloat == parseFloat
      ensures formData == InitialFormData(entry, today, format)
      ensures entry.None? || entry.value.formulas != [] ==> Valid()
    {
      this.entry := entry;
      this.format := format;
      this.parseFloat := parseFloat;
      formData := InitialFormData(entry, today, format);
    }

    /** `handleChange`: an input with this name now holds `value`. */
    method HandleChange(name: string, value: string)
      requires Handled(name, |formData.formulas|)
      modifies this
      ensures formData == Changed(old(formData), name, value)
      ensures old(Valid()) ==> Valid()
    {
      formData := Changed(formData, name, value);
    }

    /** `addFormula`: one blank row at the end. */
    method AddFormula()
      modifies this
      ensures formData == old(formData).(formulas := old(formData.formulas) + [BlankRow])
      ensures Valid()
    {
      formData := formData.(formulas := formData.formulas + [BlankRow]);
    }

    /** `removeFormula(index)`: refused while only one row is left. */
    method RemoveFormula(index: int)
      modifies this
      ensures formData == if |old(formData.formulas)| > 1
                          then old(formData).(formulas := WithoutRow(old(formData.formulas), index))
                          else old(formData)
      ensures old(Valid()) ==> Valid()
    {
      if |formData.formulas| > 1 {
        formData := formData.(formulas := WithoutRow(formData.formulas, index));
      }
    }

    /** `handleFileChange`: the legacy photo input; `None` when no file was chosen. */
    method HandleFileChange(file: Option<Photo>)
      modifies this
      ensures formData == old(formData).(photo := file)
    {
      formData := formData.(photo := file);
    }

    /** `handlePhotoUpload(e, type)`: the slot holds the chosen file, or `null` when none was chosen. */
    method HandlePhotoUpload(slot: PhotoSlot, file: Option<Photo>)
      modifies this
      ensures formData == WithPhoto(old(formData), slot, file)
    {
      formData := WithPhoto(formData, slot, file);
    }

    /** `removePhoto(type)`: the slot is empty again. */
    method RemovePhoto(slot: PhotoSlot)
      modifies this
      ensures formData == WithPhoto(old(formData), slot, None)
      ensures PhotoIn(formData, slot).None?
    {
      formData := WithPhoto(formData, slot, None);
    }

    /**
     * `handleSubmit`: the entry built from the form is handed to `onSubmit`.
     * When that call returns, a new-entry form starts over blank with the date
     * of `today` and an edit form stays as it is. When it throws
     * (`onSubmitThrew`), the reset is skipped and the form keeps what was typed.
     */
    method HandleSubmit(clockMillis: nat, today: string, onSubmitThrew: bool) returns (submitted: Entry)
      modifies this
      ensures submitted == BuildEntry(old(formData), entry, clockMillis, parseFloat)
      ensures formData == if entry.None? && !onSubmitThrew then BlankForm(today) else old(formData)
      ensures old(Valid()) ==> Valid() && |submitted.formulas| > 0
    {
      submitted := BuildEntry(formData, entry, clockMillis, parseFloat);
      if onSubmitThrew {
        return;
      }
      if entry.None? {
        formData := BlankForm(today);
      }
    }
  }
}
