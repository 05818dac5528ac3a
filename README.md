# Hair dye diary — a Dafny model of its form, store and page controls

The hair dye diary is a browser app for recording hair-dye sessions. Each
entry has a date, a name, one or more formula rows (shade, parts, grams of
colour), an optional developer amount, a processing time, notes and photos.
The app keeps its entries as one JSON array, oldest first, under the
`localStorage` key `"hairDiary"`. A notebook-style logbook shows them two at a
time, with page controls.

This project models three parts of the app:

- **The entry form** (`entry_form.dfy`, module `EntryForm`). The form keeps
  every input as text (`FormData`) and an ordered list of formula rows. Its
  handlers change that state: an input event, appending a row, removing a row,
  and setting or clearing a photo slot. Submitting turns the text into an
  `Entry`. The row edits and the entry construction are pure functions. The
  class `EntryFormState` holds the component's `formData` and applies them.
  `handleChange` works out which input sent the event from its `name` attribute
  (`formula.3.parts`, `notes`, …). `Route` models that decoding, and
  `RouteOfInputName` proves it recovers every name the markup renders.
- **The entry store** (`storage.dfy`, `home_page.dfy`, `logbook_page.dfy`).
  `localStorage` is a class over a map from keys to stored values. Each page
  has its own `handleSubmit`, and both do the same read-modify-write of
  `"hairDiary"`: read the list (a missing key or an empty text counts as `[]`),
  append the entry, write the list back, then navigate. Text that does not
  parse makes `JSON.parse` throw, so nothing is written and there is no
  navigation. The model has `ReadFailed` for that case.
- **The page controls** (`page_navigation.dfy`, `page_flip.dfy`). These are
  the guards that enable the previous and next buttons, the one-based page
  indicator, and the frame that shows the controls only when there is more
  than one page.

`js_text.dfy` (module `JsText`) models the JavaScript conversions the form
uses. `parseInt` reads an optional sign and a decimal digit prefix after
leading white space, and gives `NaN` (`None`) when there is no digit.
`toString` on integers, `split` on one character, and `startsWith` are modelled
too. `diary.dfy` holds the entity types and `optional.dfy` the `Option` type.

The clock (`Date.now()`, `new Date()`) enters as parameters: `clockMillis` and
`today`. The decimal parse and format (`parseFloat`, `Number#toString` on
grams) are parameters of type `string -> Float` and `Float -> string`, where
`Float` is `NaN` or a finite real. The edit round trip needs one assumption about them, made only at the entry's
own amounts. `ParsesBack` says that each colour's formatted text parses back to
the same number. `ReadsBack` says the same of the developer amount, and also that
its text is not empty, because an empty developer text submits as no amount.

Two behaviours of the code are worth stating outright:

- A malformed diary is not read as empty. `JSON.parse` in both
  `handleSubmit`s is unguarded and throws, so the model aborts the submit
  (`MalformedDiaryAbortsSubmit`).
- An edited entry with no formulas opens with no rows. `[].map(...)` is truthy,
  so the `||` fallback to one blank row does not apply.
  `EntryFormState.Valid()` therefore holds from the start only when there is no
  entry or the entry has formulas. Every handler then keeps it.

## Model

| member | source | states |
|---|---|---|
| EntryForm.NewFormHasOneBlankRow | src/app/components/entry-form.tsx:44-58 | with no entry to edit, the form starts at today's date with empty texts, exactly one blank formula row and no photos |
| EntryForm.RowsOf | src/app/components/entry-form.tsx:47-51 | the rows built from formulas have the same count, and row k shows formula k (shade, parts as text, colour as formatted text) |
| EntryForm.EditFormMirrorsFormulas | src/app/components/entry-form.tsx:47-51 | an edit form has one row per formula of the entry, in order; row k's shade is formula k's, its parts text parses back to formula k's parts, and its colour text is formula k's colour formatted |
| EntryForm.EntryFormState.constructor | src/app/components/entry-form.tsx:44-58 | the first state is the initial form data for the entry (or none); it has a formula row unless the edited entry has no formulas |
| EntryForm.EditFormCarriesFields | src/app/components/entry-form.tsx:44-58 | an edit form shows the entry's name, notes and photos unchanged, its date or today's when the date is empty, an empty developer text when there is no developer amount (otherwise the formatted amount), and a processing-time text that parses back to the entry's processing time |
| EntryForm.WithField | src/app/components/entry-form.tsx:107 | the spread-and-replace of one row field sets that field to the new value and leaves the row's other fields as they were |
| EntryForm.WithText | src/app/components/entry-form.tsx:111 | setting a plain input sets that text field only; the other texts, the rows and the photos are unchanged |
| EntryForm.Changed | src/app/components/entry-form.tsx:100-113 | an input event never changes the number of rows |
| EntryForm.RouteOfInputName | src/app/components/entry-form.tsx:102-104 | for every name the markup renders ("formula.", row index, ".", field; or `date`, `name`, `developer`, `processingTime`, `notes`), the startsWith/split/parseInt decoding in `handleChange` recovers the row index and field, or the plain key |
| EntryForm.Route | src/app/components/entry-form.tsx:102-111 | a name goes to the row branch exactly when it starts with "formula."; any other name is used as the plain key unchanged |
| EntryForm.Handled | src/app/components/entry-form.tsx:102-111 | a handled row name implies the form has a row; a name without the "formula." prefix is handled exactly when it is one of the five plain keys |
| EntryForm.AddedRowKeepsNamesHandled | src/app/components/entry-form.tsx:102-120 | every input name handled before a row is appended is still handled afterwards |
| EntryForm.ChangeRowField | src/app/components/entry-form.tsx:102-109 | an event from field f of row i is handled and changes that field of that row only: the row count, the row's other fields, all other rows and the rest of the form are unchanged |
| EntryForm.ChangeTextField | src/app/components/entry-form.tsx:110-112 | an event from a plain input is handled and sets exactly that field |
| EntryForm.EntryFormState.HandleChange | src/app/components/entry-form.tsx:100-113 | the new form data is the old one with the event applied; a form with a row still has one |
| EntryForm.EntryFormState.AddFormula | src/app/components/entry-form.tsx:115-120 | exactly one blank row is appended at the end; the existing rows and all other fields are unchanged, so the form has a row |
| EntryForm.WithoutRow | src/app/components/entry-form.tsx:126 | the index filter removes exactly row i, keeping the other rows in order, when i is a row index, and removes nothing otherwise |
| EntryForm.EntryFormState.RemoveFormula | src/app/components/entry-form.tsx:122-129 | with two or more rows, exactly the indexed row is filtered out; with one row, nothing changes; a form with a row keeps one |
| EntryForm.GuardedRemoveKeepsARow | src/app/components/entry-form.tsx:122-129 | the guarded removal never empties a non-empty row list, and it removes at most one row |
| EntryForm.RemoveUndoesAdd | src/app/components/entry-form.tsx:115-129 | removing the last row after appending a blank one restores the rows |
| EntryForm.WithPhoto | src/app/components/entry-form.tsx:136-145 | setting a photo slot changes only that slot; the other slot and every other field of the form are unchanged |
| EntryForm.EntryFormState.HandlePhotoUpload | src/app/components/entry-form.tsx:136-141 | the chosen slot holds the chosen file, or null when none was chosen; nothing else changes |
| EntryForm.EntryFormState.RemovePhoto | src/app/components/entry-form.tsx:143-145 | the slot becomes null; nothing else changes |
| EntryForm.EntryFormState.HandleFileChange | src/app/components/entry-form.tsx:131-134 | the legacy photo field holds the chosen file or null; nothing else changes |
| EntryForm.FormulasOf | src/app/components/entry-form.tsx:67-71 | the submitted formulas have the rows' count, and formula k is built from row k |
| EntryForm.SubmittedFormulasFollowRows | src/app/components/entry-form.tsx:67-71 | submitted formulas follow the rows one for one and in order; the shade is copied verbatim, the parts are `parseInt` of the text or 0, and the colour is `parseFloat` of the text or 0 |
| EntryForm.BuildEntry | src/app/components/entry-form.tsx:63-78 | the submitted entry always has a non-empty id; its date, name and notes are the typed texts, and its three photo slots are the form's |
| EntryForm.SubmittedNumbers | src/app/components/entry-form.tsx:72-73 | the developer is absent exactly when its text is empty, and is otherwise `parseFloat` of the text; the processing time is `parseInt` of its text, or 0 when that is NaN |
| EntryForm.SubmittedId | src/app/components/entry-form.tsx:64 | editing an entry keeps its id when that is non-empty; a new entry, or an edited one whose id is empty, gets the decimal text of the clock reading as id, and that text parses back to the reading |
| EntryForm.FormulasOfRowsOf | src/app/components/entry-form.tsx:47-71 | turning formulas into rows and the rows back into formulas gives the same formulas, given that each formula's colour parses back through the decimal format and parse; in the source this holds only while every formula's parts are below 10^21 in magnitude |
| EntryForm.EditRoundTrip | src/app/components/entry-form.tsx:44-78 | opening an entry with a non-empty id and date and submitting it untouched gives back the same entry, given that its colour and developer amounts read back through the decimal format and parse; in the source this holds only while every parts value and the processing time are below 10^21 in magnitude |
| EntryForm.EntryFormState.HandleSubmit | src/app/components/entry-form.tsx:60-98 | returns the entry built from the form; if `onSubmit` returns, a new-entry form resets to a blank form dated today and an edit form is left as it was; if `onSubmit` throws, the form keeps what was typed; a submit from a form with a row has a formula |
| JsText.IntToString | src/app/components/entry-form.tsx:49 | `toString` of an integer is non-empty text: a minus sign or a digit first, then digits only (so it holds no `.` or space) |
| JsText.ParseIntOfRendered | src/app/components/entry-form.tsx:104 | `parseInt` reads back an integer written by `toString`, whatever non-digit text follows it |
| JsText.ParseIntRoundTrip | src/app/components/entry-form.tsx:69 | `parseInt(n.toString())` is n, and so is the `|| 0` fallback form |
| JsText.SplitAtFirstSeparator | src/app/components/entry-form.tsx:103 | splitting text at a separator gives the piece before the first separator, then the pieces of the rest |
| JsText.ParseIntSkipsLeadingSpace | src/app/components/entry-form.tsx:69 | `parseInt` and its `|| 0` form give the same result with or without a leading white-space character |
| JsText.ParseIntWithoutDigits | src/app/components/entry-form.tsx:73 | text without a digit is `NaN` to `parseInt`, and the `|| 0` fallback turns it into 0 |
| Storage.LocalStorage.GetItem | src/app/page.tsx:31 | `getItem` gives the stored value for a present key and null for a missing one |
| Storage.ParseStored | src/app/page.tsx:29-31 | only an unreadable stored value makes the parse throw; a missing key or an empty text reads as the empty list |
| Storage.AfterSubmit | src/app/page.tsx:29-34 | a submit fails exactly when the stored diary is unreadable; otherwise the keys afterwards are the keys before plus `"hairDiary"` |
| Storage.LocalStorage.SetItem | src/app/page.tsx:34 | `setItem` writes just that key |
| Storage.SubmitAppends | src/app/page.tsx:30-34 | after a submit the stored diary is the previous diary followed by the new entry |
| Storage.SubmitKeepsEarlierEntries | src/app/page.tsx:33 | every earlier entry is kept, unchanged and in its original order; the length grows by exactly one, and the new entry is last |
| Storage.FirstSubmitStoresOnlyEntry | src/app/page.tsx:31 | with no `"hairDiary"` key (or an empty text under it), the first submit stores exactly `[entry]` |
| Storage.MalformedDiaryAbortsSubmit | src/app/page.tsx:30-32 | a stored value that `JSON.parse` cannot read makes the submit throw before it writes anything |
| Storage.SubmitWritesOnlyDiaryKey | src/app/logbook/page.tsx:34-35 | only the `"hairDiary"` key is written; every other key keeps its value and no key disappears |
| Storage.TwoSubmitsOldestFirst | src/app/logbook/page.tsx:33-34 | two submits e then f leave e immediately before f at the end of the list, oldest first |
| Storage.SubmitsAppendInOrder | src/app/page.tsx:29-34 | any sequence of submits appends all its entries to the stored diary, in submission order |
| Storage.ReplayFromEmpty | src/app/logbook/page.tsx:29-35 | replaying submits against an empty storage stores exactly the submitted entries, oldest first |
| HomePage.HandleSubmit | src/app/page.tsx:29-38 | the storage becomes the appended diary and the page navigates to "/logbook"; if reading the diary throws, storage is unchanged and there is no navigation |
| LogbookPage.HandleSubmit | src/app/logbook/page.tsx:29-39 | the storage becomes the appended diary, newest last, and the page navigates to "/"; if reading throws, storage is unchanged and there is no navigation |
| PageNavigation.GuardedStepStaysInRange | src/app/components/page-navigation.tsx:16-24 | from a page in range, a click the guard lets through (next: page < total - 1; previous: page > 0) steps to a page that is still in range |
| PageNavigation.Render | src/app/components/page-navigation.tsx:16-48 | on a page in range, the previous button is disabled exactly on the first page and the next button exactly on the last; the indicator shown is the one-based page indicator |
| PageNavigation.CanGoPrev | src/app/components/page-navigation.tsx:16 | on a page at or after the first, going back is refused exactly on the first page |
| PageNavigation.CanGoNext | src/app/components/page-navigation.tsx:17 | on a page before the end, going forward is refused exactly on the last page |
| PageNavigation.Indicator | src/app/components/page-navigation.tsx:41 | the indicator text, read by `parseInt`, is the one-based page number |
| PageNavigation.FiresIffStepInRange | src/app/components/page-navigation.tsx:16-48 | on a page in range, each button is enabled exactly when its one-page step would stay in range |
| PageNavigation.SinglePageDisablesBoth | src/app/components/page-navigation.tsx:16-17 | with one page and page 0, both buttons are disabled and neither click fires |
| PageNavigation.IndicatorWords | src/app/components/page-navigation.tsx:40-42 | the indicator text is three words: the one-based page, "/", and the page count |
| PageNavigation.IndicatorShowsOneBasedPage | src/app/components/page-navigation.tsx:41 | the indicator's first word reads as currentPage + 1 and its last word as totalPages; for a page in range the page read from the first word is at least 1 and at most the count read from the last |
| PageFlip.Render | src/app/components/page-flip.tsx:14-26 | the children are rendered whatever the page count, and rendered controls always get a page count of at least two |
| PageFlip.NavigationForwarded | src/app/components/page-flip.tsx:18-25 | the controls are rendered exactly when totalPages > 1, and they get currentPage, totalPages and both callbacks unchanged |
| PageFlip.ShownControlsCanMove | src/app/components/page-flip.tsx:18-24 | when the controls are shown on a page in range, at least one of previous and next is enabled |

## Left out

- Markup, styling and the `PhotoDisplay` object-URL lifecycle in `entry-form.tsx` are rendering and browser resource handling. So are the whole of `src/app/components/logbook-page.tsx` and `src/app/layout.tsx`.
- `src/components/ui/date-picker.tsx` is not part of this model. It wraps a calendar library and `Date` month arithmetic.
- `parseFloat` and the `toString` of grams values are parameters, not definitions. This is floating point. `Float` has no infinities and no `-0`.
- EntryForm.EditRoundTrip: holds only for entries whose colour amounts parse back (`ParsesBack`) and whose developer amount reads back (`ReadsBack`) through the format and parse. The model does not decide which decimal numbers those are, because the floating-point conversions are not modelled. In the source it also holds only while every `parts` value and the `processingTime` are below 10^21 in magnitude. From there on, `toString` writes exponent notation and `parseInt` reads back only the leading digit.
- EntryForm.FormulasOfRowsOf: needs the same parse-back for each formula's colour. In the source it also holds only while every `parts` value is below 10^21 in magnitude, for the same reason.
- JsText.IntToString: writes plain decimal digits for every integer. JavaScript's `Number#toString` switches to exponent notation from 10^21 on (`"1e+21"`), so the model and the source agree only below that magnitude.
- JsText.ParseIntOfRendered: the read-back holds in the source only for magnitudes below 10^21. Above that, `parseInt` stops at the `e` and reads back only the leading digit.
- JsText.ParseIntRoundTrip: holds in the source only below 10^21 in magnitude, for the same reason.
- EntryForm.EditFormMirrorsFormulas: a parts value of 10^21 or more is shown in exponent notation in the source, and its text parses back to the leading digit, not to the parts value.
- EntryForm.EditFormCarriesFields: the processing-time read-back has the same 10^21 limit.
- EntryForm.SubmittedId: the clock reading is assumed below 10^21 milliseconds. Below that, `toString` writes plain digits.
- EntryForm.EntryFormState.HandleSubmit: whether `onSubmit` throws is a parameter, `onSubmitThrew`. For both pages shown, it throws, in this model, exactly when their own `HandleSubmit` gives `ReadFailed`.
- Storage.LocalStorage.SetItem: the browser's `setItem` can throw (`QuotaExceededError` when storage is full, `SecurityError` when it is blocked). Then nothing is written, there is no navigation and the form is not reset. The model's `SetItem` always succeeds.
- JsText.ParseInt: does not model the `0x` hexadecimal prefix, the loss of precision past 2^53, or white space outside the common ASCII set, NBSP and BOM.
- EntryForm.EntryFormState.HandleChange: requires that the event name be one the form renders for an existing row or plain input. For other names, the code adds a stray property (`[name]: value`) or writes past the end of the row array. This model cannot represent either.
- EntryForm.EntryFormState.RemoveFormula: the code's guard reads the row count of the last render, while the update reads the latest state. With a single sequential state, the two are the same here.
- `Date.now()` and `new Date().toISOString().split('T')[0]` are clock reads. They are passed in as `clockMillis` and `today`.
- `JSON.stringify` is not modelled. In particular, photo files are not stored as `{}`: entries are kept in storage as values.
- `Storage.StoredValue` collapses every stored text into three cases: empty, an array of entries, or unreadable. It does not model a JSON array of non-entries, or a JSON string whose spread gives characters.
- `router.push` is modelled only as the returned `Redirected(path)`. The page change itself is not modelled.
- The resets of the file input's DOM value (`entry-form.tsx` lines 95-96 and 140) are not modelled.
- Not modelled because no file here implements them: updating or deleting by id, clamping the page after a deletion, the animated page-turn state, and the logbook's choice of which entries to show.
