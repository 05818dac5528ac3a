/** The logbook entry page: the same form; its submit stores the entry and opens the home page. */
module LogbookPage {

  import opened Diary
  import opened Storage

  /** `handleSubmit(entry)`: append the entry, newest last, then go to "/". */
  method HandleSubmit(store: LocalStorage, entry: Entry) returns (outcome: SubmitOutcome)
    modifies store
    ensures AfterSubmit(old(store.items), entry).Some? ==>
              store.items == AfterSubmit(old(store.items), entry).value && outcome == Redirected("/")
    ensures AfterSubmit(old(store.items), entry).None? ==>
              store.items == old(store.items) && outcome == ReadFailed
  {
    var existing := ParseStored(store.GetItem(DiaryKey));
    if existing.None? {
      return ReadFailed;
    }
    // The new entry goes last, so that the stored order runs from oldest to newest.
    var updated := existing.value + [entry];
    store.SetItem(DiaryKey, EntryList(updated));
    outcome := Redirected("/");
  }
}
