/** The home page: a new entry's form whose submit stores the entry and opens the logbook. */
module HomePage {

  import opened Diary
  import opened Storage

  /** `handleSubmit(entry)`: append the entry to the stored diary, then go to "/logbook". */
  method HandleSubmit(store: LocalStorage, entry: Entry) returns (outcome: SubmitOutcome)
    modifies store
    ensures AfterSubmit(old(store.items), entry).Some? ==>
              store.items == AfterSubmit(old(store.items), entry).value && outcome == Redirected("/logbook")
    ensures AfterSubmit(old(store.items), entry).None? ==>
              store.items == old(store.items) && outcome == ReadFailed
  {
    var existing := ParseStored(store.GetItem(DiaryKey));
    if existing.None? {
      return ReadFailed;
    }
    var updated := existing.value + [entry];
    store.SetItem(DiaryKey, EntryList(updated));
    outcome := Redirected("/logbook");
  }
}
