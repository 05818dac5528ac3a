/**
 * The browser's `localStorage` as the two entry pages use it: the diary is one
 * JSON array of entries under the key "hairDiary", oldest first, and a submit
 * reads it, appends the new entry and writes the whole array back.
 */
module Storage {

  import opened Optional
  import opened Diary

  const DiaryKey: string := "hairDiary"

  /** What a key holds, as `JSON.parse` reads it back. */
  datatype StoredValue =
    | EmptyText                       // "", which `|| "[]"` replaces
    | EntryList(entries: seq<Entry>)  // a JSON array of entries
    | Malformed                       // text `JSON.parse` rejects, or JSON that is not an array

  type Items = map<string, StoredValue>

  /** How a submit ends: it navigates to a page, or reading the diary threw and nothing happened. */
  datatype SubmitOutcome = Redirected(path: string) | ReadFailed

  /** Parsing the stored text, a missing or empty one read as "[]"; `None` as result means the parse threw. */
  function ParseStored(stored: Option<StoredValue>): (r: Option<seq<Entry>>)
    ensures r.None? <==> stored == Some(Malformed)
    ensures stored.None? || stored == Some(EmptyText) ==> r == Some([])
  {
    match stored
    case None => Some([])
    case Some(EmptyText) => Some([])
    case Some(EntryList(es)) => Some(es)
    case Some(Malformed) => None
  }

  function Lookup(items: Items, key: string): Option<StoredValue>
  {
    if key in items then Some(items[key]) else None
  }

  /** The diary as the pages read it. */
  function ReadDiary(items: Items): Option<seq<Entry>>
  {
    ParseStored(Lookup(items, DiaryKey))
  }

  /** The storage after one submit of `entry`; `None` when reading the diary threw, so nothing was written. */
  function AfterSubmit(items: Items, entry: Entry): (r: Option<Items>)
    ensures r.None? <==> Lookup(items, DiaryKey) == Some(Malformed)
    ensures r.Some? ==> r.value.Keys == items.Keys + {DiaryKey}
  {
    match ReadDiary(items)
    case None => None
    case Some(existing) => Some(items[DiaryKey := EntryList(existing + [entry])])
  }

  /** Submitting `entries` one after the other, stopping at the first submit that throws. */
  function AfterSubmits(items: Items, entries: seq<Entry>): Option<Items>
    decreases |entries|
  {
    if entries == [] then Some(items)
    else
      match AfterSubmit(items, entries[0])
      case None => None
      case Some(next) => AfterSubmits(next, entries[1..])
  }

  /** The key-value store, its contents a map the two operations read and replace. */
  class LocalStorage {
    var items: Items

    constructor (items: Items)
      ensures this.items == items
    {
      this.items := items;
    }

    /** `localStorage.getItem(key)`: `None` for `null`. */
    function GetItem(key: string): (r: Option<StoredValue>)
      reads this
      ensures r.Some? <==> key in items
      ensures r.Some? ==> r.value == items[key]
    {
      Lookup(items, key)
    }

    /** `localStorage.setItem(key, value)`. */
    method SetItem(key: string, value: StoredValue)
      modifies this
      ensures items == old(items)[key := value]
    {
      items := items[key := value];
    }
  }

  /** After a submit the stored diary is the old one followed by the new entry. */
  lemma SubmitAppends(items: Items, entry: Entry)
    requires ReadDiary(items).Some?
    ensures AfterSubmit(items, entry).Some?
    ensures ReadDiary(AfterSubmit(items, entry).value) == Some(ReadDiary(items).value + [entry])
  {
  }

  /** Every earlier entry stays, unchanged and in order; the new one is last and the count grows by one. */
  lemma SubmitKeepsEarlierEntries(items: Items, entry: Entry)
    requires ReadDiary(items).Some?
    ensures var before := ReadDiary(items).value;
      var after := ReadDiary(AfterSubmit(items, entry).value).value;
      && |after| == |before| + 1
      && after[..|before|] == before
      && after[|before|] == entry
  {
    var before := ReadDiary(items).value;
    assert (before + [entry])[..|before|] == before;
  }

  /** With no diary yet (no key, or an empty text), the first submit stores exactly the new entry. */
  lemma FirstSubmitStoresOnlyEntry(items: Items, entry: Entry)
    requires DiaryKey !in items || items[DiaryKey] == EmptyText
    ensures AfterSubmit(items, entry).Some?
    ensures AfterSubmit(items, entry).value[DiaryKey] == EntryList([entry])
  {
  }

  /** Only the diary key is written: every other key keeps its value, and no key disappears. */
  lemma SubmitWritesOnlyDiaryKey(items: Items, entry: Entry)
    requires ReadDiary(items).Some?
    ensures var after := AfterSubmit(items, entry).value;
      && after.Keys == items.Keys + {DiaryKey}
      && forall k :: k in items && k != DiaryKey ==> after[k] == items[k]
  {
  }

  /** A diary that does not parse makes the submit throw before anything is written. */
  lemma MalformedDiaryAbortsSubmit(items: Items, entry: Entry)
    requires DiaryKey in items && items[DiaryKey] == Malformed
    ensures AfterSubmit(items, entry).None?
  {
  }

  /** Two submits `e` then `f` leave `e` just before `f` at the end: oldest first. */
  lemma TwoSubmitsOldestFirst(items: Items, e: Entry, f: Entry)
    requires ReadDiary(items).Some?
    ensures AfterSubmits(items, [e, f]).Some?
    ensures ReadDiary(AfterSubmits(items, [e, f]).value) == Some(ReadDiary(items).value + [e, f])
  {
    SubmitsAppendInOrder(items, [e, f]);
  }

  /** Submitting a sequence of entries appends all of them, in the order given. */
  lemma {:induction false} SubmitsAppendInOrder(items: Items, entries: seq<Entry>)
    requires ReadDiary(items).Some?
    ensures AfterSubmits(items, entries).Some?
    ensures ReadDiary(AfterSubmits(items, entries).value) == Some(ReadDiary(items).value + entries)
    decreases |entries|
  {
    if entries == [] {
      assert ReadDiary(items).value + entries == ReadDiary(items).value;
    } else {
      var before := ReadDiary(items).value;
      var next := AfterSubmit(items, entries[0]).value;
      SubmitsAppendInOrder(next, entries[1..]);
      assert before + [entries[0]] + entries[1..] == before + entries;
    }
  }

  /** Replaying submits against an empty storage stores exactly the submitted entries, oldest first. */
  lemma ReplayFromEmpty(entries: seq<Entry>)
    ensures AfterSubmits(map[], entries).Some?
    ensures ReadDiary(AfterSubmits(map[], entries).value) == Some(entries)
  {
    SubmitsAppendInOrder(map[], entries);
    assert [] + entries == entries;
  }
}
