/**
 * The entry store: one localStorage slot, `hydrotrack_entries`, holding the
 * JSON encoding of the entry list, with read, append, delete-by-id and clear.
 */
module StorageService {
  import opened Entries

  /** The only localStorage key this store reads or writes. */
  const StorageKey: string := "hydrotrack_entries"

  /** What the slot can hold as `getEntries` sees it: the empty string (falsy,
      so read as no entries), text that `JSON.parse` rejects, or the JSON
      encoding of an entry list (encoding then parsing gives the list back). */
  datatype Stored = EmptyText | Unparsable | Json(entries: seq<Entry>)

  /** The list `getEntries` returns for a given localStorage content: the
      stored list when the slot holds one, and the empty list when the key
      is missing, holds the empty string, or holds text that does not parse. */
  function Load(storage: map<string, Stored>): (es: seq<Entry>)
    ensures StorageKey in storage && storage[StorageKey].Json? ==> es == storage[StorageKey].entries
    ensures StorageKey !in storage || storage[StorageKey] == EmptyText || storage[StorageKey] == Unparsable ==> es == []
  {
    if StorageKey !in storage then []
    else match storage[StorageKey]
      case EmptyText => []
      case Unparsable => []
      case Json(es) => es
  }

  function IdIsNot(id: string): Entry -> bool
  {
    (e: Entry) => e.id != id
  }

  /** `current.filter(e => e.id !== id)`. */
  function RemoveId(es: seq<Entry>, id: string): (r: seq<Entry>)
    ensures forall i :: 0 <= i < |r| ==> r[i].id != id && r[i] in es
    ensures forall i :: 0 <= i < |es| && es[i].id != id ==> es[i] in r
  {
    Filter(es, IdIsNot(id))
  }

  /** Removal keeps the surviving entries in their original order: it works
      piecewise on a concatenation, and on one entry keeps it exactly when
      its id differs. */
  lemma RemoveIdOrder(a: seq<Entry>, b: seq<Entry>, e: Entry, id: string)
    ensures RemoveId(a + b, id) == RemoveId(a, id) + RemoveId(b, id)
    ensures RemoveId([e], id) == if e.id == id then [] else [e]
  {
    FilterAppend(a, b, IdIsNot(id));
    assert RemoveId([e], id) == (if e.id != id then [e] else []) + Filter([e][1..], IdIsNot(id));
  }

  /** Deleting an id no entry carries changes nothing. */
  lemma RemoveAbsentId(es: seq<Entry>, id: string)
    requires forall i :: 0 <= i < |es| ==> es[i].id != id
    ensures RemoveId(es, id) == es
  {
    FilterAllPass(es, IdIsNot(id));
  }

  /** Deleting twice is deleting once. */
  lemma RemoveIdIdempotent(es: seq<Entry>, id: string)
    ensures RemoveId(RemoveId(es, id), id) == RemoveId(es, id)
  {
    FilterIdempotent(es, IdIsNot(id));
  }

  /** `getEntries` depends on the `hydrotrack_entries` slot alone. */
  lemma LoadReadsOneKey(s1: map<string, Stored>, s2: map<string, Stored>)
    requires StorageKey in s1 <==> StorageKey in s2
    requires StorageKey in s1 ==> s1[StorageKey] == s2[StorageKey]
    ensures Load(s1) == Load(s2)
  {
  }

  /** localStorage as the store uses it. */
  class EntryStore {
    /** The whole of localStorage: the other keys belong to other stores. */
    var storage: map<string, Stored>

    constructor (initial: map<string, Stored>)
      ensures storage == initial
    {
      storage := initial;
    }

    /** `getEntries`: the parsed slot, or [] when it is missing, empty or unparsable. */
    method GetEntries() returns (entries: seq<Entry>)
      ensures entries == Load(storage)
      ensures StorageKey !in storage ==> entries == []
      ensures StorageKey in storage && storage[StorageKey].Json? ==> entries == storage[StorageKey].entries
    {
      if StorageKey !in storage {
        // localStorage.getItem returned null
        return [];
      }
      match storage[StorageKey] {
        case EmptyText => entries := [];
        case Unparsable => entries := [];  // JSON.parse threw; the error is swallowed
        case Json(es) => entries := es;
      }
    }

    /** `saveEntry`: read, append, write back, and return the new list. */
    method SaveEntry(entry: Entry) returns (updated: seq<Entry>)
      modifies this
      ensures updated == old(Load(storage)) + [entry]
      ensures |updated| == |old(Load(storage))| + 1 && updated[|updated| - 1] == entry
      ensures storage == old(storage)[StorageKey := Json(updated)]
      ensures Load(storage) == updated
    {
      var current := GetEntries();
      updated := current + [entry];
      storage := storage[StorageKey := Json(updated)];
    }

    /** `clearAllEntries`: remove the slot. */
    method ClearAllEntries()
      modifies this
      ensures storage == old(storage) - {StorageKey}
      ensures Load(storage) == []
    {
      storage := storage - {StorageKey};
    }

    /** `deleteEntryById`: read, drop every entry with the id, write back
      (also when nothing was dropped), and return the new list. */
    method DeleteEntryById(id: string) returns (updated: seq<Entry>)
      modifies this
      ensures updated == RemoveId(old(Load(storage)), id)
      ensures storage == old(storage)[StorageKey := Json(updated)]
      ensures Load(storage) == updated
    {
      var current := GetEntries();
      updated := RemoveId(current, id);
      storage := storage[StorageKey := Json(updated)];
    }
  }
}
