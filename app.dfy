/**
 * The application component's `entries` state and its three handlers. The
 * random id (`Math.random`), the clock (`Date.now`) and the user's answer to
 * `window.confirm` are parameters.
 */
module AppState {
  import opened Entries
  import opened StorageService

  class App {
    /** The `entries` React state the statistics, list and charts are computed from. */
    var entries: seq<Entry>
    /** The entry store the handlers write through. */
    const store: EntryStore

    /** The state mirrors what `getEntries` would return. */
    ghost predicate Synced()
      reads this, store
    {
      entries == Load(store.storage)
    }

    /** Mounting: `setEntries(getEntries())`. */
    constructor Mount(store: EntryStore)
      ensures this.store == store && entries == Load(store.storage)
      ensures Synced()
    {
      var loaded := store.GetEntries();
      this.store := store;
      entries := loaded;
    }

    /** `handleAddEntry`: a new entry stamped `now` is appended through the store. */
    method HandleAddEntry(id: string, amount: real, now: int)
      modifies this, store
      ensures entries == old(Load(store.storage)) + [Entry(id, amount, now)]
      ensures old(Synced()) ==> entries == old(entries) + [Entry(id, amount, now)]
      ensures store.storage == old(store.storage)[StorageKey := Json(entries)]
      ensures Synced()
    {
      var newEntry := Entry(id, amount, now);
      var updated := store.SaveEntry(newEntry);
      entries := updated;
    }

    /** `handleDeleteEntry`: only a confirmed delete touches the state or the store. */
    method HandleDeleteEntry(id: string, confirmed: bool)
      modifies this, store
      ensures !confirmed ==> entries == old(entries) && store.storage == old(store.storage)
      ensures confirmed ==> entries == RemoveId(old(Load(store.storage)), id)
      ensures confirmed ==> store.storage == old(store.storage)[StorageKey := Json(entries)]
      ensures confirmed && old(Synced()) ==> entries == RemoveId(old(entries), id)
      ensures old(Synced()) ==> Synced()
    {
      if confirmed {
        var updated := store.DeleteEntryById(id);
        entries := updated;
      }
    }

    /** `handleClearData`: only a confirmed clear empties the state and removes the slot. */
    method HandleClearData(confirmed: bool)
      modifies this, store
      ensures !confirmed ==> entries == old(entries) && store.storage == old(store.storage)
      ensures confirmed ==> entries == [] && store.storage == old(store.storage) - {StorageKey}
      ensures old(Synced()) ==> Synced()
    {
      if confirmed {
        store.ClearAllEntries();
        entries := [];
      }
    }
  }
}
