# useCourrierStorage in Dafny

A model of `useCourrierStorage(type)`, the hook that keeps the mail records
("courriers") of one category in the browser's localStorage. The hook keeps
three things in step:

- the in-memory list and its `loading` flag;
- one localStorage key, `nbh_courriers_arrive` for category `'ARRIVE'` and
  `nbh_courriers_depart` for every other category;
- a `courriersUpdated` notification, which every instance of that category,
  the saver included, uses to reload.

The model has four modules:

- `Values` (values.dfy): records as maps from property names to primitive
  values. `undefined` is `None`, and `r.id === id` is `IdOf(r) == id`.
- `CourrierList` (courrier_list.dfy): the pure list transformations behind
  add (prepend a stamped record), update (merge a patch into every record
  with a matching id) and delete (filter out every record with a matching
  id). It also has the lemmas relating them.
- `Sync` (sync.dfy): the category-to-key choice, what a stored value loads
  as, and the reload filter for notifications.
- `CourrierStore` (store.dfy): the imperative part.
  - A `LocalStorage` class stands for the browser's storage, and every store
    is handed the same object.
  - A `Store` class holds `typ`, `items` and `loading`, with methods `Load`,
    `Save`, `Add`, `Update`, `UpdateStatus`, `Delete` and
    `OnCourriersUpdated`.
  - Every saving method (`Save`, `Add`, `Update`, `UpdateStatus`,
    `Delete`) is specified by the two-state predicate `Store.Saved`. On an
    accepted write, the store's own slot holds the new list and no other
    slot changes, `items` is the new list, and one notification
    `{type, action: 'update', data}` comes back. On a refused write,
    nothing changes and no notification comes back.
  - `NewestFirstScenario`, `AddThenLoadScenario`, `SyncScenario`,
    `RefusedSaveScenario` and `CorruptScenario` chain store operations and
    state the outcome.

How the browser and React parts are modelled:

- Outside inputs are parameters:
  - the clock readings (`Date.now()` and each `toISOString()`);
  - whether the browser accepts a write (it refuses when the quota is
    exceeded; the source sees this as an exception from `setItem`).
- `Save` returns the notification instead of dispatching it. The caller
  delivers it to each store with `OnCourriersUpdated(Some(n.typ))`.
- `refreshCourriers` and the `storage` event listener are `loadCourriers`
  itself in the source, so both are `Store.Load` here.

Where the code does less than a caller might assume, the model follows the code:

- Update and delete act on every record whose id matches, not on "the"
  record. With duplicate ids, delete removes all of them, and each matched
  record gets its own clock reading.
- A stored empty string loads as the empty list, just like a missing key.
- Nothing makes `updatedAt` strictly increase. The code only writes a fresh
  clock reading.

## Model

| member | source | states |
|---|---|---|
| `Values.Truthy` | hooks/useCourrierStorage.js:78 | the falsy values (those `!` turns to true) are exactly `undefined`, `null`, `false`, `0` and the empty string |
| `Values.IdMatches` | hooks/useCourrierStorage.js:57 | definition of `r.id === id`, with an absent id reading as `undefined`; used by `Count`, `Updated` and `Deleted` (also the `!==` of line 71) |
| `Sync.Lookup` | hooks/useCourrierStorage.js:13 | definition of `localStorage.getItem`: `None` for a key never written; properties in `WriteThenLoad` and `WriteIsolated` |
| `CourrierStore.LocalStorage.GetItem` | hooks/useCourrierStorage.js:13 | definition: the storage object's `getItem`, which is `Lookup` on its slots |
| `Sync.ShouldReload` | hooks/useCourrierStorage.js:78 | definition of the listener's test; properties in `ReloadIff`, `ReloadsOnOwnSave` and `ReloadImpliesSameSlot` |
| `CourrierList.Added` | hooks/useCourrierStorage.js:49 | definition of `[courrierWithId, ...courriers]`; properties in `AddedShape`, `DeleteUndoesAdd` and `AddKeepsIdsUnique` |
| `CourrierStore.Store.Saved` | hooks/useCourrierStorage.js:25-37 | the outcome every saving method shares: accepted, the own slot holds the list, no other slot changes, `items` is the list and the notification `{type, 'update', list}` is returned; refused, storage and `items` unchanged and no notification |
| `Sync.StorageKey` | hooks/useCourrierStorage.js:8 | the key is `nbh_courriers_arrive` exactly when the category is `'ARRIVE'`, and `nbh_courriers_depart` exactly when it is not |
| `Sync.SharedSlotIff` | hooks/useCourrierStorage.js:8 | two categories share a slot if and only if both or neither are `'ARRIVE'` |
| `Sync.Loaded` | hooks/useCourrierStorage.js:13-18 | a stored list loads as itself; a missing key, an empty string or corrupt text loads as the empty list |
| `Sync.WriteThenLoad` | hooks/useCourrierStorage.js:13-27 | writing a list under a key and loading that key gives the list back (the save/load round trip) |
| `Sync.WriteIsolated` | hooks/useCourrierStorage.js:8-27 | a write by one category leaves unchanged what a store of the other slot loads |
| `Sync.ReloadIff` | hooks/useCourrierStorage.js:77-81 | an event with no category or a falsy one reloads every store; one with a truthy category reloads a store if and only if the category is the store's own |
| `Sync.ReloadsOnOwnSave` | hooks/useCourrierStorage.js:31-33 | the notification a save emits reloads the store that emitted it |
| `Sync.ReloadImpliesSameSlot` | hooks/useCourrierStorage.js:8-78 | a reload caused by a truthy category only happens in a store that reads the slot that category writes |
| `Sync.SameSlotWithoutReload` | hooks/useCourrierStorage.js:8-78 | the converse fails: any two distinct truthy non-`'ARRIVE'` categories share a slot and neither reloads on the other's saves |
| `CourrierList.Count` | hooks/useCourrierStorage.js:57 | the number of records whose id is strictly equal to the target is at most the length, and is zero exactly when no record matches |
| `CourrierList.Stamp` | hooks/useCourrierStorage.js:41-47 | the new record keeps every caller field except `id`, `createdAt`, `updatedAt` and `type`, which are set to the clock readings and the store's category |
| `CourrierList.AddedShape` | hooks/useCourrierStorage.js:49 | the saved list is one longer, starts with the new record, and its tail is the old list |
| `CourrierList.DeleteUndoesAdd` | hooks/useCourrierStorage.js:40-73 | deleting the id of a record just added restores the old list, when no older record had that id |
| `CourrierList.AddKeepsIdsUnique` | hooks/useCourrierStorage.js:43-49 | prepending a record whose id is new keeps ids unique |
| `CourrierList.Merge` | hooks/useCourrierStorage.js:58 | the merged record has the patch's fields over the record's own and `updatedAt` forced to the given time, with nothing else added or lost |
| `CourrierList.MergeIdempotent` | hooks/useCourrierStorage.js:58 | merging the same patch at the same time twice equals merging it once |
| `CourrierList.Updated` | hooks/useCourrierStorage.js:56-60 | same length and order; non-matching records are unchanged, and matching ones are merged with the clock reading taken at their position |
| `CourrierList.UpdatedNoMatch` | hooks/useCourrierStorage.js:56-60 | updating an id that no record carries gives back the old list |
| `CourrierList.UpdatedRecord` | hooks/useCourrierStorage.js:57-58 | a matched record gets the patch's fields over its own, keeps the others, and has `updatedAt` set to its clock reading whatever the patch says |
| `CourrierList.UpdatedKeepsIds` | hooks/useCourrierStorage.js:56-60 | a patch without an `id` property changes no record's id |
| `CourrierList.UpdatedIdempotent` | hooks/useCourrierStorage.js:56-60 | repeating an update with the same patch and clock changes nothing more, for any patch, including one that carries an `id` |
| `CourrierList.StatusPatch` | hooks/useCourrierStorage.js:66 | the patch `updateStatus` uses has exactly the property `statut`, holding the new status |
| `CourrierList.StatusUpdated` | hooks/useCourrierStorage.js:65-67 | after a status update every matched record has the new `statut`, and no id changes |
| `CourrierList.Deleted` | hooks/useCourrierStorage.js:71 | the result is shorter than the old list by exactly the number of records whose id matches the target |
| `CourrierList.DeletedMembers` | hooks/useCourrierStorage.js:71 | a record is in the result if and only if it is in the old list and its id differs from the target |
| `CourrierList.DeletedConcat` | hooks/useCourrierStorage.js:71 | filtering distributes over concatenation, so the kept records stay in their original order |
| `CourrierList.DeletedUnchangedIff` | hooks/useCourrierStorage.js:71 | delete leaves the list unchanged if and only if no record matches |
| `CourrierList.CountAtMostOne` | hooks/useCourrierStorage.js:71 | with unique ids, a defined id matches at most one record |
| `CourrierList.DeletedDropsOne` | hooks/useCourrierStorage.js:71 | with unique ids, deleting a present id removes exactly one record |
| `CourrierList.DeletedIdempotent` | hooks/useCourrierStorage.js:71 | deleting the same id twice equals deleting it once |
| `CourrierList.DeletedIgnoresMatched` | hooks/useCourrierStorage.js:71 | two lists that agree on all ids and on every kept record give the same result |
| `CourrierList.DeleteAfterUpdate` | hooks/useCourrierStorage.js:55-73 | deleting an id after updating it (with a patch that keeps ids) equals deleting it, and the update keeps the number of matches |
| `CourrierStore.LocalStorage.SetItem` | hooks/useCourrierStorage.js:27 | an accepted write sets exactly that key to the list; a refused one changes nothing |
| `CourrierStore.Store.constructor` | hooks/useCourrierStorage.js:5-6 | a new store starts with an empty list and `loading` set |
| `CourrierStore.Store.Load` | hooks/useCourrierStorage.js:11-22 | `items` becomes what the slot loads as, `loading` is cleared in every case, an error is logged exactly when the stored text is corrupt, and only `items` and `loading` change |
| `CourrierStore.Store.Save` | hooks/useCourrierStorage.js:25-37 | accepted: the slot holds the list, no other slot changes, `items` is the list and one notification `{type, 'update', list}` is returned; refused: storage and `items` unchanged and no notification; `loading` never changes |
| `CourrierStore.Store.Add` | hooks/useCourrierStorage.js:40-52 | returns the stamped record whatever the save's outcome, and saves the stamped record followed by the old list |
| `CourrierStore.Store.Update` | hooks/useCourrierStorage.js:55-62 | saves the updated list built from the in-memory list |
| `CourrierStore.Store.UpdateStatus` | hooks/useCourrierStorage.js:65-67 | has exactly the outcome of an update with patch `{statut: status}` |
| `CourrierStore.Store.Delete` | hooks/useCourrierStorage.js:70-73 | saves the filtered list built from the in-memory list |
| `CourrierStore.Store.OnCourriersUpdated` | hooks/useCourrierStorage.js:77-81 | reloads, with the effect of `Load`, exactly when the event's category is the store's own or is missing or falsy; otherwise nothing changes; an error is logged exactly when it reloads corrupt text |
| `CourrierStore.NewestFirstScenario` | hooks/useCourrierStorage.js:40-67 | with distinct `Date.now()` readings for the two additions, starting empty, adding A then B gives `[B, A]`; a status update of A then sets A's `statut` and leaves B as it was |
| `CourrierStore.AddThenLoadScenario` | hooks/useCourrierStorage.js:11-52 | after an accepted add, a fresh load yields the stamped record in front of what the slot held before |
| `CourrierStore.SyncScenario` | hooks/useCourrierStorage.js:11-84 | after a save that is delivered to all stores, the saver and a same-category peer hold the saved list, and a store of the other category keeps what it had loaded |
| `CourrierStore.RefusedSaveScenario` | hooks/useCourrierStorage.js:25-37 | after a refused save, the list is unchanged, nothing is returned, and a reload reads the same list |
| `CourrierStore.CorruptScenario` | hooks/useCourrierStorage.js:11-22 | corrupt stored text loads as the empty list, logs an error and clears `loading` without raising |

## Left out

- React machinery: `useState`, `useCallback`, `useEffect`, dependency arrays and re-render timing. State is two fields updated synchronously, so the stale closures React can produce are not modelled.
- Listener registration and removal on `window`, and the dispatch itself. A save returns its notification, and the caller delivers it. In the browser, dispatch is synchronous and the saving store hears its own event too; `SyncScenario` shows that this reload reads back the list just written.
- JSON text. A stored value is abstracted as a missing key, the empty string, corrupt text or a list of records. Stored JSON that parses to a non-array (such as `null`, which the source would take as the list) is not modelled.
- Record values are primitive JSON values with integer numbers. Floating point, `NaN`, nested objects and arrays, and properties holding `undefined` are not modelled.
- A store whose category is `undefined`: the category is a defined value. A notification's category may still be missing.
- Clock readings are parameters. The model proves neither that ids are unique nor that `updatedAt` increases: the code guarantees neither, since two additions in the same millisecond get the same id.
- Value semantics: in the source, `addCourrier` returns the very object it puts at the head of the list, and the notification's `data` is the in-memory array itself, so a caller that mutates either changes the store's list. Records here are values, so that aliasing is not modelled.
- `localStorage.getItem` throwing (for example when storage is disabled): the source catches and logs it like a parse error, but `GetItem` here never fails.
- `console.error` is reduced to the `logged` results of `Load` and `OnCourriersUpdated`, and to `Save`'s missing notification.
- Several live instances interleaving their operations, and the lost updates this can cause. This is event-loop ordering across instances and tabs; the model covers one operation at a time.
