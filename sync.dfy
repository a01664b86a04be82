/** The pure rules the store follows at its two boundaries: which
    localStorage key a category uses, what a stored value loads as, and which
    `courriersUpdated` notifications make a store reload.
 */
module Sync {
  import opened Values

  const ArriveKey: string := "nbh_courriers_arrive"
  const DepartKey: string := "nbh_courriers_depart"

  /** The category whose records live under `ArriveKey`. */
  const Arrive: Value := Str("ARRIVE")

  /** The key a store of category `typ` reads and writes: one key for
      `'ARRIVE'`, the other for every other category. */
  function StorageKey(typ: Value): (k: string)
    ensures k == ArriveKey <==> typ == Arrive
    ensures k == DepartKey <==> typ != Arrive
  {
    if typ == Arrive then ArriveKey else DepartKey
  }

  /** Two stores share a slot exactly when both or neither are `'ARRIVE'`. */
  lemma SharedSlotIff(a: Value, b: Value)
    ensures StorageKey(a) == StorageKey(b) <==> (a == Arrive <==> b == Arrive)
  {
  }

  /** What localStorage holds under one key: the empty string, text that
      `JSON.parse` rejects, or the serialisation of a list of records. */
  datatype Stored = Blank | Corrupt | Items(records: seq<Record>)

  /** `localStorage.getItem(key)`: `None` for a key never written. */
  function Lookup(slots: map<string, Stored>, key: string): Option<Stored> {
    if key in slots then Some(slots[key]) else None
  }

  /** What `loadCourriers` puts in the list for the value read: the stored
      list, or the empty list when the key is missing, holds the empty string
      or holds text that does not parse. */
  function Loaded(saved: Option<Stored>): (r: seq<Record>)
    ensures (saved.Some? && saved.value.Items?) ==> r == saved.value.records
    ensures saved.None? || saved.value.Blank? || saved.value.Corrupt? ==> r == []
  {
    match saved
    case Some(Items(list)) => list
    case _ => []
  }

  /** Writing a list under a key and reading that key back gives the list. */
  lemma WriteThenLoad(slots: map<string, Stored>, key: string, list: seq<Record>)
    ensures Loaded(Lookup(slots[key := Items(list)], key)) == list
  {
  }

  /** A write for one category leaves what the other category loads alone. */
  lemma WriteIsolated(slots: map<string, Stored>, a: Value, b: Value, list: seq<Record>)
    requires (a == Arrive) != (b == Arrive)
    ensures Loaded(Lookup(slots[StorageKey(a) := Items(list)], StorageKey(b)))
         == Loaded(Lookup(slots, StorageKey(b)))
  {
  }

  /** The payload of a `courriersUpdated` event raised by a save. */
  datatype Notification = Notification(typ: Value, action: string, data: seq<Record>)

  /** `event.detail?.type === typ || !event.detail?.type`, where
      `detailType` is `event.detail?.type` (`None` when the event has no
      detail or its detail has no type). */
  predicate ShouldReload(typ: Value, detailType: Option<Value>) {
    detailType == Some(typ) || !Truthy(detailType)
  }

  /** A notification without a category, or with a falsy one, reloads every
      store; one with a truthy category reloads exactly the stores of that
      category. */
  lemma ReloadIff(typ: Value, detailType: Option<Value>)
    ensures !Truthy(detailType) ==> ShouldReload(typ, detailType)
    ensures Truthy(detailType) ==> (ShouldReload(typ, detailType) <==> detailType == Some(typ))
  {
  }

  /** A store reloads on the notification of its own saves. */
  lemma ReloadsOnOwnSave(typ: Value, data: seq<Record>)
    ensures ShouldReload(typ, Some(Notification(typ, "update", data).typ))
  {
  }

  /** A reload triggered by a truthy category only happens in a store that
      reads the same slot. The converse fails: see `SameSlotWithoutReload`. */
  lemma ReloadImpliesSameSlot(typ: Value, other: Value)
    requires Truthy(Some(other)) && ShouldReload(typ, Some(other))
    ensures StorageKey(typ) == StorageKey(other)
  {
  }

  /** Any two distinct truthy categories other than `'ARRIVE'` share the
      depart slot, yet neither reloads on the other's saves. (A falsy
      category also uses that slot, but its saves reload every store.) */
  lemma SameSlotWithoutReload(a: Value, b: Value)
    requires Truthy(Some(a)) && Truthy(Some(b)) && a != b && a != Arrive && b != Arrive
    ensures StorageKey(a) == StorageKey(b)
    ensures !ShouldReload(a, Some(b)) && !ShouldReload(b, Some(a))
  {
  }
}
