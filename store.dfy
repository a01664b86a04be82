/** The store behind `useCourrierStorage(type)`: the in-memory list of
    records of one category and its `loading` flag, kept in step with one
    localStorage slot.

    React state becomes two fields updated at once; localStorage becomes a
    shared `LocalStorage` object handed to each store; the
    `courriersUpdated` event a save dispatches is returned to the caller,
    who delivers it to the stores with `OnCourriersUpdated`. The `storage`
    event listener and `refreshCourriers` are `Load` itself.
 */
module CourrierStore {
  import opened Values
  import opened CourrierList
  import opened Sync

  /** The browser's localStorage: one stored value per key. */
  class LocalStorage {
    var slots: map<string, Stored>

    constructor (initial: map<string, Stored>)
      ensures slots == initial
    {
      slots := initial;
    }

    function GetItem(key: string): Option<Stored>
      reads this
    {
      Lookup(slots, key)
    }

    /** `setItem(key, JSON.stringify(list))`. The browser may refuse the
        write (quota exceeded), which the source sees as an exception;
        `accepted` says whether it takes it. */
    method SetItem(key: string, list: seq<Record>, accepted: bool) returns (ok: bool)
      modifies this
      ensures ok == accepted
      ensures slots == if accepted then old(slots)[key := Items(list)] else old(slots)
    {
      ok := accepted;
      if accepted {
        slots := slots[key := Items(list)];
      }
    }
  }

  class Store {
    const typ: Value
    const storage: LocalStorage
    var items: seq<Record>
    var loading: bool

    /** The hook's initial state, before the mount effect's first load. */
    constructor (storage: LocalStorage, typ: Value)
      ensures this.storage == storage && this.typ == typ
      ensures items == [] && loading
    {
      this.storage := storage;
      this.typ := typ;
      items := [];
      loading := true;
    }

    /** The key this store reads and writes. */
    function Key(): string {
      StorageKey(typ)
    }

    /** The outcome of a save of `list`: when the write is accepted, the
        store's slot holds `list` and no other slot changes, `items` is
        `list`, and one notification carrying the category and `list` is
        dispatched; when it is refused, storage and `items` are as they were
        and nothing is dispatched. */
    twostate predicate Saved(new list: seq<Record>, accepted: bool, new n: Option<Notification>)
      reads this, storage
    {
      if accepted then
        && storage.slots == old(storage.slots)[Key() := Items(list)]
        && items == list
        && n == Some(Notification(typ, "update", list))
      else
        && storage.slots == old(storage.slots)
        && items == old(items)
        && n == None
    }

    /** `loadCourriers`: replace the list with what the slot holds, and
        clear `loading` whatever happened. `logged` is the `console.error`
        call made when the stored text does not parse. */
    method Load() returns (logged: bool)
      modifies this`items, this`loading
      ensures items == Loaded(storage.GetItem(Key()))
      ensures !loading
      ensures logged <==> storage.GetItem(Key()) == Some(Corrupt)
    {
      logged := false;
      var saved := storage.GetItem(Key());
      match saved {
        case None =>
          items := [];
        case Some(Blank) =>
          items := [];
        case Some(Corrupt) =>
          logged := true;
          items := [];
        case Some(Items(list)) =>
          items := list;
      }
      loading := false;
    }

    /** `saveCourriers`: write the whole list, then take it as the
        in-memory list and dispatch the notification; a refused write does
        neither. */
    method Save(list: seq<Record>, accepted: bool) returns (n: Option<Notification>)
      modifies this`items, storage
      ensures Saved(list, accepted, n)
    {
      var ok := storage.SetItem(Key(), list, accepted);
      if ok {
        items := list;
        n := Some(Notification(typ, "update", list));
      } else {
        n := None;
      }
    }

    /** `addCourrier`: stamp the caller's fields, save the list with the new
        record in front, and return the record whether or not the save went
        through. */
    method Add(fields: Record, now: int, createdAt: string, updatedAt: string, accepted: bool)
      returns (rec: Record, n: Option<Notification>)
      modifies this`items, storage
      ensures rec == Stamp(fields, typ, now, createdAt, updatedAt)
      ensures Saved(Added(old(items), rec), accepted, n)
    {
      rec := Stamp(fields, typ, now, createdAt, updatedAt);
      n := Save(Added(items, rec), accepted);
    }

    /** `updateCourrier`: merge `patch` into every record whose id is `id`,
        restamping `updatedAt`, and save. */
    method Update(id: Option<Value>, patch: Record, clock: nat -> string, accepted: bool)
      returns (n: Option<Notification>)
      modifies this`items, storage
      ensures Saved(Updated(old(items), id, patch, clock), accepted, n)
    {
      n := Save(Updated(items, id, patch, clock), accepted);
    }

    /** `updateStatus`: an update whose patch is `{ statut: status }`. */
    method UpdateStatus(id: Option<Value>, status: Value, clock: nat -> string, accepted: bool)
      returns (n: Option<Notification>)
      modifies this`items, storage
      ensures Saved(Updated(old(items), id, StatusPatch(status), clock), accepted, n)
    {
      n := Update(id, StatusPatch(status), clock, accepted);
    }

    /** `deleteCourrier`: save the list without the records whose id is `id`. */
    method Delete(id: Option<Value>, accepted: bool) returns (n: Option<Notification>)
      modifies this`items, storage
      ensures Saved(Deleted(old(items), id), accepted, n)
    {
      n := Save(Deleted(items, id), accepted);
    }

    /** The `courriersUpdated` listener: reload when the event carries this
        store's category or no (truthy) category; ignore it otherwise.
        `logged` is the reload's `console.error` on corrupt stored text. */
    method OnCourriersUpdated(detailType: Option<Value>) returns (reloaded: bool, logged: bool)
      modifies this`items, this`loading
      ensures reloaded == ShouldReload(typ, detailType)
      ensures reloaded ==> items == Loaded(storage.GetItem(Key())) && !loading
      ensures !reloaded ==> items == old(items) && loading == old(loading)
      ensures logged <==> reloaded && storage.GetItem(Key()) == Some(Corrupt)
    {
      reloaded := ShouldReload(typ, detailType);
      logged := false;
      if reloaded {
        logged := Load();
      }
    }
  }

  /** The newest-first scenario: with distinct `Date.now()` readings `t1`
      and `t2` for the two additions, in an empty slot, adding A then B gives
      `[B, A]`; setting A's status then touches A only. (With equal readings
      A and B share an id and the status update reaches both.) */
  method NewestFirstScenario(t1: int, t2: int, clock: nat -> string)
    returns (afterAdds: seq<Record>, afterStatus: seq<Record>)
    requires t1 != t2
    ensures |afterAdds| == 2
    ensures Get(afterAdds[0], "subject") == Some(Str("B")) && IdOf(afterAdds[0]) == Some(Num(t2))
    ensures Get(afterAdds[1], "subject") == Some(Str("A")) && IdOf(afterAdds[1]) == Some(Num(t1))
    ensures |afterStatus| == 2 && afterStatus[0] == afterAdds[0]
    ensures Get(afterStatus[1], "statut") == Some(Str("processed"))
    ensures Get(afterStatus[1], "subject") == Some(Str("A"))
  {
    var storage := new LocalStorage(map[]);
    var store := new Store(storage, Arrive);
    var _ := store.Load();
    var a, _ := store.Add(map["subject" := Str("A")], t1, "c1", "u1", true);
    var b, _ := store.Add(map["subject" := Str("B")], t2, "c2", "u2", true);
    afterAdds := store.items;
    var _ := store.UpdateStatus(Some(Num(t1)), Str("processed"), clock, true);
    afterStatus := store.items;
    assert afterAdds == [b, a];
    assert !IdMatches(b, Some(Num(t1))) && IdMatches(a, Some(Num(t1)));
  }

  /** Two stores of one category and one of the other share a storage. A
      save in the first, delivered to all three, brings the second to the
      saved list, leaves the third as it was, and the first's own reload
      reads back what it wrote. */
  method SyncScenario(initial: map<string, Stored>, list: seq<Record>)
    returns (writer: seq<Record>, peer: seq<Record>, other: seq<Record>)
    ensures writer == list && peer == list
    ensures other == Loaded(Lookup(initial, DepartKey))
  {
    var storage := new LocalStorage(initial);
    var w := new Store(storage, Arrive);
    var p := new Store(storage, Arrive);
    var o := new Store(storage, Str("DEPART"));
    var _ := w.Load();
    var _ := p.Load();
    var _ := o.Load();
    var n := w.Save(list, true);
    var _, _ := w.OnCourriersUpdated(Some(n.value.typ));
    var _, _ := p.OnCourriersUpdated(Some(n.value.typ));
    var _, _ := o.OnCourriersUpdated(Some(n.value.typ));
    writer, peer, other := w.items, p.items, o.items;
  }

  /** Adding a record and then loading afresh yields the stamped record in
      front of what the slot held before. */
  method AddThenLoadScenario(initial: map<string, Stored>, typ: Value, fields: Record,
                             now: int, createdAt: string, updatedAt: string)
    returns (rec: Record, loaded: seq<Record>)
    ensures rec == Stamp(fields, typ, now, createdAt, updatedAt)
    ensures loaded == [rec] + Loaded(Lookup(initial, StorageKey(typ)))
  {
    var storage := new LocalStorage(initial);
    var s := new Store(storage, typ);
    var _ := s.Load();
    var n;
    rec, n := s.Add(fields, now, createdAt, updatedAt, true);
    var reader := new Store(storage, typ);
    var _ := reader.Load();
    loaded := reader.items;
  }

  /** A refused write changes nothing and dispatches nothing, so a store
      that was in step with its slot stays in step. */
  method RefusedSaveScenario(initial: map<string, Stored>, list: seq<Record>)
    returns (before: seq<Record>, after: seq<Record>, n: Option<Notification>, reread: seq<Record>)
    ensures after == before && n == None && reread == before
  {
    var storage := new LocalStorage(initial);
    var s := new Store(storage, Arrive);
    var _ := s.Load();
    before := s.items;
    n := s.Save(list, false);
    after := s.items;
    var _ := s.Load();
    reread := s.items;
  }

  /** Corrupt stored text loads as the empty list, logs, and clears `loading`. */
  method CorruptScenario(typ: Value) returns (items: seq<Record>, logged: bool, loading: bool)
    ensures items == [] && logged && !loading
  {
    var storage := new LocalStorage(map[StorageKey(typ) := Corrupt]);
    var s := new Store(storage, typ);
    logged := s.Load();
    items, loading := s.items, s.loading;
  }
}
