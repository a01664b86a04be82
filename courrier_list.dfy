/** The list transformations behind `addCourrier`, `updateCourrier`,
    `updateStatus` and `deleteCourrier`: each builds a new list from the
    current one, which the store then saves whole.
 */
module CourrierList {
  import opened Values

  /** The properties `addCourrier` writes over the caller's fields. */
  const StampKeys: set<string> := {"id", "createdAt", "updatedAt", "type"}

  /** How many records have an id strictly equal to `id`. */
  function Count(s: seq<Record>, id: Option<Value>): (n: nat)
    ensures n <= |s|
    ensures n == 0 <==> forall i :: 0 <= i < |s| ==> !IdMatches(s[i], id)
  {
    if s == [] then 0
    else (if IdMatches(s[0], id) then 1 else 0) + Count(s[1..], id)
  }

  /** No two records carry the same defined id. Nothing in the store keeps
      this: ids are clock readings and two additions in the same millisecond
      share one. */
  ghost predicate UniqueIds(s: seq<Record>) {
    forall i, j :: 0 <= i < j < |s| && IdOf(s[i]).Some? ==> IdOf(s[i]) != IdOf(s[j])
  }

  // ---------------------------------------------------------------- add

  /** The record `addCourrier` builds: the caller's fields, then `id`,
      `createdAt`, `updatedAt` and `type` written over them. `now` is the
      `Date.now()` reading; the two timestamps are two separate
      `toISOString()` readings and need not be equal. */
  function Stamp(fields: Record, typ: Value, now: int, createdAt: string, updatedAt: string): (r: Record)
    ensures r.Keys == fields.Keys + StampKeys
    ensures IdOf(r) == Some(Num(now)) && r["type"] == typ
    ensures r["createdAt"] == Str(createdAt) && r["updatedAt"] == Str(updatedAt)
    ensures forall k :: k in fields && k !in StampKeys ==> r[k] == fields[k]
  {
    fields["id" := Num(now)]["createdAt" := Str(createdAt)]["updatedAt" := Str(updatedAt)]["type" := typ]
  }

  /** The list `addCourrier` saves: the new record first, then the old list. */
  function Added(s: seq<Record>, rec: Record): seq<Record> {
    [rec] + s
  }

  lemma AddedShape(s: seq<Record>, rec: Record)
    ensures |Added(s, rec)| == |s| + 1
    ensures Added(s, rec)[0] == rec && Added(s, rec)[1..] == s
  {
  }

  /** Deleting the id of a record just added takes the list back to what it
      was, provided no older record had that id. */
  lemma {:induction false} DeleteUndoesAdd(s: seq<Record>, fields: Record, typ: Value,
                                          now: int, createdAt: string, updatedAt: string)
    requires Count(s, Some(Num(now))) == 0
    ensures Deleted(Added(s, Stamp(fields, typ, now, createdAt, updatedAt)), Some(Num(now))) == s
  {
    var rec := Stamp(fields, typ, now, createdAt, updatedAt);
    assert Added(s, rec)[1..] == s;
    DeletedUnchangedIff(s, Some(Num(now)));
  }

  /** Adding a record whose id no older record carries keeps ids unique. */
  lemma AddKeepsIdsUnique(s: seq<Record>, rec: Record)
    requires UniqueIds(s) && IdOf(rec).Some? && Count(s, IdOf(rec)) == 0
    ensures UniqueIds(Added(s, rec))
  {
  }

  // ------------------------------------------------------------- update

  /** `{ ...r, ...patch, updatedAt: at }` */
  function Merge(r: Record, patch: Record, at: string): (m: Record)
    ensures m.Keys == r.Keys + patch.Keys + {"updatedAt"}
    ensures m["updatedAt"] == Str(at)
    ensures forall k :: k in patch && k != "updatedAt" ==> m[k] == patch[k]
    ensures forall k :: k in r && k !in patch && k != "updatedAt" ==> m[k] == r[k]
  {
    (r + patch)["updatedAt" := Str(at)]
  }

  /** Merging the same patch at the same time twice is merging it once. */
  lemma MergeIdempotent(r: Record, patch: Record, at: string)
    ensures Merge(Merge(r, patch, at), patch, at) == Merge(r, patch, at)
  {
  }

  /** The list `updateCourrier` saves. `clock(i)` is the ISO time read while
      visiting position `i`: the source reads the clock once per matching
      record. */
  function Updated(s: seq<Record>, id: Option<Value>, patch: Record, clock: nat -> string): (r: seq<Record>)
    ensures |r| == |s|
    ensures forall i :: 0 <= i < |s| && !IdMatches(s[i], id) ==> r[i] == s[i]
    ensures forall i :: 0 <= i < |s| && IdMatches(s[i], id) ==> r[i] == Merge(s[i], patch, clock(i))
  {
    seq(|s|, i requires 0 <= i < |s| =>
      if IdMatches(s[i], id) then Merge(s[i], patch, clock(i)) else s[i])
  }

  /** Updating an id no record carries leaves the list as it was. */
  lemma UpdatedNoMatch(s: seq<Record>, id: Option<Value>, patch: Record, clock: nat -> string)
    requires Count(s, id) == 0
    ensures Updated(s, id, patch, clock) == s
  {
  }

  /** A matched record takes the patch's fields over its own, keeps the rest,
      and has `updatedAt` set to the time it was visited, whatever the patch says. */
  lemma UpdatedRecord(s: seq<Record>, id: Option<Value>, patch: Record, clock: nat -> string, i: nat)
    requires i < |s| && IdMatches(s[i], id)
    ensures var r := Updated(s, id, patch, clock)[i];
      && r.Keys == s[i].Keys + patch.Keys + {"updatedAt"}
      && r["updatedAt"] == Str(clock(i))
      && (forall k :: k in patch && k != "updatedAt" ==> r[k] == patch[k])
      && (forall k :: k in s[i] && k !in patch && k != "updatedAt" ==> r[k] == s[i][k])
  {
  }

  /** A patch without an `id` property changes no record's id. */
  lemma UpdatedKeepsIds(s: seq<Record>, id: Option<Value>, patch: Record, clock: nat -> string)
    requires "id" !in patch
    ensures forall i :: 0 <= i < |s| ==> IdOf(Updated(s, id, patch, clock)[i]) == IdOf(s[i])
  {
  }

  /** Repeating an update (same patch, same clock) changes nothing more: a
      matched record either keeps the target id, and merging again is a
      no-op, or the patch gave it another id and the second pass skips it. */
  lemma UpdatedIdempotent(s: seq<Record>, id: Option<Value>, patch: Record, clock: nat -> string)
    ensures Updated(Updated(s, id, patch, clock), id, patch, clock) == Updated(s, id, patch, clock)
  {
    var r := Updated(s, id, patch, clock);
    var rr := Updated(r, id, patch, clock);
    forall i | 0 <= i < |s| ensures rr[i] == r[i] {
      if IdMatches(s[i], id) {
        MergeIdempotent(s[i], patch, clock(i));
      }
    }
  }

  /** `updateStatus(id, s)` is `updateCourrier(id, { statut: s })`. */
  function StatusPatch(status: Value): (p: Record)
    ensures p.Keys == {"statut"} && p["statut"] == status
  {
    map["statut" := status]
  }

  /** After `updateStatus`, every matched record has the new status, and no
      record's id has changed. */
  lemma StatusUpdated(s: seq<Record>, id: Option<Value>, status: Value, clock: nat -> string)
    ensures var r := Updated(s, id, StatusPatch(status), clock);
      forall i :: 0 <= i < |s| ==>
        IdOf(r[i]) == IdOf(s[i]) && (IdMatches(s[i], id) ==> Get(r[i], "statut") == Some(status))
  {
  }

  // ------------------------------------------------------------- delete

  /** The list `deleteCourrier` saves: `s.filter(c => c.id !== id)`. */
  function Deleted(s: seq<Record>, id: Option<Value>): (r: seq<Record>)
    ensures |r| == |s| - Count(s, id)
  {
    if s == [] then []
    else (if IdMatches(s[0], id) then [] else [s[0]]) + Deleted(s[1..], id)
  }

  /** The kept records are exactly the records whose id differs from the target. */
  lemma {:induction false} DeletedMembers(s: seq<Record>, id: Option<Value>)
    ensures forall x :: x in Deleted(s, id) <==> x in s && !IdMatches(x, id)
  {
    if s != [] {
      DeletedMembers(s[1..], id);
      assert s == [s[0]] + s[1..];
    }
  }

  /** Filtering distributes over concatenation: together with the
      one-record case this fixes the order of what is kept. */
  lemma {:induction false} DeletedConcat(a: seq<Record>, b: seq<Record>, id: Option<Value>)
    ensures Deleted(a + b, id) == Deleted(a, id) + Deleted(b, id)
  {
    if a == [] {
      assert a + b == b;
    } else {
      assert (a + b)[0] == a[0];
      assert (a + b)[1..] == a[1..] + b;
      DeletedConcat(a[1..], b, id);
    }
  }

  /** Deleting leaves the list unchanged exactly when no record matches. */
  lemma {:induction false} DeletedUnchangedIff(s: seq<Record>, id: Option<Value>)
    ensures Deleted(s, id) == s <==> Count(s, id) == 0
  {
    if s != [] && Count(s, id) == 0 {
      assert !IdMatches(s[0], id);
      DeletedUnchangedIff(s[1..], id);
      assert s == [s[0]] + s[1..];
    }
  }

  /** With unique ids, a given id matches at most one record. */
  lemma {:induction false} CountAtMostOne(s: seq<Record>, id: Option<Value>)
    requires UniqueIds(s) && id.Some?
    ensures Count(s, id) <= 1
  {
    if s != [] {
      assert UniqueIds(s[1..]) by {
        forall i, j | 0 <= i < j < |s[1..]| && IdOf(s[1..][i]).Some?
          ensures IdOf(s[1..][i]) != IdOf(s[1..][j])
        {
          assert s[1..][i] == s[i + 1] && s[1..][j] == s[j + 1];
        }
      }
      CountAtMostOne(s[1..], id);
      if IdMatches(s[0], id) {
        forall i | 0 <= i < |s[1..]| ensures !IdMatches(s[1..][i], id) {
          assert s[1..][i] == s[i + 1];
        }
      }
    }
  }

  /** With unique ids, deleting an id that is present removes exactly one record. */
  lemma DeletedDropsOne(s: seq<Record>, id: Option<Value>, k: nat)
    requires UniqueIds(s) && id.Some? && k < |s| && IdMatches(s[k], id)
    ensures |Deleted(s, id)| == |s| - 1
  {
    CountAtMostOne(s, id);
  }

  /** Deleting twice is deleting once. */
  lemma DeletedIdempotent(s: seq<Record>, id: Option<Value>)
    ensures Deleted(Deleted(s, id), id) == Deleted(s, id)
  {
    var r := Deleted(s, id);
    DeletedMembers(s, id);
    assert forall i :: 0 <= i < |r| ==> r[i] in r;
    DeletedUnchangedIff(r, id);
  }

  /** Deletion only looks at ids and at the records it keeps: two lists that
      agree on every id and on every record that survives delete to the same list. */
  lemma {:induction false} DeletedIgnoresMatched(r: seq<Record>, s: seq<Record>, id: Option<Value>)
    requires |r| == |s|
    requires forall i :: 0 <= i < |s| ==> IdOf(r[i]) == IdOf(s[i])
    requires forall i :: 0 <= i < |s| && !IdMatches(s[i], id) ==> r[i] == s[i]
    ensures Deleted(r, id) == Deleted(s, id)
  {
    if s != [] {
      assert IdOf(r[0]) == IdOf(s[0]);
      forall i | 0 <= i < |s[1..]| ensures IdOf(r[1..][i]) == IdOf(s[1..][i]) {
        assert r[1..][i] == r[i + 1] && s[1..][i] == s[i + 1];
      }
      forall i | 0 <= i < |s[1..]| && !IdMatches(s[1..][i], id) ensures r[1..][i] == s[1..][i] {
        assert r[1..][i] == r[i + 1] && s[1..][i] == s[i + 1];
      }
      DeletedIgnoresMatched(r[1..], s[1..], id);
    }
  }

  /** Deleting an id after updating it (with a patch that keeps ids) is
      deleting it: the update touched only the records the delete removes. */
  lemma DeleteAfterUpdate(s: seq<Record>, id: Option<Value>, patch: Record, clock: nat -> string)
    requires "id" !in patch
    ensures Deleted(Updated(s, id, patch, clock), id) == Deleted(s, id)
    ensures Count(Updated(s, id, patch, clock), id) == Count(s, id)
  {
    UpdatedKeepsIds(s, id, patch, clock);
    DeletedIgnoresMatched(Updated(s, id, patch, clock), s, id);
  }
}
