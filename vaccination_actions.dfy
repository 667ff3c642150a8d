/**
 * The `vaccinations` table's server actions: schedule inserts one Pending record, administer
 * marks every record with the given id as Administered at the current time, delete removes
 * every record with the given id. Only scheduling checks the identity.
 */
module VaccinationActions {
  import opened Wrappers
  import opened Farm
  import opened Db
  import opened ServerAction

  /** Both vaccination actions revalidate these pages on success. */
  const VaccinationPaths: seq<string> := ["/vaccinations", "/dashboard"]

  /** The record `scheduleVaccination` inserts; the store fills in the id. */
  function PendingRecord(id: string, cropId: string, vaccineName: string, targetDate: string): (v: VaccinationSchedule)
    ensures v.id == id && v.cropId == cropId && v.vaccineName == vaccineName && v.targetDate == targetDate
    ensures v.status == Pending && v.administeredAt == None
  {
    VaccinationSchedule(id, cropId, vaccineName, None, targetDate, Pending, None, None)
  }

  /** The table after `update({status: 'Administered', administered_at: now}).eq('id', id)`. */
  function MarkAdministered(rows: seq<VaccinationSchedule>, id: string, now: string): (r: seq<VaccinationSchedule>)
    ensures |r| == |rows|
    ensures forall i :: 0 <= i < |rows| && rows[i].id == id ==>
      r[i] == rows[i].(status := Administered, administeredAt := Some(now))
    ensures forall i :: 0 <= i < |rows| && rows[i].id != id ==> r[i] == rows[i]
  {
    if rows == [] then []
    else
      var init := MarkAdministered(rows[..|rows| - 1], id, now);
      var last := rows[|rows| - 1];
      init + [if last.id == id then last.(status := Administered, administeredAt := Some(now)) else last]
  }

  /** The table after `delete().eq('id', id)`. */
  function WithoutId(rows: seq<VaccinationSchedule>, id: string): (r: seq<VaccinationSchedule>)
    ensures |r| <= |rows|
    ensures forall v :: v in r <==> v in rows && v.id != id
  {
    if rows == [] then []
    else
      var init := WithoutId(rows[..|rows| - 1], id);
      var last := rows[|rows| - 1];
      if last.id == id then init else init + [last]
  }

  /** `scheduleVaccination`: with a signed-in user and no store error, one Pending record is added. */
  method ScheduleVaccination(store: Store, user: Option<string>, cropId: string, vaccineName: string,
                             targetDate: string, storeError: Option<string>) returns (r: ActionResult)
    modifies store`vaccinations, store`nextRowId
    ensures user.None? ==> r == Thrown(UnauthorizedMessage) && unchanged(store)
    ensures user.Some? && storeError.Some? ==> r == Thrown(storeError.value) && unchanged(store)
    ensures user.Some? && storeError.None? ==>
      && r == Revalidated(VaccinationPaths)
      && store.vaccinations == old(store.vaccinations) + [PendingRecord(RowId(old(store.nextRowId)), cropId, vaccineName, targetDate)]
      && store.nextRowId == old(store.nextRowId) + 1
  {
    if user.None? {
      return Thrown(UnauthorizedMessage);
    }
    if storeError.Some? {
      return Thrown(storeError.value);
    }
    store.vaccinations := store.vaccinations + [PendingRecord(RowId(store.nextRowId), cropId, vaccineName, targetDate)];
    store.nextRowId := store.nextRowId + 1;
    return Revalidated(VaccinationPaths);
  }

  /** `administerVaccination`: no identity check and no status guard. */
  method AdministerVaccination(store: Store, id: string, now: string, storeError: Option<string>) returns (r: ActionResult)
    modifies store`vaccinations
    ensures storeError.Some? ==> r == Thrown(storeError.value) && unchanged(store)
    ensures storeError.None? ==>
      r == Revalidated(VaccinationPaths) && store.vaccinations == MarkAdministered(old(store.vaccinations), id, now)
  {
    if storeError.Some? {
      return Thrown(storeError.value);
    }
    var rows := store.vaccinations;
    var updated: seq<VaccinationSchedule> := [];
    for i := 0 to |rows|
      invariant updated == MarkAdministered(rows[..i], id, now)
    {
      var row := rows[i];
      if row.id == id {
        row := row.(status := Administered, administeredAt := Some(now));
      }
      updated := updated + [row];
      assert rows[..i + 1][..i] == rows[..i];
    }
    assert rows[..|rows|] == rows;
    store.vaccinations := updated;
    return Revalidated(VaccinationPaths);
  }

  /** `deleteVaccination`: no identity check. */
  method DeleteVaccination(store: Store, id: string, storeError: Option<string>) returns (r: ActionResult)
    modifies store`vaccinations
    ensures storeError.Some? ==> r == Thrown(storeError.value) && unchanged(store)
    ensures storeError.None? ==>
      r == Revalidated(VaccinationPaths) && store.vaccinations == WithoutId(old(store.vaccinations), id)
  {
    if storeError.Some? {
      return Thrown(storeError.value);
    }
    var rows := store.vaccinations;
    var kept: seq<VaccinationSchedule> := [];
    for i := 0 to |rows|
      invariant kept == WithoutId(rows[..i], id)
    {
      if rows[i].id != id {
        kept := kept + [rows[i]];
      }
      assert rows[..i + 1][..i] == rows[..i];
    }
    assert rows[..|rows|] == rows;
    store.vaccinations := kept;
    return Revalidated(VaccinationPaths);
  }

  /** After administering, no record with that id is Pending or Missed any more. */
  lemma AdministerSettlesRecord(rows: seq<VaccinationSchedule>, id: string, now: string)
    ensures forall v :: v in MarkAdministered(rows, id, now) && v.id == id ==>
      v.status == Administered && v.administeredAt == Some(now)
  {
    var r := MarkAdministered(rows, id, now);
    forall v | v in r && v.id == id
      ensures v.status == Administered && v.administeredAt == Some(now)
    {
      var i :| 0 <= i < |r| && r[i] == v;
      assert rows[i].id == id;
    }
  }

  /** Administering twice is administering once, at the later time. */
  lemma AdministerTwice(rows: seq<VaccinationSchedule>, id: string, t1: string, t2: string)
    ensures MarkAdministered(MarkAdministered(rows, id, t1), id, t2) == MarkAdministered(rows, id, t2)
  {
  }

  /** Nothing guards the status: a missed record becomes administered like a pending one. */
  lemma AdministerHasNoStatusGuard(v: VaccinationSchedule, now: string)
    requires v.status == Missed
    ensures MarkAdministered([v], v.id, now) == [v.(status := Administered, administeredAt := Some(now))]
  {
  }

  /** Deleting is idempotent, and deleting an id that is not there changes nothing. */
  lemma {:induction false} DeleteIdempotent(rows: seq<VaccinationSchedule>, id: string)
    ensures WithoutId(WithoutId(rows, id), id) == WithoutId(rows, id)
    ensures (forall v :: v in rows ==> v.id != id) ==> WithoutId(rows, id) == rows
  {
    if rows != [] {
      DeleteIdempotent(rows[..|rows| - 1], id);
      var init := WithoutId(rows[..|rows| - 1], id);
      var last := rows[|rows| - 1];
      if last.id != id {
        assert (init + [last])[..|init + [last]| - 1] == init;
      }
      if forall v :: v in rows ==> v.id != id {
        assert forall v :: v in rows[..|rows| - 1] ==> v in rows;
        assert rows[..|rows| - 1] + [last] == rows;
      }
    }
  }

  /** Deleting a record that was just scheduled under a fresh id restores the table. */
  lemma DeleteUndoesSchedule(rows: seq<VaccinationSchedule>, v: VaccinationSchedule)
    requires forall w :: w in rows ==> w.id != v.id
    ensures WithoutId(rows + [v], v.id) == rows
  {
    var s := rows + [v];
    assert s[..|s| - 1] == rows;
    DeleteIdempotent(rows, v.id);
  }
}
