/**
 * The vaccinations page: the fetched schedule (or a built-in sample list when the fetch gives
 * no data), its per-status counts, the number of distinct vaccines, and each row's batch
 * label and badge colour.
 */
module VaccinationsPage {
  import opened Wrappers
  import opened Farm

  function Sample(id: string, cropId: string, vaccineName: string, targetDate: string, status: VaccinationStatus): VaccinationSchedule {
    VaccinationSchedule(id, cropId, vaccineName, None, targetDate, status, None, None)
  }

  /** The sample list the page shows when the fetch returns no data. */
  const MockVaccinations: seq<VaccinationSchedule> := [
    Sample("1", "batch-827", "Mareks Disease", "2026-01-12", Administered),
    Sample("2", "batch-826", "Gumboro (IBD)", "2026-01-15", Pending),
    Sample("3", "batch-825", "Newcastle Disease", "2026-01-10", Missed),
    Sample("4", "batch-824", "Fowl Pox", "2026-01-20", Pending),
    Sample("5", "batch-823", "Infectious Bronchitis", "2026-01-05", Administered)
  ]

  /** No data falls back to the sample list; an empty list is kept as it is. */
  function Shown(fetched: Option<seq<VaccinationSchedule>>): (rows: seq<VaccinationSchedule>)
    ensures fetched.Some? ==> rows == fetched.value
    ensures fetched.None? ==> rows == MockVaccinations
  {
    fetched.GetOr(MockVaccinations)
  }

  /** The records with the given status, in their order. */
  function WithStatus(rows: seq<VaccinationSchedule>, s: VaccinationStatus): (r: seq<VaccinationSchedule>)
    ensures |r| <= |rows|
    ensures forall v :: v in r <==> v in rows && v.status == s
  {
    if rows == [] then []
    else
      assert rows == [rows[0]] + rows[1..];
      (if rows[0].status == s then [rows[0]] else []) + WithStatus(rows[1..], s)
  }

  /** The status filter splits over concatenation, so it keeps order and multiplicity. */
  lemma {:induction false} WithStatusAppend(a: seq<VaccinationSchedule>, b: seq<VaccinationSchedule>, s: VaccinationStatus)
    ensures WithStatus(a + b, s) == WithStatus(a, s) + WithStatus(b, s)
  {
    if a == [] {
      assert a + b == b;
    } else {
      assert (a + b)[1..] == a[1..] + b;
      WithStatusAppend(a[1..], b, s);
    }
  }

  /** `filter(v => v.status === s).length`. */
  function CountStatus(rows: seq<VaccinationSchedule>, s: VaccinationStatus): nat {
    |WithStatus(rows, s)|
  }

  /** Every record has one of the three statuses, so the three counts add up to the total. */
  lemma {:induction false} StatusCountsSumToTotal(rows: seq<VaccinationSchedule>)
    ensures CountStatus(rows, Administered) + CountStatus(rows, Pending) + CountStatus(rows, Missed) == |rows|
  {
    if rows != [] {
      StatusCountsSumToTotal(rows[1..]);
    }
  }

  /** The vaccine names that occur. */
  function VaccineNames(rows: seq<VaccinationSchedule>): (names: set<string>)
    ensures forall n :: n in names <==> exists v :: v in rows && v.vaccineName == n
  {
    set v | v in rows :: v.vaccineName
  }

  /** One more record adds its vaccine name to the names, whether or not it was there already. */
  lemma VaccineNamesAppend(rows: seq<VaccinationSchedule>, v: VaccinationSchedule)
    ensures VaccineNames(rows + [v]) == VaccineNames(rows) + {v.vaccineName}
  {
    assert forall w :: w in rows + [v] <==> w in rows || w == v;
  }

  /** The "Types" figure: the number of distinct vaccine names; zero exactly for no records. */
  function DistinctVaccineCount(rows: seq<VaccinationSchedule>): (n: nat)
    ensures n == 0 <==> rows == []
  {
    assert rows != [] ==> rows[0].vaccineName in VaccineNames(rows);
    |VaccineNames(rows)|
  }

  /** There are never more vaccine types than records. */
  lemma {:induction false} DistinctNamesAtMostTotal(rows: seq<VaccinationSchedule>)
    ensures DistinctVaccineCount(rows) <= |rows|
  {
    if rows != [] {
      var init := rows[..|rows| - 1];
      var last := rows[|rows| - 1];
      DistinctNamesAtMostTotal(init);
      assert rows == init + [last];
      VaccineNamesAppend(init, last);
    }
  }

  /** The sample list's figures: two given, two pending, one missed. */
  lemma MockStatusCounts()
    ensures CountStatus(MockVaccinations, Administered) == 2
    ensures CountStatus(MockVaccinations, Pending) == 2
    ensures CountStatus(MockVaccinations, Missed) == 1
  {
    var m := MockVaccinations;
    assert m[0].status == Administered && m[1].status == Pending && m[2].status == Missed;
    assert m[3].status == Pending && m[4].status == Administered;
  }

  /** The sample list uses five different vaccines. */
  lemma MockVaccineCount()
    ensures DistinctVaccineCount(MockVaccinations) == 5
  {
    var m := MockVaccinations;
    var a, b, c, d, e := m[0].vaccineName, m[1].vaccineName, m[2].vaccineName, m[3].vaccineName, m[4].vaccineName;
    // The five names have five different lengths, so they are distinct.
    assert |a| == 14 && |b| == 13 && |c| == 17 && |d| == 8 && |e| == 21;
    assert |{a, b, c, d, e}| == 5;
    assert m[0] in m && m[1] in m && m[2] in m && m[3] in m && m[4] in m;
    assert forall v :: v in m ==> v == m[0] || v == m[1] || v == m[2] || v == m[3] || v == m[4];
    assert VaccineNames(m) == {a, b, c, d, e};
  }

  /** The row's batch label: "Crop: " and the crop id's first eight characters (fewer if shorter). */
  function BatchLabel(cropId: string): (text: string)
    ensures |text| == 6 + (if |cropId| < 8 then |cropId| else 8)
    ensures text[..6] == "Crop: " && text[6..] <= cropId
  {
    "Crop: " + cropId[..if |cropId| < 8 then |cropId| else 8]
  }

  datatype BadgeColor = Emerald | Blue | Red

  function StatusColor(s: VaccinationStatus): (c: BadgeColor)
    ensures c == Emerald <==> s == Administered
    ensures c == Blue <==> s == Pending
    ensures c == Red <==> s == Missed
  {
    match s
    case Administered => Emerald
    case Pending => Blue
    case Missed => Red
  }

  /** The table or, for an empty list, the empty state; the sample list is never empty. */
  predicate ShowsEmptyState(rows: seq<VaccinationSchedule>) {
    |rows| == 0
  }

  lemma EmptyStateOnlyForEmptyFetch(fetched: Option<seq<VaccinationSchedule>>)
    ensures ShowsEmptyState(Shown(fetched)) <==> fetched == Some([])
  {
  }
}
