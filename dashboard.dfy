/**
 * The dashboard's figures: the current (first active) crop and its number, the chicks present
 * over all active crops, the total feed stock and the low-stock alerts, the next pending
 * vaccination and the missed ones.
 */
module Dashboard {
  import opened Wrappers
  import opened Farm
  import opened CropsPage
  import opened VaccinationsPage

  /** The position of the first active crop, newest first. */
  function FirstActiveIndex(views: seq<CropView>): (i: Option<nat>)
    ensures i.Some? ==> i.value < |views| && views[i.value].crop.status == Active
    ensures i.Some? ==> forall j :: 0 <= j < i.value ==> views[j].crop.status != Active
    ensures i.None? ==> forall j :: 0 <= j < |views| ==> views[j].crop.status != Active
  {
    if views == [] then None
    else if views[0].crop.status == Active then Some(0)
    else match FirstActiveIndex(views[1..])
      case None => None
      case Some(k) => Some(k + 1)
  }

  /** `activeCrop`: the first crop in the fetched order whose status is Active. */
  function ActiveCrop(typed: Option<seq<CropView>>): (c: Option<CropView>)
    ensures c.Some? <==> typed.Some? && exists j :: 0 <= j < |typed.value| && typed.value[j].crop.status == Active
    ensures c.Some? ==> c.value.crop.status == Active && c.value in typed.value
    ensures c.Some? ==> exists i :: (0 <= i < |typed.value| && typed.value[i] == c.value &&
      forall j :: 0 <= j < i ==> typed.value[j].crop.status != Active)
  {
    if typed.None? then None
    else match FirstActiveIndex(typed.value)
      case None => None
      case Some(i) => Some(typed.value[i])
  }

  /** The active crops, in order. */
  function ActiveOnly(views: seq<CropView>): (r: seq<CropView>)
    ensures |r| <= |views|
    ensures forall v :: v in r <==> v in views && v.crop.status == Active
  {
    if views == [] then []
    else
      assert views == [views[0]] + views[1..];
      (if views[0].crop.status == Active then [views[0]] else []) + ActiveOnly(views[1..])
  }

  function SumPresent(views: seq<CropView>): int {
    if views == [] then 0 else views[0].presentChicks + SumPresent(views[1..])
  }

  /** `totalPresentChicks`: present chicks summed over the active crops only; 0 without data. */
  function TotalPresentChicks(typed: Option<seq<CropView>>): int {
    match typed
    case None => 0
    case Some(views) => SumPresent(ActiveOnly(views))
  }

  lemma {:induction false} SumPresentAppend(a: seq<CropView>, b: seq<CropView>)
    ensures SumPresent(a + b) == SumPresent(a) + SumPresent(b)
  {
    if a == [] {
      assert a + b == b;
    } else {
      assert (a + b)[1..] == a[1..] + b;
      SumPresentAppend(a[1..], b);
    }
  }

  lemma {:induction false} ActiveOnlyAppend(a: seq<CropView>, b: seq<CropView>)
    ensures ActiveOnly(a + b) == ActiveOnly(a) + ActiveOnly(b)
  {
    if a == [] {
      assert a + b == b;
    } else {
      assert (a + b)[1..] == a[1..] + b;
      ActiveOnlyAppend(a[1..], b);
    }
  }

  /** The total splits over any split of the crop list, so each active crop counts exactly once. */
  lemma TotalPresentChicksSplits(a: seq<CropView>, b: seq<CropView>)
    ensures TotalPresentChicks(Some(a + b)) == TotalPresentChicks(Some(a)) + TotalPresentChicks(Some(b))
  {
    ActiveOnlyAppend(a, b);
    SumPresentAppend(ActiveOnly(a), ActiveOnly(b));
  }

  /** Crops that are not active contribute nothing. */
  lemma {:induction false} NoActiveCropNoChicks(views: seq<CropView>)
    requires forall j :: 0 <= j < |views| ==> views[j].crop.status != Active
    ensures TotalPresentChicks(Some(views)) == 0
  {
    if views != [] {
      NoActiveCropNoChicks(views[1..]);
    }
  }

  /**
   * `activeCropNumber`: the list length less the active crop's position, so the crops are
   * numbered from the oldest; 0 when no crop is active.
   */
  function ActiveCropNumber(typed: Option<seq<CropView>>): (n: nat)
    ensures n == 0 <==> ActiveCrop(typed).None?
    ensures typed.Some? ==> n <= |typed.value|
  {
    if typed.None? then 0
    else match FirstActiveIndex(typed.value)
      case None => 0
      case Some(i) => |typed.value| - i
  }

  /** An older crop at the end of the list moves the current crop's number up by one. */
  lemma ActiveCropNumberCountsFromOldest(views: seq<CropView>, older: CropView)
    requires ActiveCrop(Some(views)).Some?
    ensures ActiveCropNumber(Some(views + [older])) == ActiveCropNumber(Some(views)) + 1
  {
    FirstActiveOfAppend(views, [older]);
  }

  /** A newer crop that is not active leaves the current crop's number as it was. */
  lemma NewerInactiveCropKeepsNumber(newer: CropView, views: seq<CropView>)
    requires newer.crop.status != Active
    ensures ActiveCropNumber(Some([newer] + views)) == ActiveCropNumber(Some(views))
  {
    assert ([newer] + views)[1..] == views;
  }

  lemma {:induction false} FirstActiveOfAppend(a: seq<CropView>, b: seq<CropView>)
    requires FirstActiveIndex(a).Some?
    ensures FirstActiveIndex(a + b) == FirstActiveIndex(a)
  {
    if a[0].crop.status != Active {
      assert (a + b)[1..] == a[1..] + b;
      FirstActiveOfAppend(a[1..], b);
    }
  }

  /** `Number(current_stock_kg) || 0`. */
  function StockOf(t: FeedType): int {
    t.currentStockKg.GetOr(0)
  }

  function SumStock(types: seq<FeedType>): int {
    if types == [] then 0 else StockOf(types[0]) + SumStock(types[1..])
  }

  /** `totalFeedStock`: every feed type's stock, a missing one as 0; 0 without data. */
  function TotalFeedStock(types: Option<seq<FeedType>>): int {
    match types
    case None => 0
    case Some(ts) => SumStock(ts)
  }

  /** With no negative stock, the total is at least any one type's stock. */
  lemma {:induction false} TotalFeedStockCoversEachType(ts: seq<FeedType>, k: nat)
    requires k < |ts|
    requires forall j :: 0 <= j < |ts| ==> StockOf(ts[j]) >= 0
    ensures TotalFeedStock(Some(ts)) >= StockOf(ts[k])
  {
    SumStockNonNegative(ts[1..]);
    if k > 0 {
      TotalFeedStockCoversEachType(ts[1..], k - 1);
    }
  }

  lemma {:induction false} SumStockNonNegative(ts: seq<FeedType>)
    requires forall j :: 0 <= j < |ts| ==> StockOf(ts[j]) >= 0
    ensures SumStock(ts) >= 0
  {
    if ts != [] {
      SumStockNonNegative(ts[1..]);
    }
  }

  /** The dashboard's low-stock rule: fewer than five bags left. */
  predicate IsLowOnDashboard(t: FeedType) {
    (StockOf(t) as real) / (BagWeightKg as real) < 5.0
  }

  /** In whole kilograms: a feed type is low on the dashboard exactly below 250 kg. */
  lemma DashboardLowIffBelow250(t: FeedType)
    ensures IsLowOnDashboard(t) <==> StockOf(t) < 250
  {
    var x := StockOf(t) as real;
    assert x / 50.0 < 5.0 <==> x < 250.0;
  }

  /** `lowStockAlerts`: the low feed types, in order; none without data. */
  function LowStockAlerts(types: Option<seq<FeedType>>): (r: seq<FeedType>)
    ensures types.None? ==> r == []
    ensures types.Some? ==> |r| <= |types.value| && forall t :: t in r <==> t in types.value && IsLowOnDashboard(t)
  {
    match types
    case None => []
    case Some(ts) => LowOnly(ts)
  }

  function LowOnly(ts: seq<FeedType>): (r: seq<FeedType>)
    ensures |r| <= |ts|
    ensures forall t :: t in r <==> t in ts && IsLowOnDashboard(t)
  {
    if ts == [] then []
    else
      assert ts == [ts[0]] + ts[1..];
      (if IsLowOnDashboard(ts[0]) then [ts[0]] else []) + LowOnly(ts[1..])
  }

  /** The low-stock filter splits over concatenation, so it keeps order and multiplicity. */
  lemma {:induction false} LowOnlyAppend(a: seq<FeedType>, b: seq<FeedType>)
    ensures LowOnly(a + b) == LowOnly(a) + LowOnly(b)
  {
    if a == [] {
      assert a + b == b;
    } else {
      assert (a + b)[1..] == a[1..] + b;
      LowOnlyAppend(a[1..], b);
    }
  }

  /** `nextVaccination`: the first Pending record, in target-date order. */
  function NextVaccination(rows: Option<seq<VaccinationSchedule>>): (v: Option<VaccinationSchedule>)
    ensures v.Some? ==> rows.Some? && v.value.status == Pending && v.value in rows.value
    ensures v.Some? ==> exists i :: (0 <= i < |rows.value| && rows.value[i] == v.value &&
      forall j :: 0 <= j < i ==> rows.value[j].status != Pending)
    ensures v.None? <==> rows.None? || forall j :: 0 <= j < |rows.value| ==> rows.value[j].status != Pending
    ensures rows.Some? ==> v == FirstPending(rows.value)
  {
    match rows
    case None => None
    case Some(rs) => FirstPending(rs)
  }

  function FirstPending(rs: seq<VaccinationSchedule>): (v: Option<VaccinationSchedule>)
    ensures v.Some? ==> v.value.status == Pending && v.value in rs
    ensures v.Some? ==> exists i :: (0 <= i < |rs| && rs[i] == v.value &&
      forall j :: 0 <= j < i ==> rs[j].status != Pending)
    ensures v.None? <==> forall j :: 0 <= j < |rs| ==> rs[j].status != Pending
  {
    if rs == [] then None
    else if rs[0].status == Pending then Some(rs[0])
    else
      var r := FirstPending(rs[1..]);
      assert r.Some? ==> r.value in rs;
      assert r.Some? ==> exists i :: (0 <= i < |rs| && rs[i] == r.value &&
        forall j :: 0 <= j < i ==> rs[j].status != Pending) by {
        if r.Some? {
          var k :| 0 <= k < |rs[1..]| && rs[1..][k] == r.value &&
            forall j :: 0 <= j < k ==> rs[1..][j].status != Pending;
          assert rs[k + 1] == r.value;
          assert forall j :: 0 <= j < k + 1 ==> rs[j].status != Pending by {
            forall j | 0 <= j < k + 1 ensures rs[j].status != Pending {
              if j > 0 { assert rs[j] == rs[1..][j - 1]; }
            }
          }
        }
      }
      r
  }

  /** The next vaccination is the head of the page's Pending list, and there is one exactly when that list is not empty. */
  lemma {:induction false} NextIsFirstOfPending(rs: seq<VaccinationSchedule>)
    ensures var pending := WithStatus(rs, Pending);
      NextVaccination(Some(rs)) == if pending == [] then None else Some(pending[0])
  {
    if rs != [] && rs[0].status != Pending {
      NextIsFirstOfPending(rs[1..]);
    }
  }

  /** `missedVaccinations`: every Missed record, in order; none without data. */
  function MissedVaccinations(rows: Option<seq<VaccinationSchedule>>): (r: seq<VaccinationSchedule>)
    ensures rows.None? ==> r == []
    ensures rows.Some? ==> forall v :: v in r <==> v in rows.value && v.status == Missed
  {
    match rows
    case None => []
    case Some(rs) => WithStatus(rs, Missed)
  }
}
