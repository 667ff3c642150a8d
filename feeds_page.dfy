/**
 * The feed inventory page: a card per feed type with the bags left, a low-stock flag and the
 * last restock's bag count, and the ledger rows with a marker and the feed type's name.
 */
module FeedsPage {
  import opened Wrappers
  import opened Farm
  import opened Dashboard

  /** `(current_stock_kg || 0) / 50`, the bags a card shows. */
  function BagsLeft(t: FeedType): (bags: real)
    ensures bags * (BagWeightKg as real) == t.currentStockKg.GetOr(0) as real
  {
    (t.currentStockKg.GetOr(0) as real) / (BagWeightKg as real)
  }

  /** The card's low-stock rule: five bags or fewer. */
  predicate IsLowOnCard(t: FeedType) {
    BagsLeft(t) <= 5.0
  }

  /** In whole kilograms: a card is low exactly at 250 kg or less. */
  lemma CardLowIffAtMost250(t: FeedType)
    ensures IsLowOnCard(t) <==> t.currentStockKg.GetOr(0) <= 250
  {
    var x := t.currentStockKg.GetOr(0) as real;
    assert x / 50.0 <= 5.0 <==> x <= 250.0;
  }

  /**
   * The card and the dashboard disagree only at exactly 250 kg, where the card flags low
   * stock and the dashboard raises no alert.
   */
  lemma CardAndDashboardDifferOnlyAt250(t: FeedType)
    ensures IsLowOnDashboard(t) ==> IsLowOnCard(t)
    ensures IsLowOnCard(t) && !IsLowOnDashboard(t) <==> t.currentStockKg.GetOr(0) == 250
  {
    CardLowIffAtMost250(t);
    DashboardLowIffBelow250(t);
  }

  /** "Bags In": the last restock's bag count, 0 when missing. */
  function BagsIn(t: FeedType): (n: int)
    ensures t.lastRestockBags.Some? ==> n == t.lastRestockBags.value
    ensures t.lastRestockBags.None? ==> n == 0
  {
    t.lastRestockBags.GetOr(0)
  }

  datatype Marker = EmeraldMarker | BlueMarker

  /** A restock is marked emerald, anything else blue. */
  function LogMarker(a: FeedAction): (m: Marker)
    ensures m == EmeraldMarker <==> a == Restock
  {
    if a == Restock then EmeraldMarker else BlueMarker
  }

  /** `feedTypes.find(ft => ft.id === log.feed_type_id)`. */
  function FindTypeById(types: seq<FeedType>, feedTypeId: Option<string>): (r: Option<nat>)
    ensures r.Some? ==> r.value < |types| && Some(types[r.value].id) == feedTypeId
    ensures r.Some? ==> forall j :: 0 <= j < r.value ==> Some(types[j].id) != feedTypeId
    ensures r.None? ==> forall j :: 0 <= j < |types| ==> Some(types[j].id) != feedTypeId
  {
    if types == [] then None
    else if Some(types[0].id) == feedTypeId then Some(0)
    else match FindTypeById(types[1..], feedTypeId)
      case None => None
      case Some(k) => Some(k + 1)
  }

  /** The name a ledger row shows: its feed type's name, or "Unknown" when there is none or it is empty. */
  function FeedTypeName(types: seq<FeedType>, feedTypeId: Option<string>): (name: string)
    ensures name != ""
    ensures feedTypeId.None? ==> name == "Unknown"
    ensures FindTypeById(types, feedTypeId).None? ==> name == "Unknown"
    ensures FindTypeById(types, feedTypeId).Some? ==>
      var t := types[FindTypeById(types, feedTypeId).value];
      name == if t.name != "" then t.name else "Unknown"
  {
    match FindTypeById(types, feedTypeId)
    case None => "Unknown"
    case Some(i) => if types[i].name != "" then types[i].name else "Unknown"
  }

  /** With distinct ids, a row naming a listed feed type shows that type's name. */
  lemma RowShowsItsTypeName(types: seq<FeedType>, k: nat, log: FeedLog)
    requires k < |types| && types[k].name != ""
    requires forall i, j :: 0 <= i < j < |types| ==> types[i].id != types[j].id
    requires log.feedTypeId == Some(types[k].id)
    ensures FeedTypeName(types, log.feedTypeId) == types[k].name
  {
    var r := FindTypeById(types, log.feedTypeId);
    assert r.Some?;
  }

  /** No data is shown as no feed types. */
  function ShownTypes(fetched: Option<seq<FeedType>>): seq<FeedType> {
    fetched.GetOr([])
  }

  /** The placeholder takes the place of the cards exactly when there are no feed types. */
  predicate ShowsPlaceholder(fetched: Option<seq<FeedType>>) {
    |ShownTypes(fetched)| == 0
  }

  lemma PlaceholderIffNoTypes(fetched: Option<seq<FeedType>>)
    ensures ShowsPlaceholder(fetched) <==> fetched.None? || fetched.value == []
  {
  }
}
