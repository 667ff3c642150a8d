/**
 * The crops list page: each crop fetched with its daily logs' mortality gets a present-chick
 * count, and each card picks a date to show, a status label and a badge.
 */
module CropsPage {
  import opened Wrappers
  import opened Farm

  /** A crop row as fetched with `daily_logs(mortality)`; the log list or a mortality may be null. */
  datatype CropWithLogs = CropWithLogs(crop: Crop, dailyLogs: Option<seq<Option<int>>>)

  /** A crop with its present-chick count. */
  datatype CropView = CropView(crop: Crop, presentChicks: int)

  /** The sum of the logs' mortality, a null mortality and a null log list counting as 0. */
  function TotalMortality(logs: seq<Option<int>>): int {
    if logs == [] then 0 else TotalMortality(logs[..|logs| - 1]) + logs[|logs| - 1].GetOr(0)
  }

  lemma {:induction false} TotalMortalityAppend(a: seq<Option<int>>, b: seq<Option<int>>)
    ensures TotalMortality(a + b) == TotalMortality(a) + TotalMortality(b)
  {
    if b == [] {
      assert a + b == a;
    } else {
      assert (a + b)[..|a + b| - 1] == a + b[..|b| - 1];
      TotalMortalityAppend(a, b[..|b| - 1]);
    }
  }

  /** When no log records a negative mortality, the total is non-negative, so present chicks never exceed total chicks. */
  lemma {:induction false} TotalMortalityNonNegative(logs: seq<Option<int>>)
    requires forall i :: 0 <= i < |logs| ==> logs[i].GetOr(0) >= 0
    ensures TotalMortality(logs) >= 0
  {
    if logs != [] {
      TotalMortalityNonNegative(logs[..|logs| - 1]);
    }
  }

  /** `present_chicks`: the total less the recorded mortality. */
  function PresentChicks(c: CropWithLogs): (n: int)
    ensures c.dailyLogs.None? || c.dailyLogs.value == [] ==> n == c.crop.totalChicks
    ensures c.dailyLogs.Some? ==> n == c.crop.totalChicks - TotalMortality(c.dailyLogs.value)
  {
    c.crop.totalChicks - (match c.dailyLogs case None => 0 case Some(logs) => TotalMortality(logs))
  }

  /** A further day's log lowers the present count by exactly that day's mortality. */
  lemma OneMoreDay(c: CropWithLogs, mortality: Option<int>)
    ensures var more := c.(dailyLogs := Some(c.dailyLogs.GetOr([]) + [mortality]));
      PresentChicks(more) == PresentChicks(c) - mortality.GetOr(0)
  {
    var logs := c.dailyLogs.GetOr([]);
    assert (logs + [mortality])[..|logs|] == logs;
    assert TotalMortality(logs + [mortality]) == TotalMortality(logs) + mortality.GetOr(0);
    assert c.dailyLogs.None? ==> TotalMortality(logs) == 0;
  }

  /** The page's mapping: one view per fetched crop, in the fetched order; no data stays no data. */
  function WithPresentChicks(rows: Option<seq<CropWithLogs>>): (views: Option<seq<CropView>>)
    ensures views.Some? <==> rows.Some?
    ensures rows.Some? ==> |views.value| == |rows.value|
    ensures rows.Some? ==> forall i :: 0 <= i < |rows.value| ==>
      views.value[i] == CropView(rows.value[i].crop, PresentChicks(rows.value[i]))
  {
    match rows
    case None => None
    case Some(rs) => Some(Views(rs))
  }

  function Views(rs: seq<CropWithLogs>): (vs: seq<CropView>)
    ensures |vs| == |rs|
    ensures forall i :: 0 <= i < |rs| ==> vs[i] == CropView(rs[i].crop, PresentChicks(rs[i]))
  {
    if rs == [] then [] else Views(rs[..|rs| - 1]) + [CropView(rs[|rs| - 1].crop, PresentChicks(rs[|rs| - 1]))]
  }

  /** Which harvest date a card shows. */
  datatype DateMetric = HarvestedDate(date: string) | ExpectedHarvest(date: string) | NoHarvestDate

  /** A date field that is present and not the empty text. */
  predicate IsSet(d: Option<string>) {
    d.Some? && d.value != ""
  }

  /**
   * The harvested date exactly when the crop is Completed and has one; otherwise the expected
   * harvest date when it is set; otherwise nothing.
   */
  function HarvestMetric(crop: Crop): (m: DateMetric)
    ensures m.HarvestedDate? <==> crop.status == Completed && IsSet(crop.actualHarvestDate)
    ensures m.HarvestedDate? ==> m.date == crop.actualHarvestDate.value
    ensures m.ExpectedHarvest? <==> !(crop.status == Completed && IsSet(crop.actualHarvestDate)) && IsSet(crop.expectedHarvestDate)
    ensures m.ExpectedHarvest? ==> m.date == crop.expectedHarvestDate.value
  {
    if crop.status == Completed && IsSet(crop.actualHarvestDate) then HarvestedDate(crop.actualHarvestDate.value)
    else if IsSet(crop.expectedHarvestDate) then ExpectedHarvest(crop.expectedHarvestDate.value)
    else NoHarvestDate
  }

  /** An active crop shows its expected harvest even if an actual date was recorded. */
  lemma ActiveCropShowsExpectedDate(crop: Crop)
    requires crop.status == Active && IsSet(crop.expectedHarvestDate)
    ensures HarvestMetric(crop) == ExpectedHarvest(crop.expectedHarvestDate.value)
  {
  }

  /** The status text, as stored; a missing or empty status is shown as "Active". */
  function StatusLabel(status: Option<string>): (text: string)
    ensures text != ""
    ensures IsSet(status) ==> text == status.value
    ensures !IsSet(status) ==> text == "Active"
  {
    if IsSet(status) then status.value else "Active"
  }

  datatype Badge = ActiveBadge | CompletedBadge | NeutralBadge

  /** The badge styling: one for "Active", one for "Completed", one for everything else. */
  function StatusBadge(status: Option<string>): (b: Badge)
    ensures b == ActiveBadge <==> status == Some("Active")
    ensures b == CompletedBadge <==> status == Some("Completed")
  {
    if status == Some("Active") then ActiveBadge
    else if status == Some("Completed") then CompletedBadge
    else NeutralBadge
  }

  /** For every status the type allows, the label is its name and the badge matches it. */
  lemma LabelAndBadgeAgree(s: CropStatus)
    ensures StatusLabel(Some(CropStatusName(s))) == CropStatusName(s)
    ensures StatusBadge(Some(CropStatusName(s))) == match s
      case Active => ActiveBadge
      case Completed => CompletedBadge
      case Archived => NeutralBadge
  {
  }

  /** A missing status is labelled "Active" but styled as neither active nor completed. */
  lemma MissingStatusLabelAndBadgeDisagree()
    ensures StatusLabel(None) == "Active" && StatusBadge(None) == NeutralBadge
  {
  }

  /** The empty state is shown for no data or no crops; otherwise one card per crop. */
  predicate ShowsEmptyState(views: Option<seq<CropView>>) {
    views.None? || |views.value| == 0
  }

  lemma EmptyStateIffNoCrops(rows: Option<seq<CropWithLogs>>)
    ensures ShowsEmptyState(WithPresentChicks(rows)) <==> rows.None? || rows.value == []
  {
  }
}
