/**
 * The farm's records (crops, chick sources, feed types, feed ledger entries, daily logs and
 * vaccination schedules) and the status unions they carry. Optional fields are `Option`s;
 * counts are integers.
 */
module Farm {
  import opened Wrappers

  /** Every stock write and every bag display uses bags of this many kilograms. */
  const BagWeightKg: int := 50

  datatype CropStatus = Active | Completed | Archived
  datatype VaccinationStatus = Pending | Administered | Missed
  datatype FeedAction = Restock | Usage

  /** The text the store holds for a crop status. */
  function CropStatusName(s: CropStatus): string {
    match s
    case Active => "Active"
    case Completed => "Completed"
    case Archived => "Archived"
  }

  /** Reading a crop status back from its text: exactly the three names are accepted. */
  function ParseCropStatus(t: string): (r: Option<CropStatus>)
    ensures r.Some? <==> t == "Active" || t == "Completed" || t == "Archived"
    ensures r.Some? ==> CropStatusName(r.value) == t
  {
    if t == "Active" then Some(Active)
    else if t == "Completed" then Some(Completed)
    else if t == "Archived" then Some(Archived)
    else None
  }

  lemma CropStatusRoundTrip(s: CropStatus)
    ensures ParseCropStatus(CropStatusName(s)) == Some(s)
  {
  }

  /** The text the store holds for a vaccination status. */
  function VaccinationStatusName(s: VaccinationStatus): string {
    match s
    case Pending => "Pending"
    case Administered => "Administered"
    case Missed => "Missed"
  }

  /** Reading a vaccination status back from its text: exactly the three names are accepted. */
  function ParseVaccinationStatus(t: string): (r: Option<VaccinationStatus>)
    ensures r.Some? <==> t == "Pending" || t == "Administered" || t == "Missed"
    ensures r.Some? ==> VaccinationStatusName(r.value) == t
  {
    if t == "Pending" then Some(Pending)
    else if t == "Administered" then Some(Administered)
    else if t == "Missed" then Some(Missed)
    else None
  }

  lemma VaccinationStatusRoundTrip(s: VaccinationStatus)
    ensures ParseVaccinationStatus(VaccinationStatusName(s)) == Some(s)
  {
  }

  /** The text the store holds for a feed action. */
  function FeedActionName(a: FeedAction): string {
    match a
    case Restock => "Restock"
    case Usage => "Usage"
  }

  /** Reading a feed action back from its text: exactly `Restock` and `Usage` are accepted. */
  function ParseFeedAction(t: string): (r: Option<FeedAction>)
    ensures r.Some? <==> t == "Restock" || t == "Usage"
    ensures r.Some? ==> FeedActionName(r.value) == t
  {
    if t == "Restock" then Some(Restock)
    else if t == "Usage" then Some(Usage)
    else None
  }

  /** A production batch. */
  datatype Crop = Crop(
    id: string,
    name: string,
    totalChicks: int,
    arrivalDate: string,
    expectedHarvestDate: Option<string>,
    actualHarvestDate: Option<string>,
    status: CropStatus,
    notes: Option<string>,
    createdAt: Option<string>)

  /** Where some of a crop's chicks came from ('ANIRITA', 'KENCHICK'). */
  datatype ChickSource = ChickSource(id: string, cropId: string, supplierName: string, count: int)

  /**
   * A feed category ('C1', 'C2', 'C3') with its cached stock in kilograms. The field named
   * `reorder_level_kg` in the store holds the bag count of the last restock.
   */
  datatype FeedType = FeedType(
    id: string,
    name: string,
    currentStockKg: Option<int>,
    lastRestockBags: Option<int>)

  /** One ledger entry: a restock or a usage, with optional bag counts per category. */
  datatype FeedLog = FeedLog(
    id: string,
    feedTypeId: Option<string>,
    cropId: Option<string>,
    action: FeedAction,
    c1Bags: Option<int>,
    c2Bags: Option<int>,
    c3Bags: Option<int>,
    logDate: string,
    userId: Option<string>)

  /** One day's figures for one crop. */
  datatype DailyLog = DailyLog(
    id: string,
    cropId: string,
    logDate: string,
    mortality: int,
    feedConsumedKg: real,
    waterConsumedLiters: Option<real>,
    avgWeightG: Option<real>,
    notes: Option<string>)

  /** A planned or given vaccination of a crop. */
  datatype VaccinationSchedule = VaccinationSchedule(
    id: string,
    cropId: string,
    vaccineName: string,
    standardDay: Option<int>,
    targetDate: string,
    status: VaccinationStatus,
    administeredAt: Option<string>,
    notes: Option<string>)
}
