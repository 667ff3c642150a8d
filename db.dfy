/**
 * The backing store as the application sees it: one owner's rows of the `crops`,
 * `chick_sources`, `feed_types`, `feed_logs` and `vaccinations` tables, and the counter from
 * which the store draws the id of each inserted row.
 */
module Db {
  import opened Farm
  import opened Ledger
  import JsText

  /** The id the store gives to the `n`-th inserted row. */
  function RowId(n: nat): (id: string)
    ensures id == "row-" + JsText.NatToDecimal(n)
  {
    "row-" + JsText.NatToDecimal(n)
  }

  class Store {
    var crops: seq<Crop>
    var chickSources: seq<ChickSource>
    var feedTypes: FeedTypes
    var feedLogs: seq<FeedLog>
    var vaccinations: seq<VaccinationSchedule>
    var nextRowId: nat

    /** Feed type names are unique per owner, so each row is filed under its name. */
    ghost predicate Valid()
      reads this
    {
      WellKeyed(feedTypes)
    }

    /** The feed tables together with the id counter. */
    function Book(): (b: FeedBook)
      reads this
      ensures b.types == feedTypes && b.logs == feedLogs && b.nextRowId == nextRowId
    {
      FeedBook(feedTypes, feedLogs, nextRowId)
    }

    /** An empty store. */
    constructor ()
      ensures Valid()
      ensures crops == [] && chickSources == [] && feedTypes == map[] && feedLogs == []
      ensures vaccinations == [] && nextRowId == 0
    {
      crops, chickSources, feedTypes, feedLogs, vaccinations, nextRowId := [], [], map[], [], [], 0;
    }
  }
}
