/**
 * Creating a crop: insert the crop as Active, add a chick-source row per supplier with a
 * positive count, and, for each feed category with a positive bag count, find or create its
 * feed type, credit `count * 50` kg and append one Restock entry to the ledger.
 */
module NewCrop {
  import opened Wrappers
  import opened Farm
  import opened Ledger
  import opened Db
  import opened FixFeedData

  /** The form's fields; the numeric ones are given as the numbers the form parses them to. */
  datatype NewCropForm = NewCropForm(
    name: string,
    totalChicks: int,
    arrivalDate: string,
    expectedHarvestDate: string,
    notes: string,
    aniritaChicks: int,
    kenchickChicks: int,
    c1FeedBags: int,
    c2FeedBags: int,
    c3FeedBags: int)

  const NotSignedInMessage: string := "You must be logged in to create a crop."

  /** Step 1: the crop row, always Active. */
  function NewCropRow(id: string, form: NewCropForm): (crop: Crop)
    ensures crop.id == id && crop.status == Active && crop.totalChicks == form.totalChicks
    ensures crop.name == form.name && crop.actualHarvestDate == None
  {
    Crop(id, form.name, form.totalChicks, form.arrivalDate, Some(form.expectedHarvestDate), None,
         Active, Some(form.notes), None)
  }

  /** Step 2: one chick-source row per supplier whose count is strictly positive. */
  function ChickSourceRows(cropId: string, anirita: int, kenchick: int, nextRowId: nat): (rows: seq<ChickSource>)
    ensures |rows| == (if anirita > 0 then 1 else 0) + (if kenchick > 0 then 1 else 0)
    ensures forall r :: r in rows ==> r.cropId == cropId && r.count > 0
    ensures forall r :: r in rows ==>
      (r.supplierName == "ANIRITA" && r.count == anirita) || (r.supplierName == "KENCHICK" && r.count == kenchick)
    ensures anirita > 0 ==> rows[0].supplierName == "ANIRITA"
    ensures kenchick > 0 ==> rows[|rows| - 1].supplierName == "KENCHICK"
  {
    (if anirita > 0 then [ChickSource(RowId(nextRowId), cropId, "ANIRITA", anirita)] else [])
    + (if kenchick > 0
       then [ChickSource(RowId(nextRowId + (if anirita > 0 then 1 else 0)), cropId, "KENCHICK", kenchick)]
       else [])
  }

  /** Step 3's list: each category with the bags the form brings of it. */
  function FeedsOf(form: NewCropForm): seq<(string, int)> {
    [("C1", form.c1FeedBags), ("C2", form.c2FeedBags), ("C3", form.c3FeedBags)]
  }

  /** The Restock entry for one category, with the count in that category's column. */
  function RestockLog(id: string, typeId: string, cropId: string, name: string, count: int, now: string): (log: FeedLog)
    ensures log.action == Restock && log.feedTypeId == Some(typeId) && log.cropId == Some(cropId)
    ensures name in Categories ==> LogBags(log, name) == count
    ensures forall c :: c in Categories && c != name ==> LogBags(log, c) == (if c == "C1" && name !in Categories then count else 0)
  {
    var log := FeedLog(id, Some(typeId), Some(cropId), Restock, None, None, None, now, None);
    if name == "C1" then log.(c1Bags := Some(count))
    else if name == "C2" then log.(c2Bags := Some(count))
    else if name == "C3" then log.(c3Bags := Some(count))
    else log.(c1Bags := Some(count))
  }

  /**
   * Step 3 for one category: nothing happens for a count of 0 or less; otherwise the feed type
   * is created with `count * 50` kg or has `count * 50` kg added to its stock (a missing stock
   * counting as 0), and one Restock entry naming that feed type is appended.
   */
  function IntakeStep(book: FeedBook, name: string, count: int, cropId: string, now: string): (after: FeedBook)
    ensures count <= 0 ==> after == book
    ensures count > 0 ==>
      && name in after.types
      && CachedKg(after.types, name) == CachedKg(book.types, name) + count * BagWeightKg
      && (name !in book.types ==> after.types[name] == FeedType(RowId(book.nextRowId), name, Some(count * BagWeightKg), None))
      && (name in book.types ==> after.types[name].id == book.types[name].id && after.types[name].lastRestockBags == book.types[name].lastRestockBags)
      && |after.logs| == |book.logs| + 1 && after.logs[..|book.logs|] == book.logs
      && after.logs[|book.logs|] == RestockLog(after.logs[|book.logs|].id, after.types[name].id, cropId, name, count, now)
    ensures forall n :: n != name ==> (n in after.types <==> n in book.types)
    ensures forall n :: n != name && n in book.types ==> after.types[n] == book.types[n]
  {
    if count <= 0 then book
    else if name in book.types then
      var found := book.types[name];
      var currentStock := found.currentStockKg.GetOr(0);
      var types := book.types[name := found.(currentStockKg := Some(currentStock + count * BagWeightKg))];
      FeedBook(types, book.logs + [RestockLog(RowId(book.nextRowId), found.id, cropId, name, count, now)], book.nextRowId + 1)
    else
      var typeId := RowId(book.nextRowId);
      var types := book.types[name := FeedType(typeId, name, Some(count * BagWeightKg), None)];
      FeedBook(types, book.logs + [RestockLog(RowId(book.nextRowId + 1), typeId, cropId, name, count, now)], book.nextRowId + 2)
  }

  /** Step 3 over a list of categories, first to last. */
  function IntakeFeeds(book: FeedBook, feeds: seq<(string, int)>, cropId: string, now: string): FeedBook {
    if feeds == [] then book
    else
      var last := feeds[|feeds| - 1];
      IntakeStep(IntakeFeeds(book, feeds[..|feeds| - 1], cropId, now), last.0, last.1, cropId, now)
  }

  /** How many of the listed categories bring a positive number of bags. */
  function PositiveCount(feeds: seq<(string, int)>): nat {
    if feeds == [] then 0
    else PositiveCount(feeds[..|feeds| - 1]) + (if feeds[|feeds| - 1].1 > 0 then 1 else 0)
  }

  /** One intake step keeps every category's drift. */
  lemma IntakeStepPreservesDrift(book: FeedBook, name: string, count: int, cropId: string, now: string, c: string)
    requires name in Categories && c in Categories
    ensures Drift(IntakeStep(book, name, count, cropId, now), c) == Drift(book, c)
  {
    var after := IntakeStep(book, name, count, cropId, now);
    if count > 0 {
      var log := after.logs[|book.logs|];
      assert after.logs == book.logs + [log];
      LedgerBagsAppend(book.logs, log, c);
      if c == name {
        assert LedgerBags(after.logs, c) == LedgerBags(book.logs, c) + count;
      } else {
        assert LogBags(log, c) == 0;
        assert CachedKg(after.types, c) == CachedKg(book.types, c);
      }
    }
  }

  /**
   * The intake never makes stock drift from the ledger: each category's cached stock moves
   * by exactly 50 kg per bag its new Restock entries record.
   */
  lemma {:induction false} IntakePreservesDrift(book: FeedBook, feeds: seq<(string, int)>, cropId: string, now: string, c: string)
    requires forall i :: 0 <= i < |feeds| ==> feeds[i].0 in Categories
    requires c in Categories
    ensures Drift(IntakeFeeds(book, feeds, cropId, now), c) == Drift(book, c)
  {
    if feeds != [] {
      var init := feeds[..|feeds| - 1];
      var last := feeds[|feeds| - 1];
      IntakePreservesDrift(book, init, cropId, now, c);
      IntakeStepPreservesDrift(IntakeFeeds(book, init, cropId, now), last.0, last.1, cropId, now, c);
    }
  }

  /**
   * The ledger only grows: one Restock entry is appended per category with a positive count,
   * and the entries already there stay as they were.
   */
  lemma {:induction false} IntakeAppendsOneLogPerPositiveCount(book: FeedBook, feeds: seq<(string, int)>, cropId: string, now: string)
    ensures var after := IntakeFeeds(book, feeds, cropId, now);
      |after.logs| == |book.logs| + PositiveCount(feeds) && after.logs[..|book.logs|] == book.logs
  {
    if feeds != [] {
      var init := feeds[..|feeds| - 1];
      IntakeAppendsOneLogPerPositiveCount(book, init, cropId, now);
      var mid := IntakeFeeds(book, init, cropId, now);
      var after := IntakeFeeds(book, feeds, cropId, now);
      if feeds[|feeds| - 1].1 > 0 {
        assert after.logs[..|book.logs|] == after.logs[..|mid.logs|][..|book.logs|];
      }
    }
  }

  /** Feed types under names outside the list are left alone. */
  lemma {:induction false} IntakeLeavesOtherTypes(book: FeedBook, feeds: seq<(string, int)>, cropId: string, now: string, n: string)
    requires forall i :: 0 <= i < |feeds| ==> feeds[i].0 != n
    ensures var after := IntakeFeeds(book, feeds, cropId, now);
      (n in after.types <==> n in book.types) && (n in book.types ==> after.types[n] == book.types[n])
  {
    if feeds != [] {
      IntakeLeavesOtherTypes(book, feeds[..|feeds| - 1], cropId, now, n);
    }
  }

  /** Where the ledger and the stock agreed before an intake, they still agree after it. */
  lemma IntakeKeepsAgreement(book: FeedBook, form: NewCropForm, cropId: string, now: string)
    requires forall c :: c in Categories ==> Drift(book, c) == 0
    ensures forall c :: c in Categories ==> Drift(IntakeFeeds(book, FeedsOf(form), cropId, now), c) == 0
  {
    forall c | c in Categories
      ensures Drift(IntakeFeeds(book, FeedsOf(form), cropId, now), c) == 0
    {
      IntakePreservesDrift(book, FeedsOf(form), cropId, now, c);
    }
  }

  /** One intake step keeps the tables exactly in sync with the ledger. */
  lemma IntakeStepKeepsExactSync(book: FeedBook, name: string, count: int, cropId: string, now: string)
    requires name in Categories
    requires ExactlyInSync(book.types, book.logs)
    ensures var after := IntakeStep(book, name, count, cropId, now); ExactlyInSync(after.types, after.logs)
  {
    var after := IntakeStep(book, name, count, cropId, now);
    if count > 0 {
      var log := after.logs[|book.logs|];
      assert after.logs == book.logs + [log];
      forall c | c in Categories
        ensures (c in after.types ==> after.types[c].currentStockKg == Some(TargetKg(after.logs, c)))
             && (c !in after.types ==> TargetKg(after.logs, c) == 0)
      {
        LedgerBagsAppend(book.logs, log, c);
        if c == name {
          assert LedgerBags(after.logs, c) == LedgerBags(book.logs, c) + count;
        } else {
          assert LogBags(log, c) == 0;
        }
      }
    }
  }

  /**
   * When the tables agree exactly with the ledger before a crop intake, they still do after
   * it, so a signed-in run of the fixer finds nothing to write.
   */
  lemma {:induction false} IntakeLeavesNothingToRepair(book: FeedBook, feeds: seq<(string, int)>, cropId: string, now: string)
    requires forall i :: 0 <= i < |feeds| ==> feeds[i].0 in Categories
    requires ExactlyInSync(book.types, book.logs)
    ensures var after := IntakeFeeds(book, feeds, cropId, now);
      ExactlyInSync(after.types, after.logs) && PlanRepair(after.types, after.logs, true) == []
  {
    if feeds != [] {
      var init := feeds[..|feeds| - 1];
      var last := feeds[|feeds| - 1];
      IntakeLeavesNothingToRepair(book, init, cropId, now);
      IntakeStepKeepsExactSync(IntakeFeeds(book, init, cropId, now), last.0, last.1, cropId, now);
    }
    var after := IntakeFeeds(book, feeds, cropId, now);
    InSyncIffNothingToRepair(after.types, after.logs);
  }

  /** Step 3 for one category on the store: find or create, credit, append the Restock entry. */
  method RestockCategory(store: Store, name: string, count: int, cropId: string, now: string)
    requires store.Valid()
    modifies store`feedTypes, store`feedLogs, store`nextRowId
    ensures store.Valid()
    ensures store.Book() == IntakeStep(old(store.Book()), name, count, cropId, now)
  {
    if count > 0 {
      var typeId: string;
      if name in store.feedTypes {
        var typeData := store.feedTypes[name];
        typeId := typeData.id;
        var currentStock := typeData.currentStockKg.GetOr(0);
        store.feedTypes := store.feedTypes[name := typeData.(currentStockKg := Some(currentStock + count * BagWeightKg))];
      } else {
        typeId := RowId(store.nextRowId);
        store.feedTypes := store.feedTypes[name := FeedType(typeId, name, Some(count * BagWeightKg), None)];
        store.nextRowId := store.nextRowId + 1;
      }
      var logData := FeedLog(RowId(store.nextRowId), Some(typeId), Some(cropId), Restock, None, None, None, now, None);
      if name == "C1" {
        logData := logData.(c1Bags := Some(count));
      } else if name == "C2" {
        logData := logData.(c2Bags := Some(count));
      } else if name == "C3" {
        logData := logData.(c3Bags := Some(count));
      } else {
        logData := logData.(c1Bags := Some(count));
      }
      store.feedLogs := store.feedLogs + [logData];
      store.nextRowId := store.nextRowId + 1;
    }
  }

  /** Step 3's loop: each listed category in turn. */
  method RestockAll(store: Store, feeds: seq<(string, int)>, cropId: string, now: string)
    requires store.Valid()
    modifies store`feedTypes, store`feedLogs, store`nextRowId
    ensures store.Valid()
    ensures store.Book() == IntakeFeeds(old(store.Book()), feeds, cropId, now)
  {
    ghost var start := store.Book();
    for i := 0 to |feeds|
      invariant store.Valid()
      invariant store.Book() == IntakeFeeds(start, feeds[..i], cropId, now)
    {
      RestockCategory(store, feeds[i].0, feeds[i].1, cropId, now);
      assert feeds[..i + 1][..i] == feeds[..i];
    }
    assert feeds[..|feeds|] == feeds;
  }

  /** `handleSubmit` on the store, given the identity and how the crop and source inserts fare. */
  method HandleSubmit(store: Store, user: Option<string>, form: NewCropForm, cropInsertError: Option<string>,
                      sourceInsertFails: bool, now: string) returns (error: Option<string>)
    requires store.Valid()
    modifies store
    ensures store.Valid()
    ensures store.vaccinations == old(store.vaccinations)
    ensures user.None? ==> error == Some(NotSignedInMessage) && unchanged(store)
    ensures user.Some? && cropInsertError.Some? ==> error == cropInsertError && unchanged(store)
    ensures user.Some? && cropInsertError.None? ==>
      var cropId := RowId(old(store.nextRowId));
      var sources := if sourceInsertFails then []
                     else ChickSourceRows(cropId, form.aniritaChicks, form.kenchickChicks, old(store.nextRowId) + 1);
      && error == None
      && store.crops == old(store.crops) + [NewCropRow(cropId, form)]
      && store.chickSources == old(store.chickSources) + sources
      && store.Book() == IntakeFeeds(FeedBook(old(store.feedTypes), old(store.feedLogs), old(store.nextRowId) + 1 + |sources|),
                                     FeedsOf(form), cropId, now)
  {
    if user.None? {
      return Some(NotSignedInMessage);
    }
    if cropInsertError.Some? {
      return cropInsertError;
    }
    var cropId := RowId(store.nextRowId);
    store.crops := store.crops + [NewCropRow(cropId, form)];
    store.nextRowId := store.nextRowId + 1;

    var sources := ChickSourceRows(cropId, form.aniritaChicks, form.kenchickChicks, store.nextRowId);
    if |sources| > 0 && !sourceInsertFails {
      store.chickSources := store.chickSources + sources;
      store.nextRowId := store.nextRowId + |sources|;
    }

    RestockAll(store, FeedsOf(form), cropId, now);
    return None;
  }
}
