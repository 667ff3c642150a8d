/**
 * The feed data fixer: recompute each category's bag total from the whole ledger, then bring
 * the cached stock of C1, C2 and C3 in line with it, overwriting a wrong value and creating a
 * missing feed type when the ledger implies positive stock and a user is signed in.
 */
module FixFeedData {
  import opened Wrappers
  import opened Farm
  import opened Ledger
  import opened Db

  /** A write the fixer sends to `feed_types`. */
  datatype StockWrite = SetStock(name: string, kg: int) | CreateType(name: string, kg: int)

  /** How a run ends: the writes it made, or the status text of the error that stopped it. */
  datatype FixOutcome = Synced(writes: seq<StockWrite>) | FixFailed(status: string)

  /**
   * Step 2: the signed bag totals of C1, C2 and C3, accumulated entry by entry as the
   * `forEach` does.
   */
  method ExpectedBags(logs: seq<FeedLog>) returns (expected: map<string, int>)
    ensures expected.Keys == {"C1", "C2", "C3"}
    ensures forall name :: name in expected ==> expected[name] == LedgerBags(logs, name)
  {
    expected := map["C1" := 0, "C2" := 0, "C3" := 0];
    for i := 0 to |logs|
      invariant expected.Keys == {"C1", "C2", "C3"}
      invariant forall name :: name in expected ==> expected[name] == LedgerBags(logs[..i], name)
    {
      var log := logs[i];
      var multiplier := if log.action == Restock then 1 else -1;
      assert logs[..i + 1] == logs[..i] + [log];
      LedgerBagsAppend(logs[..i], log, "C1");
      LedgerBagsAppend(logs[..i], log, "C2");
      LedgerBagsAppend(logs[..i], log, "C3");
      expected := expected["C1" := expected["C1"] + log.c1Bags.GetOr(0) * multiplier];
      expected := expected["C2" := expected["C2"] + log.c2Bags.GetOr(0) * multiplier];
      expected := expected["C3" := expected["C3"] + log.c3Bags.GetOr(0) * multiplier];
    }
    assert logs[..|logs|] == logs;
  }

  /** The write step 4 makes for one category, judged against the fetched snapshot. */
  function RepairWrite(types: FeedTypes, name: string, targetKg: int, signedIn: bool): Option<StockWrite>
  {
    if name in types then
      if types[name].currentStockKg != Some(targetKg) then Some(SetStock(name, targetKg)) else None
    else if targetKg > 0 && signedIn then Some(CreateType(name, targetKg))
    else None
  }

  function OptionToSeq<T>(o: Option<T>): seq<T> {
    match o
    case Some(v) => [v]
    case None => []
  }

  /** The writes step 4 makes for the given categories, in order. */
  function WritesFor(types: FeedTypes, logs: seq<FeedLog>, signedIn: bool, names: seq<string>): seq<StockWrite>
  {
    if names == [] then []
    else
      var last := names[|names| - 1];
      WritesFor(types, logs, signedIn, names[..|names| - 1])
        + OptionToSeq(RepairWrite(types, last, TargetKg(logs, last), signedIn))
  }

  /** All the writes one run makes. */
  function PlanRepair(types: FeedTypes, logs: seq<FeedLog>, signedIn: bool): seq<StockWrite> {
    WritesFor(types, logs, signedIn, Categories)
  }

  /** The effect of one write on the feed tables. */
  function ApplyWrite(book: FeedBook, w: StockWrite): FeedBook {
    match w
    case SetStock(name, kg) =>
      if name in book.types
      then book.(types := book.types[name := book.types[name].(currentStockKg := Some(kg))])
      else book
    case CreateType(name, kg) =>
      book.(types := book.types[name := FeedType(RowId(book.nextRowId), name, Some(kg), None)],
            nextRowId := book.nextRowId + 1)
  }

  /** The effect of a sequence of writes, first write first. */
  function ApplyWrites(book: FeedBook, ws: seq<StockWrite>): FeedBook {
    if ws == [] then book else ApplyWrite(ApplyWrites(book, ws[..|ws| - 1]), ws[|ws| - 1])
  }

  /** Step 4 for one category: overwrite a wrong stock, or create a missing feed type. */
  method FixCategory(store: Store, types: FeedTypes, name: string, expectedKg: int, signedIn: bool)
    returns (w: Option<StockWrite>)
    requires store.Valid()
    requires name in store.feedTypes <==> name in types
    requires name in types ==> store.feedTypes[name] == types[name]
    modifies store`feedTypes, store`nextRowId
    ensures store.Valid()
    ensures w == RepairWrite(types, name, expectedKg, signedIn)
    ensures store.Book() == if w.Some? then ApplyWrite(old(store.Book()), w.value) else old(store.Book())
    ensures forall n :: n != name ==> (n in store.feedTypes <==> n in old(store.feedTypes))
    ensures forall n :: n != name && n in old(store.feedTypes) ==> store.feedTypes[n] == old(store.feedTypes)[n]
  {
    w := None;
    if name in types {
      var currentType := types[name];
      if currentType.currentStockKg != Some(expectedKg) {
        store.feedTypes := store.feedTypes[name := store.feedTypes[name].(currentStockKg := Some(expectedKg))];
        w := Some(SetStock(name, expectedKg));
      }
    } else if expectedKg > 0 {
      if signedIn {
        store.feedTypes := store.feedTypes[name := FeedType(RowId(store.nextRowId), name, Some(expectedKg), None)];
        store.nextRowId := store.nextRowId + 1;
        w := Some(CreateType(name, expectedKg));
      }
    }
  }

  /** Step 4's loop: each of C1, C2 and C3 in turn, judged against the snapshot taken before it. */
  method RepairCategories(store: Store, expectedBags: map<string, int>, signedIn: bool)
    returns (writes: seq<StockWrite>)
    requires store.Valid()
    requires forall j :: 0 <= j < |Categories| ==>
      Categories[j] in expectedBags && expectedBags[Categories[j]] == LedgerBags(store.feedLogs, Categories[j])
    modifies store`feedTypes, store`nextRowId
    ensures store.Valid()
    ensures writes == PlanRepair(old(store.feedTypes), store.feedLogs, signedIn)
    ensures store.Book() == ApplyWrites(old(store.Book()), writes)
  {
    var types := store.feedTypes;
    var logs := store.feedLogs;
    ghost var start := store.Book();
    CategoriesAreDistinct();
    writes := [];
    for i := 0 to |Categories|
      invariant writes == WritesFor(types, logs, signedIn, Categories[..i])
      invariant store.Book() == ApplyWrites(start, writes)
      invariant store.Valid()
      invariant forall j :: i <= j < |Categories| ==>
        (Categories[j] in store.feedTypes <==> Categories[j] in types) &&
        (Categories[j] in types ==> store.feedTypes[Categories[j]] == types[Categories[j]])
    {
      var name := Categories[i];
      var expectedKg := expectedBags[name] * BagWeightKg;
      assert expectedKg == TargetKg(logs, name);
      ghost var before := store.Book();
      var w := FixCategory(store, types, name, expectedKg, signedIn);
      PlanStep(types, logs, signedIn, i);
      ApplyWritesConcat(start, writes, OptionToSeq(w));
      OneWrite(before, w);
      writes := writes + OptionToSeq(w);
    }
    assert Categories[..|Categories|] == Categories;
  }

  /** The whole run of `runFix` on the store, given how its two fetches fare. */
  method RunFix(store: Store, signedIn: bool, logsError: Option<string>, typesError: Option<string>)
    returns (outcome: FixOutcome)
    requires store.Valid()
    modifies store`feedTypes, store`nextRowId
    ensures store.Valid()
    ensures logsError.Some? ==> outcome == FixFailed("Error: " + logsError.value)
    ensures logsError.None? && typesError.Some? ==> outcome == FixFailed("Error: " + typesError.value)
    ensures outcome.FixFailed? ==> store.feedTypes == old(store.feedTypes) && store.nextRowId == old(store.nextRowId)
    ensures logsError.None? && typesError.None? ==>
      && outcome == Synced(PlanRepair(old(store.feedTypes), store.feedLogs, signedIn))
      && store.Book() == ApplyWrites(old(store.Book()), outcome.writes)
  {
    if logsError.Some? {
      return FixFailed("Error: " + logsError.value);
    }
    var expectedBags := ExpectedBags(store.feedLogs);
    if typesError.Some? {
      return FixFailed("Error: " + typesError.value);
    }
    var writes := RepairCategories(store, expectedBags, signedIn);
    return Synced(writes);
  }

  /** The plan for one more category adds that category's optional write. */
  lemma PlanStep(types: FeedTypes, logs: seq<FeedLog>, signedIn: bool, i: nat)
    requires i < |Categories|
    ensures WritesFor(types, logs, signedIn, Categories[..i + 1])
         == WritesFor(types, logs, signedIn, Categories[..i])
          + OptionToSeq(RepairWrite(types, Categories[i], TargetKg(logs, Categories[i]), signedIn))
  {
    assert Categories[..i + 1][..i] == Categories[..i];
  }

  lemma OneWrite(book: FeedBook, w: Option<StockWrite>)
    ensures ApplyWrites(book, OptionToSeq(w)) == if w.Some? then ApplyWrite(book, w.value) else book
  {
    if w.Some? {
      assert OptionToSeq(w)[..0] == [];
    }
  }

  /** The plan is the optional write for C1, then C2, then C3. */
  lemma PlanShape(types: FeedTypes, logs: seq<FeedLog>, signedIn: bool)
    ensures PlanRepair(types, logs, signedIn)
         == OptionToSeq(RepairWrite(types, "C1", TargetKg(logs, "C1"), signedIn))
          + OptionToSeq(RepairWrite(types, "C2", TargetKg(logs, "C2"), signedIn))
          + OptionToSeq(RepairWrite(types, "C3", TargetKg(logs, "C3"), signedIn))
  {
    var o1 := OptionToSeq(RepairWrite(types, "C1", TargetKg(logs, "C1"), signedIn));
    var o2 := OptionToSeq(RepairWrite(types, "C2", TargetKg(logs, "C2"), signedIn));
    var o3 := OptionToSeq(RepairWrite(types, "C3", TargetKg(logs, "C3"), signedIn));
    assert Categories[..2] == ["C1", "C2"];
    assert ["C1", "C2"][..1] == ["C1"];
    assert ["C1"][..0] == [];
    assert WritesFor(types, logs, signedIn, ["C1"]) == o1;
    assert WritesFor(types, logs, signedIn, ["C1", "C2"]) == o1 + o2;
    assert WritesFor(types, logs, signedIn, Categories) == o1 + o2 + o3;
  }

  lemma {:induction false} ApplyWritesConcat(book: FeedBook, xs: seq<StockWrite>, ys: seq<StockWrite>)
    ensures ApplyWrites(book, xs + ys) == ApplyWrites(ApplyWrites(book, xs), ys)
  {
    if ys == [] {
      assert xs + ys == xs;
    } else {
      assert (xs + ys)[..|xs + ys| - 1] == xs + ys[..|ys| - 1];
      ApplyWritesConcat(book, xs, ys[..|ys| - 1]);
    }
  }

  /**
   * What the write for category `c` does to the name `n`, when the tables still agree with
   * the snapshot at `c`: a present type gets exactly the target (negative ones included) and
   * keeps its other fields; a missing type is created, holding the target, exactly when the
   * target is positive and a user is signed in; any other name and the ledger stay as they were.
   */
  lemma StepAt(book: FeedBook, types: FeedTypes, c: string, targetKg: int, signedIn: bool, n: string)
    requires c in book.types <==> c in types
    requires c in types ==> book.types[c] == types[c]
    ensures var after := ApplyWrites(book, OptionToSeq(RepairWrite(types, c, targetKg, signedIn)));
      && after.logs == book.logs
      && (n == c && c in types ==> c in after.types && after.types[c] == types[c].(currentStockKg := Some(targetKg)))
      && (n == c && c !in types ==> (c in after.types <==> targetKg > 0 && signedIn))
      && (n == c && c !in types && c in after.types ==>
            after.types[c].name == c && after.types[c].currentStockKg == Some(targetKg))
      && (n != c ==> (n in after.types <==> n in book.types))
      && (n != c && n in book.types ==> after.types[n] == book.types[n])
  {
    var o := RepairWrite(types, c, targetKg, signedIn);
    if o.Some? {
      assert [o.value][..0] == [];
    }
  }

  /** What one run does to the feed type filed under one name. */
  lemma RepairAt(types: FeedTypes, logs: seq<FeedLog>, signedIn: bool, nextRowId: nat, n: string)
    ensures var after := ApplyWrites(FeedBook(types, logs, nextRowId), PlanRepair(types, logs, signedIn));
      && after.logs == logs
      && (n in Categories && n in types ==>
            n in after.types && after.types[n] == types[n].(currentStockKg := Some(TargetKg(logs, n))))
      && (n in Categories && n !in types ==> (n in after.types <==> TargetKg(logs, n) > 0 && signedIn))
      && (n in Categories && n !in types && n in after.types ==>
            after.types[n].name == n && after.types[n].currentStockKg == Some(TargetKg(logs, n)))
      && (n !in Categories ==> (n in after.types <==> n in types))
      && (n !in Categories && n in types ==> after.types[n] == types[n])
  {
    var b0 := FeedBook(types, logs, nextRowId);
    var w1 := OptionToSeq(RepairWrite(types, "C1", TargetKg(logs, "C1"), signedIn));
    var w2 := OptionToSeq(RepairWrite(types, "C2", TargetKg(logs, "C2"), signedIn));
    var w3 := OptionToSeq(RepairWrite(types, "C3", TargetKg(logs, "C3"), signedIn));
    PlanShape(types, logs, signedIn);
    ApplyWritesConcat(b0, w1 + w2, w3);
    ApplyWritesConcat(b0, w1, w2);
    var b1 := ApplyWrites(b0, w1);
    var b2 := ApplyWrites(b1, w2);
    var t1, t2, t3 := TargetKg(logs, "C1"), TargetKg(logs, "C2"), TargetKg(logs, "C3");
    StepAt(b0, types, "C1", t1, signedIn, n);
    StepAt(b0, types, "C1", t1, signedIn, "C2");
    StepAt(b0, types, "C1", t1, signedIn, "C3");
    StepAt(b1, types, "C2", t2, signedIn, n);
    StepAt(b1, types, "C2", t2, signedIn, "C3");
    StepAt(b2, types, "C3", t3, signedIn, n);
  }

  /** What one run does to the feed types, category by category. */
  lemma RepairOutcome(types: FeedTypes, logs: seq<FeedLog>, signedIn: bool, nextRowId: nat)
    ensures var after := ApplyWrites(FeedBook(types, logs, nextRowId), PlanRepair(types, logs, signedIn));
      && after.logs == logs
      && (forall c :: c in Categories && c in types ==>
            c in after.types && after.types[c] == types[c].(currentStockKg := Some(TargetKg(logs, c))))
      && (forall c :: c in Categories && c !in types ==>
            (c in after.types <==> TargetKg(logs, c) > 0 && signedIn))
      && (forall c :: c in Categories && c !in types && c in after.types ==>
            after.types[c].name == c && after.types[c].currentStockKg == Some(TargetKg(logs, c)))
      && (forall n :: n !in Categories ==> (n in after.types <==> n in types))
      && (forall n :: n !in Categories && n in types ==> after.types[n] == types[n])
  {
    RepairAt(types, logs, signedIn, nextRowId, "C1");
    forall n {
      RepairAt(types, logs, signedIn, nextRowId, n);
    }
  }

  /**
   * Idempotence: with no new ledger entries, a second run finds every target met and makes
   * no write, whether or not the first run could create missing types.
   */
  lemma RepairIsIdempotent(types: FeedTypes, logs: seq<FeedLog>, signedIn: bool, nextRowId: nat)
    ensures var after := ApplyWrites(FeedBook(types, logs, nextRowId), PlanRepair(types, logs, signedIn));
      PlanRepair(after.types, logs, signedIn) == []
  {
    var after := ApplyWrites(FeedBook(types, logs, nextRowId), PlanRepair(types, logs, signedIn));
    RepairOutcome(types, logs, signedIn, nextRowId);
    PlanShape(after.types, logs, signedIn);
    assert forall c :: c in Categories ==> RepairWrite(after.types, c, TargetKg(logs, c), signedIn) == None;
    assert "C1" in Categories && "C2" in Categories && "C3" in Categories;
  }

  /** A signed-in run has nothing to write exactly when the tables are already in sync. */
  lemma InSyncIffNothingToRepair(types: FeedTypes, logs: seq<FeedLog>)
    ensures InSync(types, logs) <==> PlanRepair(types, logs, true) == []
  {
    PlanShape(types, logs, true);
    assert "C1" in Categories && "C2" in Categories && "C3" in Categories;
    if PlanRepair(types, logs, true) == [] {
      assert forall c :: c in Categories ==> RepairWrite(types, c, TargetKg(logs, c), true) == None;
    }
  }

  /** After a signed-in run the tables are in sync, so no category drifts. */
  lemma RepairSyncs(types: FeedTypes, logs: seq<FeedLog>, nextRowId: nat)
    ensures var after := ApplyWrites(FeedBook(types, logs, nextRowId), PlanRepair(types, logs, true));
      && InSync(after.types, logs)
      && forall c :: c in Categories && c in after.types ==> Drift(after, c) == 0
  {
    var after := ApplyWrites(FeedBook(types, logs, nextRowId), PlanRepair(types, logs, true));
    RepairIsIdempotent(types, logs, true, nextRowId);
    InSyncIffNothingToRepair(after.types, logs);
    RepairOutcome(types, logs, true, nextRowId);
  }

  /**
   * No clamping: 100 kg of C1 on record and a ledger holding only a 3-bag usage is
   * reconciled to -150 kg.
   */
  lemma NoClampingExample()
    ensures var types := map["C1" := FeedType("t1", "C1", Some(100), None)];
      var logs := [FeedLog("l1", None, None, Usage, Some(3), None, None, "2026-01-01", None)];
      var after := ApplyWrites(FeedBook(types, logs, 0), PlanRepair(types, logs, true));
      "C1" in after.types && after.types["C1"].currentStockKg == Some(-150)
  {
    var types := map["C1" := FeedType("t1", "C1", Some(100), None)];
    var logs := [FeedLog("l1", None, None, Usage, Some(3), None, None, "2026-01-01", None)];
    assert LedgerBags(logs, "C1") == -3 by {
      assert logs[1..] == [];
    }
    RepairOutcome(types, logs, true, 0);
  }
}
