/**
 * The feed ledger's arithmetic: which bags a log entry counts for each category, the signed
 * sum over the ledger (restocks add, every other action subtracts), and the drift between a
 * feed type's cached stock and the stock the ledger implies.
 */
module Ledger {
  import opened Wrappers
  import opened Farm

  /** The three categories the ledger has columns for, in the order the code visits them. */
  const Categories: seq<string> := ["C1", "C2", "C3"]

  /** The three names differ, at their second character. */
  lemma CategoriesAreDistinct()
    ensures forall i, j :: 0 <= i < j < |Categories| ==> Categories[i] != Categories[j]
  {
    assert Categories[0][1] == '1' && Categories[1][1] == '2' && Categories[2][1] == '3';
  }

  /** The feed types of one owner, keyed by their (unique) name. */
  type FeedTypes = map<string, FeedType>

  /** Every row is filed under its own name. */
  ghost predicate WellKeyed(types: FeedTypes) {
    forall n :: n in types ==> types[n].name == n
  }

  /** The feed tables and the id counter the store uses for new rows. */
  datatype FeedBook = FeedBook(types: FeedTypes, logs: seq<FeedLog>, nextRowId: nat)

  /** `log.cN_bags || 0`: the bags an entry names for a category; an absent count is zero. */
  function LogBags(log: FeedLog, name: string): int {
    if name == "C1" then log.c1Bags.GetOr(0)
    else if name == "C2" then log.c2Bags.GetOr(0)
    else if name == "C3" then log.c3Bags.GetOr(0)
    else 0
  }

  /** `log.action === 'Restock' ? 1 : -1`. */
  function Multiplier(a: FeedAction): (k: int)
    ensures k == 1 || k == -1
    ensures k == 1 <==> a == Restock
  {
    if a == Restock then 1 else -1
  }

  /** What one entry contributes to a category's bag total. */
  function SignedBags(log: FeedLog, name: string): int {
    LogBags(log, name) * Multiplier(log.action)
  }

  /** The signed bag total of a category over the whole ledger, first entry first. */
  function LedgerBags(logs: seq<FeedLog>, name: string): int {
    if logs == [] then 0 else SignedBags(logs[0], name) + LedgerBags(logs[1..], name)
  }

  /** Appending an entry adds exactly its signed bags to the total. */
  lemma {:induction false} LedgerBagsAppend(logs: seq<FeedLog>, log: FeedLog, name: string)
    ensures LedgerBags(logs + [log], name) == LedgerBags(logs, name) + SignedBags(log, name)
  {
    if logs != [] {
      assert (logs + [log])[1..] == logs[1..] + [log];
      LedgerBagsAppend(logs[1..], log, name);
    } else {
      assert [] + [log] == [log];
    }
  }

  /** Entries that name no bags for a category leave its total where it was. */
  lemma {:induction false} LedgerBagsOfSilentLogs(logs: seq<FeedLog>, name: string)
    requires forall i :: 0 <= i < |logs| ==> LogBags(logs[i], name) == 0
    ensures LedgerBags(logs, name) == 0
  {
    if logs != [] {
      LedgerBagsOfSilentLogs(logs[1..], name);
    }
  }

  /** The stock in kilograms that the ledger implies for a category. */
  function TargetKg(logs: seq<FeedLog>, name: string): int {
    LedgerBags(logs, name) * BagWeightKg
  }

  /** `current_stock_kg || 0` of the category's feed type; no feed type counts as zero. */
  function CachedKg(types: FeedTypes, name: string): int {
    if name in types then types[name].currentStockKg.GetOr(0) else 0
  }

  /** How far the cached stock of a category is from what the ledger implies. */
  function Drift(book: FeedBook, name: string): int {
    CachedKg(book.types, name) - TargetKg(book.logs, name)
  }

  /**
   * The state the reconciler leaves behind: a present feed type holds exactly the ledger's
   * stock, and a missing one is only missing because the ledger implies no positive stock.
   */
  ghost predicate InSync(types: FeedTypes, logs: seq<FeedLog>) {
    forall c :: c in Categories ==>
      (c in types ==> types[c].currentStockKg == Some(TargetKg(logs, c))) &&
      (c !in types ==> TargetKg(logs, c) <= 0)
  }

  /** In sync, and no category is missing while its ledger total is negative. */
  ghost predicate ExactlyInSync(types: FeedTypes, logs: seq<FeedLog>) {
    forall c :: c in Categories ==>
      (c in types ==> types[c].currentStockKg == Some(TargetKg(logs, c))) &&
      (c !in types ==> TargetKg(logs, c) == 0)
  }
}
