/**
 * The feed server actions `logFeedUsage` and `restockFeed`: the identity check, reading the
 * three bag counts from the form, refusing a form whose counts are all zero, the arguments
 * handed to the stored procedure, and how its failure is reported.
 */
module FeedActions {
  import opened Wrappers
  import opened Farm
  import opened ServerAction
  import JsText

  /** The submitted form; a field the form does not carry is `None`. */
  datatype FeedForm = FeedForm(cropId: Option<string>, c1Bags: Option<string>, c2Bags: Option<string>, c3Bags: Option<string>)

  datatype BagCounts = BagCounts(c1: int, c2: int, c3: int)

  /** A call of one of the two stored procedures; the restock procedure gets no crop. */
  datatype RpcCall = RpcCall(procedure: string, cropId: Option<string>, bags: BagCounts, action: FeedAction, logDate: string)

  /** The procedure called, if any, and what the action returns. */
  datatype FeedActionOutcome = FeedActionOutcome(call: Option<RpcCall>, result: ActionResult)

  const UsageProcedure: string := "log_feed_usage_atomic"
  const RestockProcedure: string := "restock_feed_atomic"
  const NoUsageBagsMessage: string := "Please specify at least one bag"
  const NoRestockBagsMessage: string := "Please specify at least one bag for restocking"
  const UsageFailedPrefix: string := "Usage log failed: "
  const RestockFailedPrefix: string := "Restock failed: "

  /**
   * `parseInt(field) || 0`. A missing field reaches `parseInt` as the text "null"; NaN, like
   * every other falsy number, becomes 0.
   */
  function BagCount(field: Option<string>): (n: int)
    ensures field.None? ==> n == 0
    ensures field.Some? ==> n == JsText.ParseInt(field.value).GetOr(0)
  {
    NullIsNaN();
    JsText.ParseInt(field.GetOr("null")).GetOr(0)
  }

  lemma NullIsNaN()
    ensures JsText.ParseInt("null") == None
  {
    assert JsText.TrimStart("null") == "null";
  }

  /** The three counts, C1, C2 and C3. */
  function BagCountsOf(form: FeedForm): (b: BagCounts)
    ensures b.c1 == BagCount(form.c1Bags) && b.c2 == BagCount(form.c2Bags) && b.c3 == BagCount(form.c3Bags)
  {
    BagCounts(BagCount(form.c1Bags), BagCount(form.c2Bags), BagCount(form.c3Bags))
  }

  /** The server's only check on the counts. */
  predicate AllZero(b: BagCounts) {
    b.c1 == 0 && b.c2 == 0 && b.c3 == 0
  }

  /** `formData.get("crop_id") || null`: a missing or empty crop id is no crop. */
  function CropIdOf(field: Option<string>): (c: Option<string>)
    ensures c.Some? <==> field.Some? && field.value != ""
    ensures c.Some? ==> c.value == field.value
  {
    if field.Some? && field.value != "" then field else None
  }

  /** The pages a successful usage log revalidates: the crop's page as well when one is named. */
  function UsagePaths(cropId: Option<string>): (paths: seq<string>)
    ensures |paths| == if cropId.Some? then 3 else 2
    ensures paths[..2] == ["/feeds", "/dashboard"]
    ensures cropId.Some? ==> paths[2] == "/crops/" + cropId.value
  {
    ["/feeds", "/dashboard"] + (if cropId.Some? then ["/crops/" + cropId.value] else [])
  }

  const RestockPaths: seq<string> := ["/feeds", "/dashboard"]

  /** `logFeedUsage`, given the identity, the form, and the procedure's error if it fails. */
  function LogFeedUsage(user: Option<string>, form: FeedForm, rpcError: Option<string>, now: string): (o: FeedActionOutcome)
    ensures user.None? ==> o == FeedActionOutcome(None, Thrown(UnauthorizedMessage))
    ensures user.Some? && AllZero(BagCountsOf(form)) ==> o == FeedActionOutcome(None, Thrown(NoUsageBagsMessage))
    ensures user.Some? && !AllZero(BagCountsOf(form)) ==>
      && o.call == Some(RpcCall(UsageProcedure, CropIdOf(form.cropId), BagCountsOf(form), Usage, now))
      && o.result == (if rpcError.Some? then Thrown(UsageFailedPrefix + rpcError.value) else Revalidated(UsagePaths(CropIdOf(form.cropId))))
  {
    if user.None? then FeedActionOutcome(None, Thrown(UnauthorizedMessage))
    else
      var cropId := CropIdOf(form.cropId);
      var bags := BagCountsOf(form);
      if AllZero(bags) then FeedActionOutcome(None, Thrown(NoUsageBagsMessage))
      else
        var call := RpcCall(UsageProcedure, cropId, bags, Usage, now);
        match rpcError
        case Some(message) => FeedActionOutcome(Some(call), Thrown(UsageFailedPrefix + message))
        case None => FeedActionOutcome(Some(call), Revalidated(UsagePaths(cropId)))
  }

  /** `restockFeed`, given the identity, the form, and the procedure's error if it fails. */
  function RestockFeed(user: Option<string>, form: FeedForm, rpcError: Option<string>, now: string): (o: FeedActionOutcome)
    ensures user.None? ==> o == FeedActionOutcome(None, Thrown(UnauthorizedMessage))
    ensures user.Some? && AllZero(BagCountsOf(form)) ==> o == FeedActionOutcome(None, Thrown(NoRestockBagsMessage))
    ensures user.Some? && !AllZero(BagCountsOf(form)) ==>
      && o.call == Some(RpcCall(RestockProcedure, None, BagCountsOf(form), Restock, now))
      && o.result == (if rpcError.Some? then Thrown(RestockFailedPrefix + rpcError.value) else Revalidated(RestockPaths))
  {
    if user.None? then FeedActionOutcome(None, Thrown(UnauthorizedMessage))
    else
      var bags := BagCountsOf(form);
      if AllZero(bags) then FeedActionOutcome(None, Thrown(NoRestockBagsMessage))
      else
        var call := RpcCall(RestockProcedure, None, bags, Restock, now);
        match rpcError
        case Some(message) => FeedActionOutcome(Some(call), Thrown(RestockFailedPrefix + message))
        case None => FeedActionOutcome(Some(call), Revalidated(RestockPaths))
  }

  /** A count written as a decimal number is read back exactly, after any leading white space. */
  lemma BagCountReadsDecimal(ws: string, n: int)
    requires forall i :: 0 <= i < |ws| ==> JsText.IsSpace(ws[i])
    ensures BagCount(Some(ws + JsText.IntToDecimal(n))) == n
  {
    JsText.ParseIntSkipsLeadingSpace(ws, JsText.IntToDecimal(n));
    JsText.ParseIntOfDecimal(n, []);
    assert JsText.IntToDecimal(n) + [] == JsText.IntToDecimal(n);
  }

  /** A form whose three bag fields hold decimal numbers, each after any white space, reads as those numbers. */
  lemma DecimalFieldsGiveCounts(cropId: Option<string>, ws1: string, n1: int, ws2: string, n2: int, ws3: string, n3: int)
    requires forall i :: 0 <= i < |ws1| ==> JsText.IsSpace(ws1[i])
    requires forall i :: 0 <= i < |ws2| ==> JsText.IsSpace(ws2[i])
    requires forall i :: 0 <= i < |ws3| ==> JsText.IsSpace(ws3[i])
    ensures BagCountsOf(FeedForm(cropId, Some(ws1 + JsText.IntToDecimal(n1)), Some(ws2 + JsText.IntToDecimal(n2)),
                                 Some(ws3 + JsText.IntToDecimal(n3)))) == BagCounts(n1, n2, n3)
  {
    BagCountReadsDecimal(ws1, n1);
    BagCountReadsDecimal(ws2, n2);
    BagCountReadsDecimal(ws3, n3);
  }

  /** Text that holds no digit where a number would start counts as 0 bags. */
  lemma BagCountOfNonNumeric(s: string)
    requires JsText.TrimStart(s) == [] || !('0' <= JsText.TrimStart(s)[0] <= '9' || JsText.TrimStart(s)[0] == '-' || JsText.TrimStart(s)[0] == '+')
    ensures BagCount(Some(s)) == 0
  {
    var t := JsText.TrimStart(s);
    if t != [] {
      assert !JsText.HasHexPrefix(t);
      assert JsText.DigitValue(t[0]) >= 10;
      assert JsText.DigitRun(t, 10) == 0;
      assert JsText.ParseUnsigned(t) == None;
    }
    assert JsText.ParseInt(s) == JsText.ParseSigned(t);
  }

  /**
   * A procedure is called exactly when someone is signed in and some count is non-zero, and
   * the action succeeds exactly when, in addition, the procedure reports no error.
   */
  lemma ProcedureCalledIffSignedInAndSomeBags(user: Option<string>, form: FeedForm, rpcError: Option<string>, now: string)
    ensures LogFeedUsage(user, form, rpcError, now).call.Some? <==> user.Some? && !AllZero(BagCountsOf(form))
    ensures RestockFeed(user, form, rpcError, now).call.Some? <==> user.Some? && !AllZero(BagCountsOf(form))
    ensures LogFeedUsage(user, form, rpcError, now).result.Revalidated? <==> user.Some? && !AllZero(BagCountsOf(form)) && rpcError.None?
    ensures RestockFeed(user, form, rpcError, now).result.Revalidated? <==> user.Some? && !AllZero(BagCountsOf(form)) && rpcError.None?
  {
  }

  /** Negative counts are not refused by the server: a usage of -2 C1 bags reaches the procedure. */
  lemma NegativeCountPasses(now: string)
    ensures LogFeedUsage(Some("u"), FeedForm(None, Some("-2"), None, None), None, now).call
            == Some(RpcCall(UsageProcedure, None, BagCounts(-2, 0, 0), Usage, now))
  {
    BagCountReadsDecimal([], -2);
    assert JsText.IntToDecimal(-2) == "-2";
    assert [] + "-2" == "-2";
  }
}
