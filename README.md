# Farm app core, modelled in Dafny

The farm app keeps records for a broiler farm. A farmer raises a *crop*, meaning a batch of
chicks. Each crop draws on three feed categories, `C1`, `C2` and `C3`, counted in 50 kg bags.
Its vaccinations follow a schedule.

This project models the program's core:

- **The feed ledger.** Every feed movement is an append-only *feed log* row. A Restock row adds
  bags and any other row removes them. Each feed type also caches a stock figure in kg,
  `current_stock_kg`. Stock is kept in sync with the ledger by:
  - the feed server actions, which hand the counts to a stored procedure;
  - the new-crop intake, which stocks a crop's starting feed;
  - the repair tool, which recomputes every category's stock from the ledger.
- **The actions that change the store:**
  - logging feed usage and restocking;
  - creating a crop with its chick sources and starting feed;
  - scheduling, administering and deleting vaccinations;
  - the repair tool.
- **The figures the pages derive from fetched rows:**
  - chicks present;
  - active crop and crop number;
  - total and low feed stock;
  - bag cards;
  - next and missed vaccinations;
  - status badges;
  - empty states;
  - the sample vaccination list.
- **The route guard.**
- **The sidebar's initials of a user name.**

The files:

- `farm.dfy` holds the record types and the three status/action enumerations. The enumerations
  have parse/print round trips.
- `ledger.dfy` holds the ledger arithmetic. It defines the signed bag total of a category over
  the logs, its kg target (50 kg per bag), the cached figure, and *drift*, which is cached kg
  minus ledger kg.
- `db.dfy` holds one `Store` class standing for the backing database. It has one field per table
  and a counter for the row ids the database hands out.
- `fix_feed_data.dfy` is the repair tool.
  - The methods are proved against a specification function: `PlanRepair` gives the writes,
    and `ApplyWrites` gives their effect.
  - Lemmas prove that after a repair every present category holds its ledger target.
  - Lemmas also prove that a second repair writes nothing, and that "nothing to repair" is
    exactly "in sync".
- `new_crop.dfy` is the new-crop form's submit handler, proved against `IntakeFeeds`. Lemmas
  prove three things:
  - intake never changes any category's drift;
  - it appends one Restock log per positive count;
  - a ledger that was exactly in sync stays so, leaving the repair tool nothing to do.
- `feed_actions.dfy` is the two feed server actions, with JavaScript's `parseInt(...) || 0`
  reading of the bag fields. `js_text.dfy` holds that text parsing and the trimming.
- `vaccination_actions.dfy` is the three vaccination server actions.
- The page figures are split by page:
  - `crops_page.dfy`, `dashboard.dfy`, `feeds_page.dfy`, `vaccinations_page.dfy`;
  - `middleware.dfy` for the route guard;
  - `sidebar.dfy` for the initials.
- The dashboard uses the crops page's `WithPresentChicks` for its own identical mapping
  (app/dashboard/page.tsx:79-85).
- `wrappers.dfy` holds `Option` and `Result`. `server_action.dfy` holds the outcome of a server
  action: it either revalidates paths or throws a message.

Four kinds of outside input become parameters:

- database failures, such as a fetch error, an insert error or a procedure error;
- the signed-in user;
- the current time (`now`);
- for intake, whether the chick-source insert fails.

A database-generated id is `RowId(n)`, with `n` taken from the store's counter.

## Model

| member | source | states |
|---|---|---|
| Farm.ParseCropStatus | types/farm.ts:1 | exactly "Active", "Completed" and "Archived" are crop statuses, and each reads back to its own name |
| Farm.CropStatusRoundTrip | types/farm.ts:1 | printing a crop status and reading it back gives the same status |
| Farm.ParseVaccinationStatus | types/farm.ts:2 | exactly "Pending", "Administered" and "Missed" are vaccination statuses, each reading back to its name |
| Farm.VaccinationStatusRoundTrip | types/farm.ts:2 | printing a vaccination status and reading it back gives the same status |
| Farm.ParseFeedAction | types/farm.ts:40 | exactly "Restock" and "Usage" are feed actions, each reading back to its name |
| Ledger.CategoriesAreDistinct | app/debug/fix-feed-data.tsx:26 | the three feed categories C1, C2, C3 are pairwise distinct |
| Ledger.Multiplier | app/debug/fix-feed-data.tsx:28 | a log counts +1 exactly when its action is Restock and -1 otherwise |
| Ledger.LedgerBags | app/debug/fix-feed-data.tsx:27-32 | definition: the sum over all logs of a category's `cN_bags` (absent as 0) times the log's multiplier; LedgerBagsAppend and LedgerBagsOfSilentLogs characterise it |
| Ledger.TargetKg | app/debug/fix-feed-data.tsx:43 | definition: the ledger bag total times 50 kg, the stock the repair writes; RepairOutcome shows every present category ends holding it |
| Ledger.Drift | app/debug/fix-feed-data.tsx:47 | definition: the cached `current_stock_kg` (absent as 0) minus the ledger's kg, the gap the repair closes; IntakePreservesDrift and RepairSyncs are stated about it |
| Ledger.InSync | app/debug/fix-feed-data.tsx:46-54 | definition: every present category holds exactly its ledger kg, and every missing one has a target of at most 0, which are the two cases the repair leaves alone; InSyncIffNothingToRepair proves it is exactly the empty plan |
| Ledger.ExactlyInSync | app/debug/fix-feed-data.tsx:46-54 | definition: in sync, with every missing category at a target of exactly 0; IntakeStepKeepsExactSync and IntakeLeavesNothingToRepair are stated about it |
| Ledger.LedgerBagsAppend | app/debug/fix-feed-data.tsx:27-32 | the ledger total of a category over logs plus one log is the old total plus that log's signed bags |
| Ledger.LedgerBagsOfSilentLogs | app/debug/fix-feed-data.tsx:29-31 | logs with no bags of a category (absent counts read as 0) leave its ledger total at 0 |
| FixFeedData.ExpectedBags | app/debug/fix-feed-data.tsx:26-32 | the loop yields a map keyed by exactly C1, C2, C3, each holding the signed ledger bag total of that category |
| FixFeedData.RepairWrite | app/debug/fix-feed-data.tsx:44-66 | definition: a present type whose stock differs from the target gets an overwrite; a missing one with a positive target gets a creation when signed in; otherwise no write. StepAt and RepairOutcome characterise its effect |
| FixFeedData.PlanRepair | app/debug/fix-feed-data.tsx:42-67 | definition: RepairWrite for C1, C2, C3 in turn, all judged against the fetched types; PlanShape, RepairOutcome, RepairIsIdempotent and InSyncIffNothingToRepair characterise it |
| FixFeedData.ApplyWrites | app/debug/fix-feed-data.tsx:46-65 | definition: the writes' effect on the feed tables, first write first; ApplyWritesConcat and StepAt characterise it |
| FixFeedData.ApplyWritesConcat | app/debug/fix-feed-data.tsx:42-67 | applying two runs of writes one after the other equals applying their concatenation |
| FixFeedData.FixCategory | app/debug/fix-feed-data.tsx:43-66 | one category: a present type whose cached kg differs from bags*50 is overwritten with it; a missing type is created only if the target is positive and a user is signed in; the write issued is the specification's |
| FixFeedData.RepairCategories | app/debug/fix-feed-data.tsx:42-67 | the loop over C1, C2, C3 issues exactly PlanRepair's writes, and the new feed types are those writes applied to the old ones |
| FixFeedData.RunFix | app/debug/fix-feed-data.tsx:11-75 | a log fetch error or type fetch error ends with "Error: " + message and no change; otherwise the run succeeds having issued exactly PlanRepair's writes, and the feed book is those writes applied to the old one |
| FixFeedData.PlanShape | app/debug/fix-feed-data.tsx:42-67 | the plan is C1's write, then C2's, then C3's, each present only when that category needs one |
| FixFeedData.StepAt | app/debug/fix-feed-data.tsx:46-66 | one category's write changes only that category's type (overwrite or create with the target kg) and never the logs |
| FixFeedData.RepairOutcome | app/debug/fix-feed-data.tsx:42-67 | after repair each present category holds exactly its ledger target, a missing one gets a new type only when the target is positive and a user exists, other types and the logs are untouched |
| FixFeedData.RepairIsIdempotent | app/debug/fix-feed-data.tsx:42-67 | running the repair a second time on its own result plans no write |
| FixFeedData.InSyncIffNothingToRepair | app/debug/fix-feed-data.tsx:46-54 | a signed-in repair plans no write if and only if every present category matches its target and every missing category has a target of at most 0 |
| FixFeedData.RepairSyncs | app/debug/fix-feed-data.tsx:42-69 | after a signed-in repair the stock is in sync with the ledger and every present category has drift 0 |
| FixFeedData.NoClampingExample | app/debug/fix-feed-data.tsx:43-52 | a ledger with more usage than restock sets the cached stock negative (100 kg in stock, 3 bags used: -150 kg) |
| NewCrop.NewCropRow | app/crops/new_crop/page.tsx:59-69 | the inserted crop carries the form's name and chick total, status Active and no harvest date |
| NewCrop.ChickSourceRows | app/crops/new_crop/page.tsx:80-94 | one ANIRITA row and one KENCHICK row, each present exactly when its count is positive, in that order, all for the new crop |
| NewCrop.RestockLog | app/crops/new_crop/page.tsx:143-153 | a Restock log for the type and crop whose count lands in its category's column (C1's column for any other name) and 0 in the others |
| NewCrop.IntakeStep | app/crops/new_crop/page.tsx:111-155 | a count of at most 0 changes nothing; otherwise the type gains count*50 kg (created with it if missing) and one Restock log is appended |
| NewCrop.IntakeFeeds | app/crops/new_crop/page.tsx:110-157 | definition: IntakeStep over the feed list, first to last; IntakePreservesDrift, IntakeAppendsOneLogPerPositiveCount, IntakeLeavesOtherTypes and IntakeLeavesNothingToRepair characterise it |
| NewCrop.IntakeStepPreservesDrift | app/crops/new_crop/page.tsx:123-155 | one intake step leaves every category's drift (cached minus ledger kg) unchanged |
| NewCrop.IntakePreservesDrift | app/crops/new_crop/page.tsx:110-157 | intake of any feeds of the three categories leaves every category's drift unchanged |
| NewCrop.IntakeAppendsOneLogPerPositiveCount | app/crops/new_crop/page.tsx:110-157 | intake keeps the old logs as a prefix and appends exactly one log per positive count |
| NewCrop.IntakeLeavesOtherTypes | app/crops/new_crop/page.tsx:113-141 | a feed type whose name is not among the intake feeds is neither created nor changed |
| NewCrop.IntakeKeepsAgreement | app/crops/new_crop/page.tsx:104-157 | if cache and ledger agree for every category before the form's intake, they agree after it |
| NewCrop.IntakeStepKeepsExactSync | app/crops/new_crop/page.tsx:111-155 | one intake step keeps the stock exactly in sync with the ledger |
| NewCrop.IntakeLeavesNothingToRepair | app/crops/new_crop/page.tsx:110-157 | intake on an exactly in-sync store keeps it in sync, so the repair tool then plans no write |
| NewCrop.RestockCategory | app/crops/new_crop/page.tsx:111-155 | one feed of the loop: the store's feed book becomes IntakeStep of the old one |
| NewCrop.RestockAll | app/crops/new_crop/page.tsx:110-157 | the loop over the feeds: the feed book becomes IntakeFeeds of the old one |
| NewCrop.HandleSubmit | app/crops/new_crop/page.tsx:41-161 | signed out: the login message and no change; crop insert error: its message and no change; otherwise the crop is added, the chick sources too unless their insert fails, and the feed book is the form's intake |
| FeedActions.BagCount | app/feeds/actions.ts:15-17 | a missing field counts 0, any other is parseInt of its text, with NaN read as 0 |
| FeedActions.NullIsNaN | app/feeds/actions.ts:15-17 | a missing field cast to text is "null", which parseInt reads as NaN |
| FeedActions.CropIdOf | app/feeds/actions.ts:12 | a missing or empty crop field gives no crop id; any other gives its text |
| FeedActions.UsagePaths | app/feeds/actions.ts:42-44 | /feeds and /dashboard are revalidated, then the crop's page exactly when a crop id is given |
| FeedActions.LogFeedUsage | app/feeds/actions.ts:6-45 | signed out: "Unauthorized" and no call; all counts 0: the no-bags message and no call; otherwise the usage procedure is called with the counts, action Usage and now; an error throws "Usage log failed: " + message, success revalidates |
| FeedActions.RestockFeed | app/feeds/actions.ts:47-89 | the same for restocking: no crop id, action Restock, "Restock failed: " on error, /feeds and /dashboard revalidated |
| FeedActions.BagCountReadsDecimal | app/feeds/actions.ts:15-17 | a field holding any integer in decimal, after leading white space, counts as that integer |
| FeedActions.DecimalFieldsGiveCounts | app/feeds/actions.ts:14-18 | a form whose c1_bags, c2_bags and c3_bags fields hold decimal integers, each after any white space, gives exactly those three counts, in that order |
| FeedActions.BagCountOfNonNumeric | app/feeds/actions.ts:15-17 | a field that, after white space, starts with neither a digit nor a sign counts 0 |
| FeedActions.ProcedureCalledIffSignedInAndSomeBags | app/feeds/actions.ts:20-32 | a procedure is called if and only if a user is signed in and some count is non-zero, and then it revalidates if and only if the call succeeded |
| FeedActions.NegativeCountPasses | app/feeds/actions.ts:20-32 | a negative count is not rejected: "-2" usage bags are passed to the procedure as -2 |
| VaccinationActions.PendingRecord | app/vaccinations/actions.ts:17-24 | a scheduled vaccination carries the given crop, vaccine and date, status Pending and no administration time |
| VaccinationActions.MarkAdministered | app/vaccinations/actions.ts:35-41 | every row with the id becomes Administered at now; every other row is unchanged, positions kept |
| VaccinationActions.WithoutId | app/vaccinations/actions.ts:52-55 | a row remains exactly when its id differs from the deleted id |
| VaccinationActions.ScheduleVaccination | app/vaccinations/actions.ts:7-30 | signed out: "Unauthorized" and no change; store error: its message and no change; otherwise a Pending row is appended and both pages are revalidated |
| VaccinationActions.AdministerVaccination | app/vaccinations/actions.ts:32-47 | store error: its message, no change; otherwise the rows become MarkAdministered of the old rows and both pages revalidate |
| VaccinationActions.DeleteVaccination | app/vaccinations/actions.ts:49-61 | store error: its message, no change; otherwise the rows become WithoutId of the old rows and both pages revalidate |
| VaccinationActions.AdministerSettlesRecord | app/vaccinations/actions.ts:35-41 | after administering, every row with that id is Administered with the given time |
| VaccinationActions.AdministerTwice | app/vaccinations/actions.ts:35-41 | administering twice equals administering once at the later time |
| VaccinationActions.AdministerHasNoStatusGuard | app/vaccinations/actions.ts:35-41 | a Missed vaccination can be administered; the update has no status condition |
| VaccinationActions.DeleteIdempotent | app/vaccinations/actions.ts:52-55 | deleting twice equals deleting once, and deleting an absent id changes nothing |
| VaccinationActions.DeleteUndoesSchedule | app/vaccinations/actions.ts:49-61 | deleting the id of a freshly appended row with a new id restores the previous rows |
| CropsPage.TotalMortalityAppend | app/crops/page.tsx:61 | the mortality total of two runs of daily logs is the sum of their totals |
| CropsPage.TotalMortalityNonNegative | app/crops/page.tsx:61 | daily logs with no negative mortality give a non-negative total |
| CropsPage.TotalMortality | app/crops/page.tsx:61 | definition: the reduce of `log.mortality` (null as 0) over the daily logs; TotalMortalityAppend and TotalMortalityNonNegative characterise it |
| CropsPage.PresentChicks | app/crops/page.tsx:60-65 | present chicks are total chicks minus the summed mortality (missing mortality counts 0), and total chicks when there are no logs |
| CropsPage.OneMoreDay | app/crops/page.tsx:60-65 | one more daily log lowers present chicks by exactly its mortality |
| CropsPage.WithPresentChicks | app/crops/page.tsx:60-66 | every fetched crop is kept in order with its present chicks; no rows give no list |
| CropsPage.HarvestMetric | app/crops/page.tsx:32-38 | the harvest date is shown exactly for a completed crop with one; otherwise the expected date when set; otherwise nothing |
| CropsPage.ActiveCropShowsExpectedDate | app/crops/page.tsx:32-38 | an active crop with an expected harvest date shows that date |
| CropsPage.StatusLabel | app/crops/page.tsx:26 | the badge text is the status, or "Active" when the status is missing or empty; never empty |
| CropsPage.StatusBadge | app/crops/page.tsx:25 | the green badge exactly for "Active", the blue one exactly for "Completed", neutral otherwise |
| CropsPage.LabelAndBadgeAgree | app/crops/page.tsx:25-26 | for every real status the label is its name and the badge is its colour |
| CropsPage.MissingStatusLabelAndBadgeDisagree | app/crops/page.tsx:25-26 | a crop without status reads "Active" but wears the neutral badge |
| CropsPage.EmptyStateIffNoCrops | app/crops/page.tsx:89 | the empty state shows if and only if the fetch gave no rows or an empty list |
| CropsPage.ShowsEmptyState | app/crops/page.tsx:89 | definition: no rows fetched or an empty list; EmptyStateIffNoCrops ties it to the fetch |
| Dashboard.FirstActiveIndex | app/dashboard/page.tsx:86 | the index found is the first Active crop's; none found means no crop is Active |
| Dashboard.ActiveCrop | app/dashboard/page.tsx:86 | an active crop is shown exactly when some fetched crop is Active, and it is the first Active crop of the list: no crop before it is Active |
| Dashboard.ActiveOnly | app/dashboard/page.tsx:87-88 | the filter keeps exactly the Active crops |
| Dashboard.ActiveOnlyAppend | app/dashboard/page.tsx:88 | the Active filter splits over concatenation, so it keeps the crops' order and multiplicity |
| Dashboard.TotalPresentChicks | app/dashboard/page.tsx:87-89 | definition: present chicks summed over the Active crops, 0 without data; TotalPresentChicksSplits and NoActiveCropNoChicks characterise it |
| Dashboard.TotalPresentChicksSplits | app/dashboard/page.tsx:87-89 | the present-chicks total of a concatenation is the sum of the parts' totals |
| Dashboard.NoActiveCropNoChicks | app/dashboard/page.tsx:87-89 | with no Active crop the present-chicks total is 0 |
| Dashboard.ActiveCropNumber | app/dashboard/page.tsx:90 | the crop number is 0 exactly when there is no active crop and never exceeds the crop count |
| Dashboard.ActiveCropNumberCountsFromOldest | app/dashboard/page.tsx:90 | one more older crop at the end of the newest-first list raises the active crop's number by one |
| Dashboard.NewerInactiveCropKeepsNumber | app/dashboard/page.tsx:90 | a newer crop that is not Active leaves the crop number unchanged |
| Dashboard.TotalFeedStock | app/dashboard/page.tsx:104 | definition: the sum of `Number(current_stock_kg)` (missing as 0) over the fetched types, 0 without data; TotalFeedStockCoversEachType and SumStockNonNegative characterise it |
| Dashboard.IsLowOnDashboard | app/dashboard/page.tsx:105 | definition: the real-valued stock divided by 50 is below 5; DashboardLowIffBelow250 and CardAndDashboardDifferOnlyAt250 characterise it |
| Dashboard.TotalFeedStockCoversEachType | app/dashboard/page.tsx:104 | with non-negative stocks the total feed stock is at least each type's stock |
| Dashboard.SumStockNonNegative | app/dashboard/page.tsx:104 | with non-negative stocks the total is non-negative |
| Dashboard.DashboardLowIffBelow250 | app/dashboard/page.tsx:105 | a type is a dashboard low-stock alert if and only if it holds under 250 kg (under 5 bags) |
| Dashboard.LowStockAlerts | app/dashboard/page.tsx:105 | the alerts are exactly the fetched types that are low; none fetched gives none |
| Dashboard.LowOnly | app/dashboard/page.tsx:105 | the filter keeps exactly the low types and is never longer than its input; LowOnlyAppend adds order and multiplicity |
| Dashboard.LowOnlyAppend | app/dashboard/page.tsx:105 | the low-stock filter splits over concatenation, so it keeps the fetched order and every repeated row |
| Dashboard.NextVaccination | app/dashboard/page.tsx:115 | the next vaccination is the first Pending row of the fetched rows (no row before it is Pending); there is none exactly when nothing was fetched or no row is Pending |
| Dashboard.FirstPending | app/dashboard/page.tsx:115 | the row found is Pending and no row before it is; none is found exactly when no row is Pending |
| Dashboard.NextIsFirstOfPending | app/dashboard/page.tsx:115 | the next vaccination is the first row of the Pending selection in date order |
| Dashboard.MissedVaccinations | app/dashboard/page.tsx:116 | the missed list holds exactly the Missed rows; no rows give none |
| FeedsPage.BagsLeft | app/feeds/page.tsx:6 | bags left times 50 is the stock in kg (missing stock reads 0) |
| FeedsPage.IsLowOnCard | app/feeds/page.tsx:7 | definition: five bags or fewer left; CardLowIffAtMost250 and CardAndDashboardDifferOnlyAt250 characterise it |
| FeedsPage.CardLowIffAtMost250 | app/feeds/page.tsx:7 | a card is marked low if and only if the type holds at most 250 kg (5 bags) |
| FeedsPage.CardAndDashboardDifferOnlyAt250 | app/feeds/page.tsx:7 | every dashboard alert is a low card, and the two differ exactly at 250 kg |
| FeedsPage.BagsIn | app/feeds/page.tsx:27 | the card shows the last restock's bags whenever they are set (a stored 0 shows 0), and 0 when missing |
| FeedsPage.LogMarker | app/feeds/page.tsx:39 | the green marker exactly for Restock rows |
| FeedsPage.FindTypeById | app/feeds/page.tsx:34 | the type found is the first whose id is the log's; none found means no id matches |
| FeedsPage.FeedTypeName | app/feeds/page.tsx:34-43 | the name shown is never empty; it is "Unknown" for a log without a type id or whose id matches no type, and otherwise the first matching type's name, or "Unknown" when that name is empty |
| FeedsPage.RowShowsItsTypeName | app/feeds/page.tsx:34-43 | with unique ids a log row shows the non-empty name of its own type |
| FeedsPage.PlaceholderIffNoTypes | app/feeds/page.tsx:56-78 | the placeholder shows if and only if the fetch gave no rows or an empty list |
| FeedsPage.ShowsPlaceholder | app/feeds/page.tsx:74 | definition: no feed types to show, a failed fetch counting as none; PlaceholderIffNoTypes ties it to the fetch |
| VaccinationsPage.Shown | app/vaccinations/page.tsx:36 | the fetched rows are shown, or the sample list when the fetch gave none |
| VaccinationsPage.WithStatus | app/vaccinations/page.tsx:59 | the status filter keeps exactly the rows of that status |
| VaccinationsPage.WithStatusAppend | app/vaccinations/page.tsx:59-79 | the status filter splits over concatenation, so it keeps the rows' order and multiplicity, as the counts and the next vaccination need |
| VaccinationsPage.StatusCountsSumToTotal | app/vaccinations/page.tsx:59-79 | the Administered, Pending and Missed counts add up to the number of rows |
| VaccinationsPage.CountStatus | app/vaccinations/page.tsx:59-79 | definition: the length of the status filter; StatusCountsSumToTotal, WithStatusAppend and MockStatusCounts characterise it |
| VaccinationsPage.VaccineNamesAppend | app/vaccinations/page.tsx:89 | one more record adds exactly its vaccine name to the set of names, whether or not it was already there |
| VaccinationsPage.DistinctVaccineCount | app/vaccinations/page.tsx:89 | the Types figure is 0 exactly when there are no records; DistinctNamesAtMostTotal bounds it by the record count and MockVaccineCount gives 5 for the sample |
| VaccinationsPage.DistinctNamesAtMostTotal | app/vaccinations/page.tsx:89 | there are never more vaccine types than rows |
| VaccinationsPage.MockStatusCounts | app/vaccinations/page.tsx:21-27 | the sample list has 2 administered, 2 pending and 1 missed |
| VaccinationsPage.MockVaccineCount | app/vaccinations/page.tsx:21-27 | the sample list has 5 distinct vaccine types |
| VaccinationsPage.BatchLabel | app/vaccinations/page.tsx:7 | the batch cell is "Crop: " followed by the first (up to) 8 characters of the crop id |
| VaccinationsPage.StatusColor | app/vaccinations/page.tsx:11-13 | green exactly for Administered, blue exactly for Pending, red exactly for Missed |
| VaccinationsPage.EmptyStateOnlyForEmptyFetch | app/vaccinations/page.tsx:107 | the empty state shows if and only if the fetch gave an empty list (a failed fetch shows the sample) |
| VaccinationsPage.ShowsEmptyState | app/vaccinations/page.tsx:107 | definition: the shown list is empty; EmptyStateOnlyForEmptyFetch proves that happens only for an empty fetch |
| Middleware.Route | app/middleware.ts:41-54 | signed-in users on /, /login or /register go to /dashboard; signed-out users off the public pages go to /login; every other request passes, each case if and only if |
| Middleware.IsEntryPage | app/middleware.ts:41-45 | definition: `/`, or a path starting with `/login` or `/register`; Route and NoRedirectLoop are stated with it |
| Middleware.IsPublic | app/middleware.ts:50 | definition: an entry page or a path starting with `/auth`; Route, PublicAndProtectedPagesPass and AuthPagesPassForEveryone are stated with it |
| Middleware.NoRedirectLoop | app/middleware.ts:41-52 | following a redirect once always reaches a page that passes |
| Middleware.PublicAndProtectedPagesPass | app/middleware.ts:41-52 | a signed-out user passes on every public page, and a signed-in user on every non-public page |
| Middleware.AuthPagesPassForEveryone | app/middleware.ts:50 | every /auth path passes whether or not a user is signed in |
| JsText.TrimStart | app/components/SideBar.tsx:42 | the result is the suffix left after dropping the leading white space, and starts with a non-space |
| JsText.TrimEnd | app/components/SideBar.tsx:42 | the result is the prefix left after dropping the trailing white space, and ends with a non-space |
| JsText.Trim | app/components/SideBar.tsx:42 | the result is a slice of the input that is empty or starts and ends with non-space |
| JsText.TrimEmptyIffAllSpace | app/components/SideBar.tsx:42 | trimming gives "" if and only if every character is white space |
| JsText.TrimSkipsPadding | app/components/SideBar.tsx:42 | trimming a non-space-ended text padded with white space gives the text back |
| JsText.UpperChar | app/components/SideBar.tsx:44 | lower-case ASCII letters move to upper case, every other character is kept |
| JsText.DigitRun | app/feeds/actions.ts:15-17 | the digit run is the longest prefix of digits valid in the radix |
| JsText.NatToDecimal | app/feeds/actions.ts:15-17 | a decimal rendering is non-empty, all digits, with no leading zero |
| JsText.ParseUnsigned | app/feeds/actions.ts:15-17 | definition: the longest digit run (base 16 after `0x`), NaN when empty; ParseUnsignedOfDecimal characterises it |
| JsText.ParseUnsignedOfDecimal | app/feeds/actions.ts:15-17 | the unsigned part reads any natural number's decimal text back, whatever non-digit text follows (and no `x` after a lone 0) |
| JsText.ParseSigned | app/feeds/actions.ts:15-17 | definition: an optional sign before the unsigned part; ParseSignedOfNegative and ParseSignedOfNonNegative characterise it |
| JsText.ParseSignedOfNonNegative | app/feeds/actions.ts:15-17 | an unsigned decimal reads as itself, whatever non-digit text follows |
| JsText.ParseInt | app/feeds/actions.ts:15-17 | definition: `parseInt` with no radix, skipping leading white space; ParseIntOfDecimal, ParseIntSkipsLeadingSpace and BagCountOfNonNumeric characterise it |
| JsText.DigitsValueOfDecimal | app/feeds/actions.ts:15-17 | the digits of a rendered number are worth that number |
| JsText.ParseIntOfDecimal | app/feeds/actions.ts:15-17 | parseInt reads back any integer's decimal text, whatever non-digit text follows |
| JsText.ParseSignedOfNegative | app/feeds/actions.ts:15-17 | parseInt reads "-" followed by a positive number's digits as its negation |
| JsText.ParseIntSkipsLeadingSpace | app/feeds/actions.ts:15-17 | leading white space does not change what parseInt reads |
| SideBar.SplitWs | app/components/SideBar.tsx:42 | splitting on white-space runs gives at least one piece, and no piece holds white space |
| SideBar.SplitJoin | app/components/SideBar.tsx:42 | splitting words joined by single spaces gives the words back |
| SideBar.SplitTrimmedGivesWords | app/components/SideBar.tsx:42 | a trimmed non-empty name splits into non-empty words, the first starting with the name's first character |
| SideBar.GetInitials | app/components/SideBar.tsx:40-47 | no name or "" gives ""; a name of only white space throws the undefined toUpperCase error; otherwise one upper-cased initial of the first word, and a second exactly when there are two or more words |
| SideBar.JoinedNameSplits | app/components/SideBar.tsx:42 | a name made of words joined by spaces trims and splits back into those words |
| SideBar.InitialsOfOneWord | app/components/SideBar.tsx:43-44 | a one-word name gives its upper-cased first letter |
| SideBar.InitialsOfSeveralWords | app/components/SideBar.tsx:46 | a name of two or more words gives the upper-cased first letters of the first two |
| SideBar.LaterWordsIgnored | app/components/SideBar.tsx:46 | words after the second do not change the initials |
| SideBar.InitialsOfSplit | app/components/SideBar.tsx:42-46 | for any name with two or more parts the initials are the first letters of the first two parts |
| SideBar.InitialsIgnoreSurroundingSpace | app/components/SideBar.tsx:42 | white space around a name does not change its initials |
| SideBar.WhitespaceNameThrows | app/components/SideBar.tsx:40-44 | the name " " reaches `parts[0][0].toUpperCase()` on an empty part and throws |
| SideBar.Initials | app/components/SideBar.tsx:40-47 | the corrected initials: at most two characters, equal to getInitials wherever it succeeds, "" exactly for no name or a white-space-only name |

## Left out

- The stored procedures `log_feed_usage_atomic` and `restock_feed_atomic` are not part of this
  model. `FeedActions.LogFeedUsage` and `FeedActions.RestockFeed` state which call is made with
  which arguments, and the procedure's outcome is a parameter.
- Database I/O is reduced to table fields of the `Store` class. Only the failures listed above
  are modelled; every other call succeeds, completely and at once. There is no concurrency and
  no interruption between two awaits.
- Ownership scoping by `user_id` and row-level security are not modelled. The store holds one
  owner's rows, and feed types are keyed by name.
- The repair tool looks each category up with `find` over the fetched types. With two types of
  one name it picks the first; the model's name-keyed map cannot hold two such types.
- NewCrop.IntakeStep: the feed-type insert always succeeds. The source's path where the insert
  returns no id, so no log is written, is not modelled.
- NewCrop.HandleSubmit:
  - The form's numbers are given as integers. The source reads them with `parseInt` and
    `Number`, and NaN, fractional or huge values are not modelled.
  - The chick-source insert either succeeds as a whole or fails as a whole.
- NewCrop.RestockLog: the intake's log row carries `now` as its date. The source sends no date
  and the database default fills it.
- Clock values are the `now` parameter. This covers `new Date().toISOString()` and database
  default timestamps.
- Date display, `toLocaleDateString`, `toFixed` formatting and all JSX rendering are left out.
  So are the loading and error state setters and the router navigation.
- The repair tool's progress texts ("Calculating discrepancy...", "Fixing ...") are left out.
  Only its final status is modelled.
- The dashboard's recent-activity list, its feed-log query ordering, and the growth and chart
  figures are left out.
- Record fields the modelled code never reads are left out. These are the average weights,
  brand, description, unit, unit price and the created_at fields, plus `InventoryStatus` and
  `FeedInventory`.
- JsText.UpperChar: only ASCII letters are upper-cased. JavaScript's `toUpperCase` also maps
  other letters, some to two characters (such as 'ß' to "SS").
- Strings are sequences of `char`, not UTF-16 code units. So `slice(0, 8)` and `[0]` on
  characters outside the basic plane are not modelled.
- FeedActions.BagCount: `parseInt` results beyond double precision are not modelled, and every
  integer is exact.
- The middleware's cookie adapter, its Supabase session refresh and its `matcher` configuration
  are left out. Only the redirect decision is modelled.

## Findings

| source | as written | input that shows it | evidently intended | confidence | as-written member | corrected member |
|---|---|---|---|---|---|---|
| app/components/SideBar.tsx:40-47 | a non-empty name of only white space passes `if (!name)` and the caller's truthiness test (line 100). Then `trim().split(/\s+/)` gives `[""]`, and `parts[0][0].toUpperCase()` throws a TypeError | full name `" "` | show no initials instead of throwing | not executed | SideBar.GetInitials, SideBar.WhitespaceNameThrows | SideBar.Initials |
