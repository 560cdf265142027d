# Verified model of the order and catalogue integration

A Dafny model of the parts of the integration between Shopify and the MetaKocka ERP in which a mistake costs
money or data, with the properties they are for proved for every input and every run. `dafny verify dfyconfig.toml`
checks all of it.

## What is modelled

| files | what they model |
|---|---|
| `SalePricing`, `SaleRules` | what a campaign charges and which campaign wins, computed, and what that means |
| `SaleMachine`, `SaleSafety`, `SaleDecisions`, `SaleOutside`, `SaleBatch`, `SaleWriter`, `SaleAnswers` | sale campaigns: live price pairs against campaign rows, as a machine of single records and writes with a crash possible between any two, and as the batches (class `Desk`) that are proved to be runs of that machine |
| `PartnerSearch`, `PartnerClaim`, `PartnerCreates`, `PartnerOrder` | many jobs resolving one order's ERP partner under a claim with a lease, on one clock |
| `BulkValues`, `BulkApply` | a stored preview of metafield changes applied in resumable batches (class `BulkJob`) |
| `Allocation`, `AllocationLaws` | the greedy allocator |
| `Money`, `MoneyLaws` | the money parser and the two printers |
| `ExtractJson` | the scan for an embedded JSON value |
| `RateLimit` | the sliding-window limiter (class `RateLimiter`) |
| `SnapshotCache` | the single-flight, stale-while-refresh cache (class `SnapshotCache`) |
| `Payments`, `PaymentLaws` | a document's payments replaced by a desired ledger, against a model of the ERP |
| `StockSync` | whole stock lists and the check of their echo |
| `Definitions` | the metafield definition planner |
| `Prelude`, `JsText` | vocabulary: `Option`, `Trunc`, `Trim` |

Methods follow the code that works step by step; each is proved against a function of its inputs or of its old state,
and the promises are lemmas about those functions and invariants over runs. An effect of the network is a parameter
(`Reply`, `Answer`), a nondeterministic choice, or a ghost record of what happened.

## What turned out to be false, and exactly when it is true

- **Sales never stack**: without outside edits, a run never stacks if and only if no step lets go of a row while its
  sale price is live, and no write leaves a pair that is neither of the row's two (`SalesNeverStack`, over every crash
  and every answer to a write). The code has four ways to let go:
  - `releaseStaleClaims` (`src/adapters/db/repositories/sale-campaign.server.ts:492-507`) puts a stuck `applying` row
    back to `pending` although its write may have landed (`StackingHappens`).
  - An apply whose write was taken, but answered with an error, is recorded as `failed`
    (`src/adapters/sales/writer.server.ts:113-127`), which is not among the live states
    (`src/domain/sales/types.ts:54`): nobody holds the variant any more (`ErringHappens`).
  - A restore whose answer names neither an error nor the variant is recorded as done
    (`src/adapters/sales/writer.server.ts:110-123`), although nothing need have been written
    (`VouchedRestoreStacks`).
  - A row is released from review while its sale is live. It gets into review only by somebody else's edit, which
    `SalesNeverStack` leaves out: `ReleasedFromReview` is such a run.
- **A row settled as put back has its original live**: it had when the write landed, or when the batch saw it, unless
  the answer was one that names no variant. At the moment it is settled it has if and only if the last pair anybody
  set its variant to since the answer is the original, or nobody set any and it was live then
  (`SettledOverItsOriginal`). `SettledOverAnother` is a run in which somebody set another.
- **A sale never raises a price**, say the comments. An applied sale does if and only if the variant was on sale
  already and the policy is `Override` or `DiscountSellingPrice`, which lack the guard of `DiscountCompareAt`, and
  strikes a price above the live one (`AppliedSaleRaisesThePriceIff`, with an example of each in
  `AppliedSaleCanRaiseThePrice`).
- **At most one partner** takes two things. There must be something to search by (`AtMostOnePartner`, if and only if):
  a create whose answer is lost is otherwise made again by the retry. And no claim may be given back while its own
  create may still take effect (`StepKeepsThePromiseIff`, if and only if). A create that timed out, or that the ERP
  refused, is over; one whose connection broke or that a proxy answered for may not be, and
  `src/jobs/resolve-order-partner.ts:133-140` gives the claim back at once all the same. `BrokenCreateMakesTwo` is that
  run, for any lookup.
- **Served values are younger than `maxStaleMs`** if and only if `ttlMs <= maxStaleMs` or `ttlMs <= 0`
  (`ServedWithinLimitIff`), which the one cache the program makes satisfies: it takes the larger of the two for
  `maxStaleMs` (`src/adapters/rig/api.server.ts:387-388`). The load that the next call after an invalidation gets was
  *started* after it if and only if no load of that key was running then (`ReadAfterForgettingIff`); if that running
  load fails, the one after it was started later.
- **The limiter's bound** needs limits of at least 1: with a smaller one it accepts everything (`NoLimitAcceptsAll`).
- **The two money printers agree** if and only if there are decimals (`PrintersAgree`); a dot-grouped amount parses back
  if and only if it has decimals or no group (`RoundTripGrouped`); a blank text parses as nothing owed (`BlankIsZero`).
- **The payment check** passes if and only if the currency has two decimals or the document carries nothing
  (`CheckPassesIff`): the reader always reads two decimals.
- **The stock echo check** is sound for a warehouse's list if and only if no line has a colon in its warehouse id or
  in its product code (`EchoIsABijectionIff`): a key with two colons also names another product.
- **The reader behind bulk apply** loses no key if and only if at most 25 different ones are asked for
  (`CapLosesNothing`); a dropped one makes a clear count as done (`DroppedKeyIsMisjudged`). Batches of 25 are safe.

## Model

| member | source | states |
|---|---|---|
| SalePricing.AppliedSaleIsASale | src/domain/sales/pricing.ts:21-179 | an applied sale records the pair it saw as the original, reads as a sale, and lowers the price where the policy promises it |
| SalePricing.AppliedSaleRaisesThePriceIff | src/domain/sales/pricing.ts:21-179 | an applied sale raises, or leaves, the price a customer pays exactly when an unguarded policy strikes such a price over a variant on sale already |
| SalePricing.AppliedSaleCanRaiseThePrice | src/domain/sales/pricing.ts:21-179 | an example of each of the two policies |
| SaleRules.RoundsExactly | src/domain/sales/pricing.ts:45-73 | each mode gives its price point and no other: the nearest multiple, halves up, or the largest ending that is not above the price |
| SaleRules.StrikesExactly | src/domain/sales/pricing.ts:26-83 | the sale price is the price point of what the discount leaves, never below nothing, and no other price is |
| SaleRules.DecidesExactly | src/domain/sales/pricing.ts:98-169 | which price is discounted and against which it is struck; written exactly if above nothing, below the full price and allowed by the policy, and the reason otherwise |
| SaleRules.ClassifiesExactly | src/domain/sales/observe.ts:29-54 | the campaign's own two pairs, and the base another pair stands for: its compare-at if that was moved and reads as a sale, else its price |
| SaleRules.ConflictsExactly | src/domain/sales/conflicts.ts:23-45 | the challenger wins by the larger merit only, never both, and when it is refused |
| SaleSafety.StepKeepsSound | src/adapters/sales/writer.server.ts:152-350 | every step but an outside edit, mutations erred on, altered or taken without a word included, keeps: one owner a variant, snapshots of the first pair, live pair first or the holder's sale; unless it lets go of a live sale or leaves a third pair |
| SaleSafety.LosingTrackStacks | src/adapters/db/repositories/sale-campaign.server.ts:492-507 | such a step always leaves a live price that is neither the first nor the sale of a row holding the variant |
| SaleSafety.NeverStackedIff | src/adapters/sales/writer.server.ts:152-601 | over any run of any campaigns with crashes and any answers to their writes: never stacked at any moment exactly when no live sale is let go of and no write leaves a third pair |
| SaleSafety.SalesNeverStack | src/adapters/sales/writer.server.ts:152-601 | the same from the first campaign on; and a variant no row holds is back at its first pair, whatever chain of takeovers led there |
| SaleSafety.LivePairIsKnown | src/adapters/sales/writer.server.ts:196-296 | a row holding a variant finds one of its own two pairs live; one about to take a snapshot finds the first pair |
| SaleSafety.RestoredIsFirst | src/adapters/sales/writer.server.ts:480-601 | a row settled by a restore has its variant's first pair live, exactly when the step lets go of no live sale |
| SaleSafety.StackingHappens | src/jobs/handlers/sale-campaign-run.ts:61-179 | a legal run, through a stale claim released, that applies a second sale on top of the first |
| SaleSafety.ErringHappens | src/adapters/sales/writer.server.ts:95-134 | the same by a write that was taken and answered with an error: the row is recorded as failed and held by nobody |
| SaleDecisions.RetryWritesItsSale | src/adapters/sales/writer.server.ts:196-226 | a row with a snapshot is never priced again: recorded over its sale, written its recorded sale over its original, reviewed over any other pair |
| SaleDecisions.FirstTryTakesItsSnapshot | src/adapters/sales/writer.server.ts:229-296 | a row without one takes it of the live pair and writes the sale struck over that, unless another row holds the variant or the sale is not worth writing |
| SaleDecisions.RestoreWritesItsOriginal | src/adapters/sales/writer.server.ts:480-551 | written its original over its sale, settled over its original, reviewed over any other pair |
| SaleDecisions.PreserveKeepsTheSalePrice | src/adapters/sales/writer.server.ts:751-782 | over an outside price: the new base with the old compare-at is the new original, and the sale price is kept against it exactly while it is below; otherwise the row is released and nothing written |
| SaleDecisions.RecalculateStrikesAnew | src/adapters/sales/writer.server.ts:751-825 | or a new sale is struck over the new original, and the row released exactly when that is not worth writing |
| SaleDecisions.ThereAndBack | src/adapters/sales/writer.server.ts:152-601 | a sale made and put back leaves every price as it was |
| SaleDecisions.RetryEndsTheSame | src/adapters/sales/writer.server.ts:152-350 | cut short by a death before or after the write, or by a refusal, and tried again on whatever terms, a sale ends where an undisturbed one does: struck once and live |
| SaleDecisions.RestoreEndsTheSame | src/adapters/sales/writer.server.ts:480-601 | and so does a restore |
| SaleOutside.StepKeepsAnswered | src/adapters/sales/writer.server.ts:75-134 | every planned write rests on the price its batch has read, through every step, outside edits between batches included |
| SaleOutside.StepKeepsOutsidePrice | src/adapters/sales/writer.server.ts:202-226 | no step moves a price that is neither pair of the row holding it, unless a person or a policy asks for it; apply and restore alike put such a row to review and touch nothing |
| SaleOutside.OutsidePriceSurvives | src/adapters/sales/writer.server.ts:433-551 | so the outside price stays live through any run that leaves the row alone |
| SaleOutside.SettledOverItsOriginal | src/adapters/sales/writer.server.ts:480-601 | a row settled as put back had its original live when its write landed or the batch saw it, unless its answer named no variant; and has at that moment exactly when the last pair set since the answer is the original, or none was set and it was live then |
| SaleOutside.AppliedOverItsSale | src/adapters/sales/writer.server.ts:152-350 | a row recorded as applied had its sale live when its write landed or the batch saw it, unless its answer named no variant; and has at that moment exactly when the last pair set since the answer is the sale, or none was set and it was live then |
| SaleOutside.SettledOverAnother | src/adapters/sales/writer.server.ts:75-134 | a run in which somebody has, between the write and its record |
| SaleOutside.ReleasedFromReview | src/adapters/sales/review.server.ts:26-96 | a run in which a row is released from review with its sale price live |
| SaleOutside.VouchedRestoreStacks | src/adapters/sales/writer.server.ts:95-123 | a run in which a restore is recorded as done by an answer without error or variant, and a second sale goes on top of the first |
| SaleWriter.Desk.Mutate | src/adapters/sales/writer.server.ts:75-134 | one product's mutation, all or nothing: taken, altered, taken or refused with an error, unanswered, or taken for done with nothing written |
| SaleWriter.Desk.SendProduct | src/adapters/sales/writer.server.ts:75-134 | a mutation and its outcomes: every row at success or failure as Shopify answered, nothing else moved, or dead in between |
| SaleWriter.Desk.Group | src/adapters/sales/writer.server.ts:75-134 | plans by product, in order, none lost |
| SaleWriter.Desk.Execute | src/adapters/sales/writer.server.ts:75-134 | every plan ended as its product's answer says; done and failed add up, and nothing failed exactly when every plan was answered as sent |
| SaleWriter.Desk.ApplyRows | src/adapters/sales/writer.server.ts:152-350 | each row at its verdict or at what its write came to, as a run of machine steps |
| SaleWriter.Desk.RestoreRows | src/adapters/sales/writer.server.ts:480-601 | the same for putting back |
| SaleWriter.Desk.ForceRestoreRows | src/adapters/sales/writer.server.ts:623-674 | the same for putting back over anything |
| SaleWriter.Desk.ResolveHeldRows | src/adapters/sales/writer.server.ts:364-465 | each holder that is to give way is put back as a restore would, no other is touched; a challenger goes on waiting exactly when its holder has been taken over and released, else it is skipped; and the two counts are those |
| SaleBatch.WinsExactly | src/adapters/sales/writer.server.ts:395-432 | the challenger takes the variant exactly by priority, by what it would take off the holder's original against what the holder takes off, or by being newer |
| SaleWriter.Desk.HandleExternalChange | src/adapters/sales/writer.server.ts:727-866 | an outside price kept, worked over or reviewed, by the campaign's policy |
| SaleWriter.DeskNeverStacks | src/adapters/sales/writer.server.ts:152-601 | whatever batches ran, wherever they died and whatever Shopify answered, a variant nobody holds is at its first pair, if no live sale was let go of and no third pair left |
| SaleAnswers.AppliedRowsAreOnSale | src/adapters/sales/writer.server.ts:75-350 | a row that a batch leaves applied has its sale live, unless the answer named no variant |
| SaleAnswers.RestoredRowsArePutBack | src/adapters/sales/writer.server.ts:75-601 | a row that a batch leaves put back has its original live, unless the answer named no variant |
| SaleAnswers.RetryIsAnswered | src/adapters/sales/writer.server.ts:75-226 | a retry over the original is sent as recorded: what is live then and how the row ends, for every answer |
| SaleAnswers.FirstTryIsAnswered | src/adapters/sales/writer.server.ts:75-350 | the same for a first try, with its snapshot |
| SaleAnswers.RestoreIsAnswered | src/adapters/sales/writer.server.ts:75-601 | the same for a restore |
| PartnerSearch.FindPartner | src/adapters/metakocka/partners.ts:122-170 | the tax number decides alone if its search lists somebody or fails, else the email, else the name; a search is made exactly for a field with text when no stronger one has decided; nobody is found exactly if none of them matched |
| PartnerSearch.SettledIsTheFirst | src/adapters/metakocka/partners.ts:152-166 | the first partner of a list is the one taken, under its own name or else the one asked for |
| PartnerSearch.BillingAddressIs | src/adapters/metakocka/partners.ts:105-112 | its billing address is the first of that kind, or the first of all |
| PartnerClaim.StepKeepsSingleFlight | src/jobs/resolve-order-partner.ts:83-148 | the lease arithmetic: a holder is done before anyone may take its claim over |
| PartnerClaim.OneHolder | src/jobs/resolve-order-partner.ts:83-148 | in every interleaving of any number of jobs with crashes and errors, one holder at most, within its lease |
| PartnerClaim.StoredIdNeverChanges | src/jobs/resolve-order-partner.ts:142-148 | a stored partner id stays for the rest of any run |
| PartnerCreates.ClaimCanBeWonAgain | src/jobs/resolve-order-partner.ts:83-113 | no order is stuck: from every reachable state without an id a job can win the claim, at once if it is free and otherwise a lease later |
| PartnerCreates.StepKeepsCreatesOnce | src/adapters/metakocka/partners.ts:224-231 | a create that may still take effect is guarded by its claim and nobody else is about to create, unless a claim is given back over it |
| PartnerCreates.AtMostOnePartner | src/adapters/metakocka/partners.ts:122-231 | over all runs that never give a claim back over a pending create: at most one partner exactly when some field has text to search by |
| PartnerCreates.StepKeepsThePromiseIff | src/jobs/resolve-order-partner.ts:133-140 | a step leaves at most one partner to be made, whatever follows, exactly when it is not such a release |
| PartnerCreates.BrokenCreateMakesTwo | src/jobs/resolve-order-partner.ts:120-140 | the run that makes two: a create's call breaks off, the claim is given back, the retry finds nobody |
| PartnerCreates.BlankLookupCreatesTwice | src/adapters/metakocka/partners.ts:122-231 | the run that makes two with nothing to search by |
| PartnerOrder.OrderDesk.TryClaim | src/jobs/resolve-order-partner.ts:83-113 | the conditional update that referees the claim |
| PartnerOrder.OrderDesk.Settle | src/jobs/resolve-order-partner.ts:133-148 | the claim given back, or the id recorded |
| PartnerOrder.OrderDesk.Resolve | src/jobs/resolve-order-partner.ts:115-161 | what a holder does, as machine steps: which partner it records, when it releases, over a pending create too, and when a partner is made |
| PartnerOrder.OrderDesk.EnsureOrderPartner | src/jobs/resolve-order-partner.ts:31-162 | every branch, its effect on the row and whose id is given: the one the strongest field to decide lists first, or the created one's |
| BulkValues.ApplyOnceAt | src/adapters/products/bulk-values.server.ts:52-62 | applying every change once: each target written or left by what it held, independently of the others |
| BulkValues.DecidesExactly | src/adapters/products/bulk-values.server.ts:52-62 | which change is written, and which outcome any other gets |
| BulkValues.AppliedMeansWanted | src/adapters/products/bulk-values.server.ts:52-62 | on a store still as previewed every target ends at its wanted value, as the very text and type asked for |
| BulkValues.WriteGoesOn | src/adapters/products/bulk-values.server.ts:101-140 | a store on the way judges each change as the first did or finds it done, so a write moves it on |
| BulkValues.BatchGoesOn | src/adapters/shopify/product-workspace.ts:831-877 | so does any beginning of a batch's writes |
| BulkValues.CapLosesNothing | src/adapters/shopify/product-workspace.ts:517-542 | the reader's cap loses no key exactly up to 25 different ones |
| BulkValues.DroppedKeyIsMisjudged | src/adapters/shopify/product-workspace.ts:517-542 | a dropped key's clear is called done |
| BulkApply.ReadJudgesTrue | src/adapters/products/bulk-values.server.ts:101-120 | a batch is judged as the store is |
| BulkApply.BulkJob.ReadOwnerMetafields | src/adapters/shopify/product-workspace.ts:517-542 | of each owner that exists, the wanted fields |
| BulkApply.BulkJob.WriteMetafields | src/adapters/shopify/product-workspace.ts:831-877 | a beginning of the two lists is taken, all of both when nothing was refused or lost |
| BulkApply.BulkJob.WriteOne | src/adapters/products/bulk-values.server.ts:74-84 | one change on its own, and what its outcome says |
| BulkApply.BulkJob.Sort | src/adapters/products/bulk-values.server.ts:114-120 | who is written and who is left alone |
| BulkApply.BulkJob.ApplyBatch | src/adapters/products/bulk-values.server.ts:101-140 | every outcome says what was decided or what the slot now holds; calm batches only move on |
| BulkApply.BulkJob.RunBulkApply | src/adapters/products/bulk-values.server.ts:165-208 | a run that may die anywhere keeps the invariant and never revisits an outcome |
| BulkApply.FinishedMeansAppliedOnce | src/adapters/products/bulk-values.server.ts:165-208 | however many runs crashed, a finished import nobody interfered with has applied every change exactly once and changed nothing else |
| BulkApply.WrittenOnlyAsPreviewed | src/adapters/products/bulk-values.server.ts:52-62 | no write, ever, to a field its batch had read as anything but the previewed value |
| BulkApply.OutcomesAreTrue | src/adapters/products/bulk-values.server.ts:52-140 | every outcome ever saved says what became of its change, by what its batch had read; a failure only after Shopify refused that change by itself, with its message |
| Allocation.Allocate | src/domain/allocation/allocate.ts:60-152 | the loops compute the specified allocation |
| Allocation.OrderSourcesSorts | src/domain/allocation/allocate.ts:43-58 | the sources sorted, none lost |
| AllocationLaws.EveryUnitIsAccountedFor | src/domain/allocation/allocate.ts:84-148 | a line's entries, the remainder included, sum to its positive quantity |
| AllocationLaws.NoStockIsGivenTwice | src/domain/allocation/allocate.ts:66-77 | given plus left is what a source had of a SKU, over the whole order |
| AllocationLaws.OpeningIsTheLast | src/domain/allocation/allocate.ts:66-77 | a source starts with the whole units of its last enabled level of the SKU, never less than none |
| AllocationLaws.ShortfallsAreReported | src/domain/allocation/allocate.ts:127-148 | entries without a source are the shortfalls, one for one |
| AllocationLaws.FilledIsAllThereIs | src/domain/allocation/allocate.ts:84-125 | with splitting everywhere a SKU is filled to min(demand, stock) |
| AllocationLaws.WholeLinesFromTheUnsplit | src/domain/allocation/allocate.ts:92-125 | an unsplittable source, or any under a no-split rule, gives whole lines only |
| AllocationLaws.EarlierIsEmpty | src/domain/allocation/allocate.ts:92-125 | if a later source serves a line, earlier splittable ones have nothing left |
| AllocationLaws.LaterMeansEarlierEmpty | src/domain/allocation/allocate.ts:84-125 | the same at any line of the order, whatever the lines before it took |
| AllocationLaws.SourcesAreInOrder | src/domain/allocation/allocate.ts:43-58 | smaller priorities first, then the kind that stands first in the rule's order, then the smaller code |
| AllocationLaws.AheadGivesAll | src/domain/allocation/allocate.ts:43-125 | over the whole order: if any line takes of a SKU from a source, every splittable source of it that is ahead in that order has given all it had |
| AllocationLaws.ShortMeansAllGiven | src/domain/allocation/allocate.ts:84-148 | if any line of a SKU is short, every splittable source of it has given all it had |
| AllocationLaws.NothingGivenMeansTooLittle | src/domain/allocation/allocate.ts:92-125 | a line given nothing finds no source, splittable or not, with as much as it wants |
| AllocationLaws.FirstRuleDecides | src/domain/allocation/allocate.ts:60-61 | the first rule decides alone; without one own stock goes first and may be split |
| AllocationLaws.InputOrderDoesNotMatter | src/domain/allocation/allocate.ts:43-82 | permuting the supply list changes nothing, given no ties within a SKU |
| AllocationLaws.UniqueMeansPairs | src/domain/allocation/allocate.ts:66-77 | balance keys are apart exactly when (source, SKU) pairs are |
| MoneyLaws.RefusesExactly | src/adapters/metakocka/values.ts:62-68 | what is not a decimal is refused, and nothing else |
| MoneyLaws.NormalisesExactly | src/adapters/metakocka/values.ts:23-33 | the first comma is the decimal point, and beside a comma every dot groups |
| MoneyLaws.ParsesExactly | src/adapters/metakocka/values.ts:62-89 | the exact amount times 10^d to the nearest, halves away from zero; out of range exactly when not safe |
| MoneyLaws.RoundsToOne | src/adapters/metakocka/values.ts:72-79 | there is one such rounding |
| MoneyLaws.BlankIsZero | src/adapters/metakocka/values.ts:65-78 | blank texts and lone signs parse as zero |
| MoneyLaws.RoundTrip | src/adapters/metakocka/documents.ts:250-259 | printing and parsing gives every safe amount back, for any number of decimals |
| MoneyLaws.RoundTripShopify | src/adapters/shopify/variant-prices.ts:24-30 | so does the other printer |
| MoneyLaws.PrintersAgree | src/adapters/shopify/variant-prices.ts:24-30 | same text exactly when there are decimals |
| MoneyLaws.RoundTripGrouped | src/adapters/metakocka/values.ts:23-33 | a dot-grouped amount parses back exactly when it has decimals or no group |
| ExtractJson.ExtractJson | src/domain/extract-json.ts:7-40 | the loops compute the specified extraction |
| ExtractJson.ScanByIndex | src/domain/extract-json.ts:18-36 | the index scan, skips included, is the scan of the rest of the text |
| ExtractJson.ValuePasses | src/domain/extract-json.ts:20-36 | any JSON value, however nested and whatever its strings hold, leaves the depth where it was |
| ExtractJson.DepthEndsWithTheGroup | src/domain/extract-json.ts:18-36 | from a group's first bracket the depth first returns to zero at its last character |
| ExtractJson.FindsTheEmbeddedValue | src/domain/extract-json.ts:7-40 | an object or array behind a bracket-free prefix and before any suffix is what comes back |
| ExtractJson.FirstValueIsThere | src/domain/extract-json.ts:14-38 | whatever comes back is what a stretch of the text parses to, from the first bracket that begins a value |
| ExtractJson.NothingIffAllBarren | src/domain/extract-json.ts:14-40 | nothing comes back exactly when no bracket of the text begins a value |
| RateLimit.RateLimiter.Check | src/adapters/rig/rate-limit.ts:26-48 | answers and records like the limiter that never forgets, pruning and sweeping included |
| RateLimit.RateLimiter.Sweep | src/adapters/rig/rate-limit.ts:50-54 | exactly the keys with no call that counts are dropped, and nothing that counts is lost |
| RateLimit.PrunedRetrySame | src/adapters/rig/rate-limit.ts:28-39 | forgetting what has aged changes no answer |
| RateLimit.RetryIsExact | src/adapters/rig/rate-limit.ts:31-39 | the retry time is when the last full window frees a slot |
| RateLimit.RetryTimeIsExact | src/adapters/rig/rate-limit.ts:31-43 | refused at every moment before it, accepted from it on |
| RateLimit.SecondsSuffice | src/adapters/rig/rate-limit.ts:40-43 | the seconds told are the fewest that suffice |
| RateLimit.BoundHolds | src/adapters/rig/rate-limit.ts:32-47 | no interval of a window's length holds more accepted calls than its limit |
| RateLimit.LimiterKeepsTheBound | src/adapters/rig/rate-limit.ts:26-54 | for every key of a limiter, whatever was checked, pruned and swept |
| RateLimit.NoLimitAcceptsAll | src/adapters/rig/rate-limit.ts:32-45 | a limit below one turns the limiter off |
| SnapshotCache.SnapshotCache.Get | src/adapters/rig/snapshot-cache.ts:56-68 | within the stale limit the value is given at once, and past the fresh one a load runs behind it; without a value or past both the caller waits for the key's one load |
| SnapshotCache.SnapshotCache.Refresh | src/adapters/rig/snapshot-cache.ts:39-54 | joins the running load or starts one |
| SnapshotCache.SnapshotCache.LoadDone | src/adapters/rig/snapshot-cache.ts:43-50 | the landed entry replaces the cached one |
| SnapshotCache.SnapshotCache.LoadFailed | src/adapters/rig/snapshot-cache.ts:48-50 | a failed refresh leaves every entry as it was |
| SnapshotCache.SnapshotCache.Invalidate | src/adapters/rig/snapshot-cache.ts:71-73 | the entry goes, a running load stays |
| SnapshotCache.LandKeeps | src/adapters/rig/snapshot-cache.ts:43-50 | landing keeps the history coherent |
| SnapshotCache.RunIsCoherent | src/adapters/rig/snapshot-cache.ts:34-73 | so every interleaving of calls, landings, failures and invalidations is: at most one load a key, every entry what its load landed since the key was last forgotten |
| SnapshotCache.OneLoadAtATime | src/adapters/rig/snapshot-cache.ts:39-54 | at most one load of a key runs |
| SnapshotCache.GivenValueIsRecent | src/adapters/rig/snapshot-cache.ts:56-68 | a value given at once is young enough and landed after the last invalidation |
| SnapshotCache.AwaitedLoadIsRecent | src/adapters/rig/snapshot-cache.ts:56-68 | a load that is waited for has not landed yet |
| SnapshotCache.StaleIsGivenAtOnce | src/adapters/rig/snapshot-cache.ts:56-68 | who is given the entry, and behind which answers a load runs |
| SnapshotCache.ServedWithinLimitIff | src/adapters/rig/snapshot-cache.ts:59-67 | over every interleaving of a cache's operations no value older than the stale limit is served, exactly when freshness ends by then |
| SnapshotCache.ReadAfterForgettingIff | src/adapters/rig/snapshot-cache.ts:71-73 | the load the next call gets was started after the invalidation exactly when none was running |
| Payments.ReplaceDocumentPayments | src/adapters/metakocka/documents.ts:951-1059 | every branch: what is sent, what the ERP then holds, when the call succeeds |
| PaymentLaws.ReadBackIff | src/adapters/metakocka/documents.ts:701-726 | a total written with any number of decimals and read with two is itself exactly when there are two or it is nothing |
| PaymentLaws.CheckPassesIff | src/adapters/metakocka/documents.ts:1020-1035 | the read-back check passes exactly with two decimals or nothing carried |
| PaymentLaws.CreatedIsClearableIff | src/adapters/metakocka/documents.ts:399-423 | a later empty ledger can be sent exactly when the document was created with a payment of a type that is not blank |
| PaymentLaws.LedgerIsSent | src/adapters/metakocka/documents.ts:975-983 | each payment is sent in its place: its type, its own day, a text worth its amount |
| PaymentLaws.ClearIsSent | src/adapters/metakocka/documents.ts:1087-1115 | a clear is one entry worth nothing of the type and on the day the document carries, and is sent exactly when there is such a type |
| PaymentLaws.CallConverges | src/adapters/metakocka/documents.ts:1087-1115 | after a call the ERP's total is the ledger's, the lines are the body's, and the body can be cleared again |
| PaymentLaws.SentAgainChangesNothing | src/adapters/metakocka/documents.ts:951-1059 | the same ledger again is the same body and changes nothing |
| PaymentLaws.SendLedgers | src/adapters/metakocka/documents.ts:951-1059 | any sequence of ledgers: every call succeeds, reads back its ledger's total, and the document follows |
| StockSync.BuildCompleteStockList | src/adapters/metakocka/sync-stock.ts:105-125 | the loops compute the specified list |
| StockSync.NothingIsLost | src/adapters/metakocka/sync-stock.ts:88-125 | no product is lost or added and no other warehouse touched; unmanaged amounts stay exactly as held, and each managed one becomes as many whole units as there are, never less than none |
| StockSync.SentAgainChangesNothing | src/adapters/metakocka/sync-stock.ts:105-125 | read back in any order and sent again, nothing changes |
| StockSync.ListNamesEachOnce | src/adapters/metakocka/sync-stock.ts:105-125 | no product twice |
| StockSync.DescribeEchoMismatch | src/adapters/metakocka/sync-stock.ts:356-405 | the complaint about the first line there is one about, none exactly when there is none |
| StockSync.BelievedIsOneToOne | src/adapters/metakocka/sync-stock.ts:266-405 | an accepted echo names each sent product exactly once, within tolerance, and nothing else, when no line has a colon |
| StockSync.HonestIsBelieved | src/adapters/metakocka/sync-stock.ts:356-405 | no fault is found with an echo that is one to one with what was sent, colons or not |
| StockSync.ComplaintSays | src/adapters/metakocka/sync-stock.ts:363-405 | a line is called not acknowledged exactly when its product went to no other warehouse and nothing was heard of it; and different only with an amount that was stated and is off |
| StockSync.EchoIsABijectionIff | src/adapters/metakocka/sync-stock.ts:356-405 | the echoes accepted for a warehouse's list are those one to one with it, exactly when no line has a colon in its warehouse id or its code |
| StockSync.ColonFoolsTheCheck | src/adapters/metakocka/sync-stock.ts:363-386 | the echo that passes for any other list and names another product |
| StockSync.SyncStock | src/adapters/metakocka/sync-stock.ts:159-320 | when success is believed |
| Definitions.PlanDefinitions | src/domain/attributes/definitions.ts:108-249 | the loop computes the specified plan |
| Definitions.SplitJoins | src/domain/attributes/definitions.ts:80-83 | joining undoes the split of a key with a dot |
| Definitions.CountsSumToRows | src/domain/attributes/definitions.ts:240-248 | the counts sum to the rows |
| Definitions.RowSays | src/domain/attributes/definitions.ts:108-230 | each row's status, reason and types, by the attributes before it and what is held: left to the menu, skipped and why, created, there already, or in conflict |
| Definitions.DraftSays | src/domain/attributes/definitions.ts:205-229 | a draft is its attribute: owner, namespace, key, texts, type, choices and visibility |
| Definitions.KeyIff | src/domain/attributes/types.ts:172 | a key is two parts of bounded lengths around one dot |
| Definitions.ForeignExactly | src/domain/attributes/definitions.ts:232-238 | left alone is exactly what is held for no attribute's field and is not the menu's |
| Definitions.CreatesAreNew | src/domain/attributes/definitions.ts:157-229 | created rows are for different fields, none held already, none the menu's |
| Definitions.ReplannedRow | src/domain/attributes/definitions.ts:108-230 | with any of the drafts created, exactly those rows become unchanged and every other row stays |
| Definitions.ReplanSameForeign | src/domain/attributes/definitions.ts:232-238 | and the same definitions are left alone |
| Definitions.ReplanCreatesNothing | src/domain/attributes/definitions.ts:108-249 | with all of them created nothing is left to create |

## Assumptions

- Sales: one job handles a row at a time; nobody edits a price between a batch's live read and its own write, though
  anybody may between the write and its record; an answer that names a variant names the pair it holds; a product's
  mutation is taken or refused whole, which its one call is: a batch has 100 rows
  (`src/jobs/handlers/sale-campaign-run.ts:39`) and a call takes 250 variants. Event rows, reasons, attempts and dates
  are dropped. Row writes are single steps of the machine, which allows more than a whole mutation does.
- Partner: one clock; a call ends by its timeout; a create takes effect within that time of its sending or never,
  however its call ends; a search sees every earlier creation for the same lookup; a job's own work fits in what four
  calls leave of the lease.
- Bulk apply: one job at a time runs an import; a written value is held as sent; the canonical form of a text that is
  not blank is a parameter.
- Rate limiter and cache: a clock that does not go back; a load never ends in the step that starts it.
- Payments: the ERP replaces lines by an update, replaces payments by a list that names any, clears them by one zero,
  leaves them otherwise, and reports no total when there is none.
- Characters are compared as Dafny compares them; JavaScript's UTF-16 order differs only for surrogate pairs.

## Left out

- Sale rule evaluation, campaign lifecycle and staging of memberships: the machine's `Stage` step stands for them.
- The release marker and the reasons and dates on campaign rows: they do not decide prices.
- Two jobs working one row at once: a takeover restores the holder's row without claiming it
  (`src/adapters/sales/writer.server.ts:439-446`), so the holder's own restore run, or another takeover, may work that
  row meanwhile. In the model a row that has a plan is left alone by everybody else. It costs the property: the
  takeover goes by a holder listed as `applied` earlier (`src/adapters/sales/writer.server.ts:429-455`). If that row
  has since been restored, staged again and claimed, the takeover finds its original live and records `released` over
  `applying`; its apply job then writes the sale of a row that holds nothing, and the challenger takes that sale's
  price for its original.
- The billing address id beside a partner's id: it is stored and returned with it.
- Two jobs running one import at once: the claim only asks for `queued` or `running`, so the queue must see to it.
- The mirror of written metafields into the catalogue snapshot: it copies outcomes already stated.
- The sentences on allocations, rows and errors: carried as reasons or dropped.
- `markDocumentPaid` and the single `markPaid` of `paymentField`: the ledger form is the one with something to converge.
- The quantity map `lineQuantities` of a document read back: easy.
- `amountString`: refuses numbers the runtime prints with an exponent, which reals do not have.
- JSON text of a choice list in a definition draft: the list itself is kept.
- The unit table behind measurement types: a parameter.
- HTTP, GraphQL, logging, hashing of addresses and time zones.
