# Bullion Ledger: a verified model

This project models the hard parts of Bullion Ledger, a self-hosted ledger for precious metals, and
proves what its code promises. `dafny verify dfyconfig.toml` checks everything.

Amounts are whole numbers of the smallest stored unit: cents for allocated money, 1e-4 for stored
costs, 1e-9 gram for weights. Products and quotients of the decimal library are rounded to 20
significant digits, half up, as its default says (`Decimals.Round20`); stored columns round half to
even. Digests (idempotency keys, request bodies, file contents) are numbers that are equal exactly
when what they digest is equal. Times are milliseconds and steps may carry a time read earlier.

## The parts

| files | what they model |
|---|---|
| `Decimals`, `Money`, `Weights` | decimal rounding, amounts and weights as validated and stored |
| `Quotas`, `Allocation`, `Purchase` | largest-remainder cost allocation and the computation of a purchase |
| `Disposal`, `LotLedger`, `LotEffects`, `LotRuns`, `LotTheorems` | lots, disposals, transfers, edits, gifts and currency relabels as versioned steps that interleave with stale readers |
| `IntakeRows`, `IntakeStore`, `IntakeRuns`, `IntakeInvariants`, `IntakeRowProofs`, `IntakeRunProofs`, `IntakeTheorems`, `IntakeEffects`, `IntakeProgress`, `AssetLimits` | draft intakes, attachments and purchases: the rows, the transactions on them, and every interleaving of the calls |
| `Throttle`, `ThrottleRuns`, `ThrottleTheorems`, `ThrottleLimits` | the login throttle and its overlapping attempts |
| `StepUp`, `StepUpRuns`, `StepUpEffects` | one-shot WebAuthn challenges and the elevation of a session |
| `Bytes`, `BackupFormat` | the backup header and the framing of its entries |
| `JpegScan` | the JPEG dimension scan |
| `Backfill` | days missing from a price history and the runs they are fetched in |
| `Covers` | the primary photo of an item in the client and the cover the server picks |
| `Homography`, `Perspective` | the Gauss-Jordan solver behind the perspective correction, over the reals, and which points have a transform |
| `Pixels`, `Detection` | mask closing, connected components, the chosen component and its crop |

Concurrent parts are state machines: a call is a few reads followed by one transaction, each step is
atomic, what a call has read may be arbitrarily old when it writes, and a conditional update tests its
condition again. Classes (`LedgerStore`, `DraftStore`, `LoginThrottle`, `ChallengeStore`,
`SessionStore`) perform the same updates in place, statement by statement; each method is proved to do
exactly what the function used in the state machine says.

## Where the code and what is said about it differ

- The comment at `packages/shared/src/allocation.ts:200` says the remainder is at most one less than
  the number of items. With quotas rounded to 20 digits it can equal it
  (`Allocation.RemainderReachesCount`); the loop copes, and still hands out every unit.
- A larger basis can get one unit less than a smaller one (`Allocation.LargerBasisCanGetLess`): exactly
  when rounding gives both the same quota, the smaller one comes first, and the remainder runs out
  between the two (`Allocation.LargerBasisGetsLessIff`). Up to 18 digits per basis value it cannot
  happen (`Allocation.LargerBasisNeverLess`).
- Because all amounts are whole cents, the reconciliation branch of a manual allocation
  (`packages/shared/src/allocation.ts:146-152`) never has anything to move.
- A purchase is read without a lock before its currency is relabelled. Of two racing requests the one
  that restates the old currency together with another field leaves lots and purchase with different
  labels (`LotTheorems.RacingRelabelsDisagree`). A relabel keeps them together exactly when it is
  `Harmless`.
- The comment above the entry framing (`apps/api/src/backup/backup-format.ts:103-106`) puts the content
  length behind the name. The code writes and reads it before the name, and so does the model.
- The JPEG scan takes a fill byte before a marker for the marker, and what follows for its length. Fill
  bytes before the frame hide it exactly when their number is not a multiple of 65537
  (`JpegScan.FrameReadIffBlocks`). Before an earlier segment they send the scan to a place that depends
  on marker and length (`JpegScan.FilledSegment`), from which it can still find the frame
  (`JpegScan.FilledSegmentFrame`, `JpegScan.HarmlessFillByte`).
- The threshold below which a pivot counts as zero is absolute, so a system of tiny coefficients is
  refused though it has exactly one solution (`Homography.TinySystemRefused`). What is refused is
  settled by the elimination (`Homography.GaussianElimination`, `Homography.RefusalMeans`).
- The limit of attachments per asset is tested on rows read before the insert. Overlapping uploads exceed
  it (`AssetLimits.RacingUploadsExceed`), by at most one for each that overlaps another
  (`AssetLimits.GiftUploadsBounded`).
- The recovery for a conflict on the unique intake of a purchase is never needed: the lock on the
  intake row rules it out (`IntakeTheorems.LockedIntakeIsUnnamed`).
- No detected component touches the border of the image, so the score is never lowered for that
  (`Detection.ComponentsAvoidBorder`).

## Model

| member | source | states |
|---|---|---|
| Decimals.Round20Error | packages/shared/src/allocation.ts:188-199 | rounding to 20 significant digits moves a value by at most half a unit of the twentieth digit |
| Decimals.Round20Monotone | packages/shared/src/allocation.ts:188-199 | that rounding never reorders two values |
| Decimals.Round20ScaleTen | packages/shared/src/allocation.ts:188-199 | it commutes with powers of ten, so computing in minor units rounds at the same digit |
| Decimals.Round20Exact | packages/shared/src/allocation.ts:188-199 | values of at most 20 digits are left alone |
| Decimals.Round20HalfUp | packages/shared/src/allocation.ts:188-199 | halves of the twentieth digit go up |
| Money.Cents | packages/shared/src/money.ts:75-83 | a valid amount is quantised to the nearest cent and stays within the maximum |
| Weights.QuantizeWeight | packages/shared/src/units.ts:76-95 | a weight is quantised within what the column holds, or refused |
| Weights.FineWeight | packages/shared/src/purity.ts:45-55 | fine weight lies between zero and gross weight in spite of both roundings |
| Weights.GrossIsPieces | packages/shared/src/units.ts:76-95 | gross weight is exactly the weight of one piece times the pieces, and refused exactly when the column cannot hold that |
| Weights.UnitIsMagnitude | packages/shared/src/units.ts:60-69 | the weight of one piece is what was entered, in its unit |
| Weights.FineIsShare | packages/shared/src/purity.ts:45-55 | fine weight is gross weight times purity to half a unit and the twentieth digit |
| Weights.HalfFine | packages/shared/src/purity.ts:45-55 | half of an odd weight goes to the even neighbour |
| Quotas.HamiltonUnique | packages/shared/src/allocation.ts:183-231 | the largest-remainder split of given quotas is determined: floors, one more for the largest fractions, ties by position |
| Quotas.RaisedIffRanked | packages/shared/src/allocation.ts:204-224 | an item gets a remainder unit exactly when fewer items than the remainder are ahead of it |
| Quotas.HamiltonOptimal | packages/shared/src/allocation.ts:183-231 | no integer split of the same total is closer to the quotas |
| Quotas.HamiltonNearlyOptimal | packages/shared/src/allocation.ts:183-231 | towards quotas nearby, the split is within twice their distance of the closest one |
| Quotas.LargerQuotaNeverLess | packages/shared/src/allocation.ts:204-224 | a larger quota never gets the smaller share |
| Quotas.EqualQuotasEven | packages/shared/src/allocation.ts:204-224 | of two equal quotas the earlier one gets the same or one more |
| Quotas.WholeQuotaKept | packages/shared/src/allocation.ts:204-224 | while the quotas add up to more than one unit below the total, an item whose quota is whole gets exactly that |
| Allocation.CodeQuotasClose | packages/shared/src/allocation.ts:188-199 | all roundings together move the quotas by at most 0.103 of a cent |
| Allocation.RemainderInRange | packages/shared/src/allocation.ts:199-203 | the units left after flooring lie between zero and the number of items |
| Allocation.RemainderBelowCount | packages/shared/src/allocation.ts:200-203 | it is below that number whenever the rounded quotas add up to no less than the total |
| Allocation.RemainderReachesCount | packages/shared/src/allocation.ts:200-203 | otherwise the upper end is reached: 10069 cents of basis under the largest total |
| Allocation.LargestRemainderSplit | packages/shared/src/allocation.ts:183-231 | the split returned is the largest-remainder split of the quotas the code computes; the remainder is what flooring left |
| Allocation.HandOut | packages/shared/src/allocation.ts:204-224 | sorting by fraction and the loop over the order hand out exactly the remainder |
| Allocation.SplitIsClosest | packages/shared/src/allocation.ts:183-231 | amounts sum exactly to the total, none is negative, the split is closest to the computed quotas and within 0.206 of a cent of closest to the exact ones |
| Allocation.SplitSharesOut | packages/shared/src/allocation.ts:183-231 | every amount is within 1.11 cents of its proportional part of the total |
| Allocation.ExactSplitIsClosest | packages/shared/src/allocation.ts:183-231 | with exact quotas no split of the same total is closer to them |
| Allocation.ZeroBasisGetsNothing | packages/shared/src/allocation.ts:183-231 | an item without basis gets nothing when some basis is positive |
| Allocation.LargerBasisNeverLess | packages/shared/src/allocation.ts:183-231 | up to 18 digits, a larger basis never gets less |
| Allocation.LargerBasisGetsLessIff | packages/shared/src/allocation.ts:183-231 | for any basis, a larger one gets less exactly when an earlier item has the same rounded quota and the remainder reaches that one only; and by one unit |
| Allocation.LargerBasisCanGetLess | packages/shared/src/allocation.ts:183-231 | such a case |
| Purchase.ResolveCount | packages/shared/src/allocation.ts:162-181 | when the number of items is accepted, and what it is |
| Purchase.AllocateManual | packages/shared/src/allocation.ts:125-160 | manual amounts are accepted exactly when they are valid and sum to the total, and are kept to the cent |
| Purchase.Allocate | packages/shared/src/allocation.ts:72-123 | a request is accepted exactly under the stated conditions; manual amounts are kept, without a basis any two amounts differ by at most a cent with the earlier not the smaller, with a basis every amount is its proportional part to 1.11 cents |
| Purchase.ComputePurchase | apps/api/src/purchases/purchase-domain.ts:88-212 | a purchase is accepted exactly when header, items, weights and allocation are in order; its header total, item weights and costs are those computed |
| Purchase.CostsReconcile | apps/api/src/purchases/purchase-domain.ts:160-196 | for all four methods item costs sum exactly to the total, none is negative, and 0 <= fine <= gross for every item |
| Purchase.EqualCostsEven | apps/api/src/purchases/purchase-domain.ts:160-196 | on request, or when all subtotals or weights are zero, no two costs differ by more than a cent and the earlier item never costs less |
| Purchase.CostInProportion | apps/api/src/purchases/purchase-domain.ts:160-196 | a cost is the item's part of the total by subtotal or fine weight, to 1.11 cents |
| Purchase.TotalIsHeader | apps/api/src/purchases/purchase-domain.ts:99-106 | the total is subtotal, premium, labor, tax, shipping and fees less discount, exactly so for whole cents |
| Purchase.ItemFigures | apps/api/src/purchases/purchase-domain.ts:108-150 | gross weight is unit weight times pieces, fine weight its purity times that, the subtotal what was entered |
| Purchase.AcceptedIsChecked | apps/api/src/purchases/purchase-domain.ts:88-150 | what an accepted purchase has been checked for, field by field |
| Purchase.ComputedMethodsNeverRefuse | apps/api/src/purchases/purchase-domain.ts:160-196 | the three computed methods allocate every total in range |
| Purchase.LargerItemNeverCheaper | apps/api/src/purchases/purchase-domain.ts:160-196 | in a computed purchase a larger line subtotal, or a larger fine weight, never gets the smaller cost |
| Disposal.SplitConserves | apps/api/src/movements/movement-domain.ts:47-98 | what leaves and what remains add up to the balance in all four columns, neither is negative, and an emptied lot holds nothing |
| Disposal.SplitSucceedsIff | apps/api/src/movements/movement-domain.ts:47-72 | a lot can be split exactly for a positive number of pieces it has; all of them take everything |
| Disposal.TakenInProportion | apps/api/src/movements/movement-domain.ts:73-82 | a partial disposal takes of fine weight, gross weight and cost the share of the pieces, to half a unit and x/1e19 |
| Disposal.HalfIsTaken | apps/api/src/movements/movement-domain.ts:73-82 | half of the pieces take half of every column, of an odd amount the even neighbour |
| Disposal.RemainingDrift | apps/api/src/movements/movement-domain.ts:73-97 | after k disposals every column of the lot is within k times (half a unit plus x/1e19) of its proportional part |
| Weights.FineGap | packages/shared/src/purity.ts:22-55 | seven decimals of purity keep the fine weight equal to the gross weight or a ten millionth of it below, up to rounding |
| Disposal.RemainderMonotone | apps/api/src/movements/movement-domain.ts:73-97 | what remains of fine weight never exceeds what remains of gross weight, for weights equal or far enough apart |
| Disposal.OrderedSpaced | apps/api/src/movements/movement-domain.ts:73-97 | every balance the ledger can hold is so: up to a million pieces, purity of seven decimals on entry |
| Disposal.SplitKeepsOrdered | apps/api/src/movements/movement-domain.ts:73-97 | and so is what a disposal leaves, however often |
| Disposal.ExactRemainderMonotone | apps/api/src/movements/movement-domain.ts:73-97 | with an exact product that holds for every weight and share |
| Disposal.CostDrift | apps/api/src/movements/movement-domain.ts:73-97 | after k partial disposals the remaining cost is within k times (half a unit plus cost/1e19) of the proportional cost |
| Disposal.ExactCostDrift | apps/api/src/movements/movement-domain.ts:73-97 | with share and product exact, k partial disposals drift by at most k halves of a unit |
| LotLedger.LedgerStore.UpdateLot | apps/api/src/movements/movements.service.ts:364-372 | a row is written exactly when it still has the version that was read; the count tells |
| LotLedger.LedgerStore.Dispose | apps/api/src/movements/movements.service.ts:303-424 | one disposal: refusals, the new row, the appended movement, nothing else |
| LotEffects.DisposalAcceptedIff | apps/api/src/movements/movements.service.ts:303-372 | written exactly for a held lot nobody touched since it was read, in the version the user saw, with enough pieces and no negative amount |
| LotEffects.DisposalWrites | apps/api/src/movements/movements.service.ts:349-424 | the movement has the kind, the pieces and the proportional figures that left, the lot the rest; an emptied lot ends as its kind says |
| LotLedger.LedgerStore.TransferStorage | apps/api/src/movements/movements.service.ts:97-140 | one transfer: the location moves, the balance does not, one movement is appended |
| LotLedger.LedgerStore.GiftIn | apps/api/src/movements/movements.service.ts:151-227 | metal received as a gift: one held lot, one movement without currency |
| LotEffects.GiftEnters | apps/api/src/movements/movements.service.ts:151-227 | the lot of a gift weighs unit weight times pieces, fine by its purity, and its movement says the same |
| LotLedger.LedgerStore.UpdateAsset | apps/api/src/assets/assets.service.ts:42-243 | one edit under its version: recomputed weights, cost, currency only for lots without a purchase |
| LotEffects.EditLeaves | apps/api/src/assets/assets.service.ts:80-165 | every field named is as named and the others as they were; gross weight from unit weight or by pieces, fine weight whenever a figure behind it is named |
| LotEffects.EditPlannedIff | apps/api/src/assets/assets.service.ts:75-165 | an edit is accepted exactly in the version seen, for a held lot, with figures in range, and no currency on a bought lot |
| LotEffects.ScaledInProportion | apps/api/src/assets/assets.service.ts:112-123 | a new number of pieces scales the gross weight in proportion |
| LotLedger.LedgerStore.UpdatePurchase | apps/api/src/purchases/purchases.service.ts:126-184 | one relabel: lots and booked movements follow exactly when the currency differs from the one read |
| LotEffects.RelabelWrites | apps/api/src/purchases/purchases.service.ts:152-184 | which lots and movements a relabel rewrites, and when only the purchase |
| LotRuns.DisposalShape | apps/api/src/movements/movements.service.ts:349-399 | a disposal that commits read the row as it still is |
| LotRuns.NextKeeps | apps/api/src/movements/movements.service.ts:97-399 | every step of every interleaving keeps conservation, status, labels and the meaning of versions |
| LotTheorems.LedgerConserves | apps/api/src/movements/movement-domain.ts:47-98 | over every run: disposals plus remaining balance equal the opening balance, a lot leaves HELD exactly when nothing remains, bought lots and their movements share a currency |
| LotTheorems.FinishedLotFrozen | apps/api/src/movements/movements.service.ts:316-372 | once a lot has left HELD no step changes its balance or appends a movement to it |
| LotTheorems.ProfitBalances | apps/api/src/movements/movement-domain.ts:106-134 | a sale's profit plus the cost that left is proceeds less fees, to the unit; a loss books its cost; a gift books nothing |
| LotTheorems.RelabelKeepsPurchaseLabels | apps/api/src/purchases/purchases.service.ts:160-184 | a relabel keeps lots and purchase in one currency exactly when it is harmless |
| LotTheorems.HarmlessRunKeepsPurchaseLabels | apps/api/src/purchases/purchases.service.ts:160-184 | in every run whose relabels are harmless each bought lot carries its purchase's currency |
| LotTheorems.RacingRelabelsDisagree | apps/api/src/purchases/purchases.service.ts:152-184 | two racing relabels that leave them apart |
| LotTheorems.RunKeepsFineWithinGross | apps/api/src/assets/assets.service.ts:88-138 | over every run, through purchases, gifts, edits and disposals in any interleaving, every lot has 0 <= fine <= gross |
| LotTheorems.PlannedEditOrdered | apps/api/src/assets/assets.service.ts:130-138 | an edit leaves fine and gross weight in order, restated or not |
| LotTheorems.ComputedItemEnters | apps/api/src/purchases/purchase-domain.ts:108-150 | the items of a computed purchase are lots the ledger takes |
| IntakeStore.DraftStore.TryLockDraftIntake | apps/api/src/purchase-intakes/draft-intake-lock.ts:12-27 | the locking update matches exactly the user's draft and changes no row |
| IntakeStore.DraftStore.Autosave | apps/api/src/purchase-intakes/purchase-intakes.service.ts:89-122 | an autosave is written exactly for a draft that still has the version it carries; otherwise why not |
| IntakeStore.DraftStore.Open | apps/api/src/purchase-intakes/purchase-intakes.service.ts:28-69 | an intake id is created once and returned to its user only |
| IntakeStore.DraftStore.Cancel | apps/api/src/purchase-intakes/purchase-intakes.service.ts:124-155 | only a draft is cancelled; cancelling again answers and writes nothing |
| IntakeStore.DraftStore.IntakeUsage | apps/api/src/attachments/attachments.service.ts:262-277 | the size of all files of an intake, originals and derivatives, soft-deleted ones included |
| IntakeStore.DraftStore.CreateAttachment | apps/api/src/attachments/attachments.service.ts:256-328 | the insert of an upload: draft locked, quota tested, one row with its original |
| IntakeStore.DraftStore.UploadVariant | apps/api/src/attachments/attachments.service.ts:612-712 | the derivative transaction: scope and version tested again, replay by digest, both quotas, next revision; a refusal writes nothing |
| IntakeStore.DraftStore.Review | apps/api/src/attachments/attachments.service.ts:776-818 | the review transaction: scope and version tested again, exactly the requested fields written |
| IntakeStore.DraftStore.SoftDelete | apps/api/src/attachments/attachments.service.ts:846-875 | a row in scope is marked deleted, nothing is removed |
| IntakeStore.DraftStore.ReassignIntakeAttachments | apps/api/src/purchases/purchases.service.ts:781-843 | the loop moves every waiting attachment to its place, or stops at the first that may not move |
| IntakeStore.DraftStore.CreatePurchase | apps/api/src/purchases/purchases.service.ts:322-458 | purchase, assets, reassignment and completion are written together or not at all |
| IntakeRowProofs.UploadKeeps | apps/api/src/attachments/attachments.service.ts:256-328 | an upload keeps ownership, quotas, unique keys and readiness of all rows |
| IntakeRowProofs.DeriveKeeps | apps/api/src/attachments/attachments.service.ts:612-712 | so does a derivative; revisions go on counting |
| IntakeRowProofs.ReviewKeeps | apps/api/src/attachments/attachments.service.ts:723-822 | so does a review checked against an old read, because the version still matches and variants only grow |
| IntakeRowProofs.DeleteKeeps | apps/api/src/attachments/attachments.service.ts:846-875 | so does a deletion |
| IntakeRowProofs.FinalizeKeeps | apps/api/src/purchases/purchases.service.ts:322-458 | so does finalizing a locked draft |
| IntakeRowProofs.LatestIsCount | apps/api/src/attachments/attachments.service.ts:672-697 | the latest revision of a kind is how many there are |
| IntakeRunProofs.OneCallMoves | apps/api/src/attachments/attachments.service.ts:232-328 | a step of one call disturbs nothing another call relies on |
| IntakeRunProofs.NextKeeps | apps/api/src/purchases/purchases.service.ts:206-514 | every step of every interleaving keeps the whole invariant |
| IntakeTheorems.CompletedIffOnePurchase | apps/api/src/purchases/purchases.service.ts:247-264 | over every run an intake is COMPLETED exactly when one purchase, and only one, names it |
| IntakeTheorems.AttachmentsOwned | apps/api/src/attachments/attachments.service.ts:1015-1086 | every attachment has exactly one owner, which exists; nothing live is left on a COMPLETED intake |
| IntakeTheorems.CancelledGainsNothing | apps/api/src/purchase-intakes/purchase-intakes.service.ts:124-155 | a CANCELLED intake stays so and never gains a purchase or an attachment |
| IntakeTheorems.LockedIntakeIsUnnamed | apps/api/src/purchases/purchases.service.ts:494-501 | the inserts of a finalization never meet the unique intake |
| IntakeTheorems.FinalizeMovesEverything | apps/api/src/purchases/purchases.service.ts:781-843 | every live attachment had been confirmed and moves: photos of an item to that item's asset, all else to the purchase |
| IntakeTheorems.FinalizeSucceedsIff | apps/api/src/purchases/purchases.service.ts:781-843 | the rows let a draft be finalized exactly when items are distinct and all live attachments are confirmed and belong to one |
| IntakeEffects.FilesWithinLimits | apps/api/src/attachments/attachments.service.ts:991-1012 | in every reachable state usage is the size of all files of all attachments, deleted ones included, and within the limit; so are number and size of derivatives, though the first checks read stale rows |
| IntakeEffects.UploadAccepted | apps/api/src/attachments/attachments.service.ts:256-277 | an upload to a draft is accepted exactly for its user, while it is a draft, while all its files and the new one fit |
| IntakeEffects.UploadAppends | apps/api/src/attachments/attachments.service.ts:278-328 | it appends one row as it was sent, with its original |
| IntakeEffects.DerivativeAccepted | apps/api/src/attachments/attachments.service.ts:612-672 | a derivative is accepted exactly for the row as it was read and still in scope, when its content is there already or both limits leave room |
| IntakeEffects.DerivativeWrites | apps/api/src/attachments/attachments.service.ts:672-712 | it becomes the next revision of its kind; nothing else changes but the version |
| IntakeEffects.DerivativeAddsItsSize | apps/api/src/attachments/attachments.service.ts:991-1012 | a new derivative raises the usage of its intake by exactly its size, a repeated one by nothing |
| IntakeEffects.DeletionMarks | apps/api/src/attachments/attachments.service.ts:846-875 | a deletion marks the row and leaves every usage as it was |
| IntakeEffects.AutosaveTakesVersionOnce | apps/api/src/purchase-intakes/purchase-intakes.service.ts:89-122 | every version of a draft is saved over at most once, by its user |
| IntakeEffects.CancelIsFinal | apps/api/src/purchase-intakes/purchase-intakes.service.ts:124-155 | a cancellation is final, may be repeated, and stops autosaves |
| IntakeEffects.PurchaseWrites | apps/api/src/purchases/purchases.service.ts:322-458 | a finalization writes its purchase, one held asset per item and the end of its draft; attachments that were not waiting stay |
| IntakeEffects.LockedIntakeLeftAlone | apps/api/src/purchase-intakes/draft-intake-lock.ts:12-27 | while a finalization holds an intake no other call changes it or its attachments, or adds one |
| IntakeEffects.OnlyUploaderChanges | apps/api/src/attachments/attachments.service.ts:1015-1086 | in every run an attachment is changed only by calls of the user who uploaded it, finalizing included |
| IntakeEffects.DerivativeVettedIff | apps/api/src/attachments/attachments.service.ts:540-612 | when a derivative passes the checks before its transaction |
| IntakeEffects.ReviewVettedIff | apps/api/src/attachments/attachments.service.ts:723-775 | when a review passes the checks before its transaction |
| IntakeEffects.ReadyHasItsFile | apps/api/src/attachments/attachments.service.ts:723-822 | in every reachable state what is ready is left as it is or has a file of the sort its mode asks for; mode fits media |
| IntakeProgress.HonestFinalization | apps/api/src/purchases/purchases.service.ts:206-458 | a draft that is in order and that nobody else is finalizing becomes a purchase |
| IntakeProgress.FinalizedAnswersAgain | apps/api/src/purchases/purchases.service.ts:206-264 | finalizing again answers with the same purchase and writes nothing |
| IntakeProgress.CreationAnswersAgain | apps/api/src/purchases/purchases.service.ts:264-300 | a repeated creation answers with its purchase, to the same request only |
| IntakeProgress.HonestUpload | apps/api/src/attachments/attachments.service.ts:195-328 | an upload nothing refuses is stored |
| IntakeProgress.UploadAnswersAgain | apps/api/src/attachments/attachments.service.ts:226-230 | repeated, it answers with its attachment, to the same request only |
| IntakeProgress.HonestDeletion | apps/api/src/attachments/attachments.service.ts:824-875 | a deletion by the uploader deletes |
| IntakeProgress.HonestReview | apps/api/src/attachments/attachments.service.ts:723-822 | a review that passes its checks is written |
| IntakeProgress.HonestDerivative | apps/api/src/attachments/attachments.service.ts:540-712 | so is a derivative that passes its checks and fits |
| IntakeTheorems.RevisionsAreOneToK | apps/api/src/attachments/attachments.service.ts:672-697 | per attachment and kind the revisions are exactly 1..k with distinct digests |
| IntakeTheorems.ReadyHasItsDerivative | apps/api/src/attachments/attachments.service.ts:723-822 | READY means mode NONE or a derivative the mode needs; mode fits media class; a photo is no PDF |
| IntakeTheorems.FinalizationsAgree | apps/api/src/purchases/purchases.service.ts:206-275 | all successful finalizations of one intake return the same purchase, whatever their keys |
| IntakeTheorems.CreationsAgree | apps/api/src/purchases/purchases.service.ts:494-514 | all successful plain creations with one key return the same purchase, for the same request digest only |
| IntakeTheorems.UploadsAgree | apps/api/src/attachments/attachments.service.ts:226-230 | all successful uploads with one key return the same attachment, for the same request only |
| AssetLimits.GiftUploadsBounded | apps/api/src/attachments/attachments.service.ts:405-410 | over every run, an asset received as a gift carries at most the limit, plus one for each upload beyond the first that overlaps another; so without overlap the limit holds |
| AssetLimits.UploadsBounded | apps/api/src/attachments/attachments.service.ts:405-410 | the same from any state on for any asset, whatever it carried before |
| AssetLimits.RacingUploadsExceed | apps/api/src/attachments/attachments.service.ts:405-483 | whatever the limit, with one place left two overlapping uploads leave one attachment more |
| Throttle.BucketKeys | apps/api/src/auth/login-throttle.service.ts:164-170 | one or two different buckets per attempt |
| Throttle.LoginThrottle.ConsumeAttempt | apps/api/src/auth/login-throttle.service.ts:50-72 | admission in place: prune, refresh, wait, then charge every bucket or none |
| Throttle.LoginThrottle.ReleaseAttempt | apps/api/src/auth/login-throttle.service.ts:75-82 | ending an attempt without a verdict |
| Throttle.LoginThrottle.RecordFailedAttempt | apps/api/src/auth/login-throttle.service.ts:84-100 | ending it with a failure, and the lock at the limit |
| Throttle.LoginThrottle.RecordSuccessfulAttempt | apps/api/src/auth/login-throttle.service.ts:102-106 | ending it with a success forgets its buckets; every other one keeps its record and its place |
| Throttle.LoginThrottle.PruneExpired | apps/api/src/auth/login-throttle.service.ts:138-149 | exactly the expired buckets go, the order of the others stays |
| Throttle.LoginThrottle.EvictOne | apps/api/src/auth/login-throttle.service.ts:151-162 | a full map loses its oldest unlocked bucket, or its oldest one |
| ThrottleRuns.MakeRoomKeeps | apps/api/src/auth/login-throttle.service.ts:151-162 | after eviction there is room |
| ThrottleLimits.OldestMakesRoom | apps/api/src/auth/login-throttle.service.ts:151-162 | one bucket goes, the oldest unlocked one or the oldest of all when every one is locked |
| ThrottleLimits.PruneDropsWhatIsOver | apps/api/src/auth/login-throttle.service.ts:138-149 | exactly the buckets go whose lock, or window without a lock, has run out |
| ThrottleLimits.AdmittedIff | apps/api/src/auth/login-throttle.service.ts:50-72 | an attempt is let in exactly when none of its buckets is locked or has as many current failures and attempts under way as the limit |
| ThrottleLimits.AdmissionCharges | apps/api/src/auth/login-throttle.service.ts:69-72 | it is then under way in each of its buckets and in no other |
| ThrottleLimits.LimitAdmits | apps/api/src/auth/login-throttle.service.ts:50-72 | as many attempts as the limit are let in side by side, and no more |
| ThrottleLimits.WaitCoversLocks | apps/api/src/auth/login-throttle.service.ts:54-67 | the wait told covers every lock in the way and no second more than the longest |
| ThrottleLimits.FailureCountsEverywhere | apps/api/src/auth/login-throttle.service.ts:84-100 | a failure counts once against every bucket of the attempt, past windows forgotten, and against no other |
| ThrottleLimits.ReleaseEnds | apps/api/src/auth/login-throttle.service.ts:75-82 | a release ends one reservation per bucket and drops what then counts nothing |
| ThrottleLimits.SuccessClearsFailures | apps/api/src/auth/login-throttle.service.ts:102-106 | after a success fewer further failures than the limit never lock |
| ThrottleRuns.RefusalIsTheLongestWait | apps/api/src/auth/login-throttle.service.ts:50-72 | an attempt is refused exactly when one of its buckets is locked or full, is told the longest wait, and charges nothing |
| ThrottleTheorems.ThrottleStaysSound | apps/api/src/auth/login-throttle.service.ts:50-162 | in every run: failures below the limit, failures plus attempts under way within it, map within its size, no more reserved than under way and nothing once all have ended |
| ThrottleTheorems.LiveLockSurvives | apps/api/src/auth/login-throttle.service.ts:50-162 | a live lock goes, or gets shorter, only through a success on its bucket or when the map is full of locks |
| ThrottleTheorems.LockedRefuses | apps/api/src/auth/login-throttle.service.ts:54-67 | while a lock lasts its bucket admits nothing and the wait covers it |
| ThrottleTheorems.LimitLocks | apps/api/src/auth/login-throttle.service.ts:84-100 | as many failures as the limit within one window lock the bucket for a whole window |
| ThrottleTheorems.ReleaseUndoesCharge | apps/api/src/auth/login-throttle.service.ts:75-82 | a release takes back exactly what the charge did |
| ThrottleTheorems.StepKeeps | apps/api/src/auth/auth.service.ts:74-121 | every admission and every ending, in any overlap, keeps the invariant |
| StepUp.ChallengeStore.Issue | apps/api/src/webauthn/webauthn-challenge.service.ts:33-49 | a fresh row that expires after the time to live |
| StepUp.ChallengeStore.Lookup | apps/api/src/webauthn/webauthn-challenge.service.ts:61-69 | the first read refuses unknown, foreign, used and wrong-purpose challenges |
| StepUp.ChallengeStore.Claim | apps/api/src/webauthn/webauthn-challenge.service.ts:71-79 | the conditional update succeeds exactly for an unused, unexpired row |
| StepUp.ChallengeStore.SweepExpired | apps/api/src/webauthn/webauthn-challenge.service.ts:83-94 | at most once a minute, exactly the used and expired rows go |
| StepUp.SessionStore.MarkReauthenticated | apps/api/src/auth/session.service.ts:142-147 | only the user's own unrevoked session is elevated |
| StepUp.SessionStore.ConsumeReauthentication | apps/api/src/auth/session.service.ts:154-166 | a recent elevation is claimed and cleared in one statement |
| StepUp.SessionStore.RequireReauthentication | apps/api/src/auth/auth.service.ts:217-236 | a supplied password decides alone and spends no elevation |
| StepUpRuns.NextKeeps | apps/api/src/webauthn/passkeys.service.ts:288-330 | every step of issue, redeem, sweep, mark and claim keeps the invariant |
| StepUpRuns.ChallengesRedeemedOnce | apps/api/src/webauthn/webauthn-challenge.service.ts:33-94 | each challenge is redeemed at most once, for its purpose and user, before expiry |
| StepUpRuns.ChangesRestOnPrompts | apps/api/src/auth/session.service.ts:142-166 | every change rests on a mark of its session and user within the validity, and that on a redeemed REAUTH challenge |
| StepUpRuns.ChangesNeverOutnumberPrompts | apps/api/src/webauthn/passkeys.service.ts:295-319 | per user, passkey-authorised changes never outnumber redeemed REAUTH challenges |
| StepUpEffects.RevokedGainsNothing | apps/api/src/auth/session.service.ts:142-166 | over every run a revoked session is never elevated or allowed a change again, whatever was under way |
| StepUpEffects.HonestPromptAllowsChange | apps/api/src/webauthn/passkeys.service.ts:288-330 | a prompt answered in five minutes allows a change asked for within five more |
| StepUpEffects.SweepSparesTheUsable | apps/api/src/webauthn/webauthn-challenge.service.ts:83-94 | exactly used and expired challenges are swept, so who can claim one later finds it |
| Bytes.ValueOfBigEndian | apps/api/src/backup/backup-format.ts:112-122 | a big-endian field reads back the number written |
| Bytes.BigEndianOfValue | apps/api/src/backup/backup-format.ts:128-146 | and writes back the bytes read |
| Bytes.HighByteFirst | apps/api/src/backup/backup-format.ts:128-146 | the first byte of a field is the high one |
| BackupFormat.DecodeEntries | apps/api/src/backup/backup-format.ts:128-166 | the parsing loop computes the reading of the whole payload, error by error |
| BackupFormat.EntriesRoundTrip | apps/api/src/backup/backup-format.ts:112-166 | encoded entries come back exactly when all are named and their contents fit the cap |
| BackupFormat.AcceptedReencodes | apps/api/src/backup/backup-format.ts:128-166 | any accepted payload re-encodes byte for byte and keeps the limits |
| BackupFormat.TruncationRefused | apps/api/src/backup/backup-format.ts:132-150 | a payload cut short is accepted exactly when the cut is between entries |
| BackupFormat.EncodedLength | apps/api/src/backup/backup-format.ts:112-122 | a payload is ten bytes per entry, the names and the contents |
| BackupFormat.EntryLayout | apps/api/src/backup/backup-format.ts:112-122 | the order and size of the fields of an entry |
| BackupFormat.WriteHeader | apps/api/src/backup/backup-format.ts:44-56 | the buffer holds the fields in order, cut to its size |
| BackupFormat.HeaderRoundTrip | apps/api/src/backup/backup-format.ts:44-101 | a header is read back as written exactly when it is proper |
| BackupFormat.AcceptedHeaderReencodes | apps/api/src/backup/backup-format.ts:65-101 | an accepted header is proper and re-encodes to the bytes it came from |
| BackupFormat.HeaderLayout | apps/api/src/backup/backup-format.ts:44-101 | where each field of a header stands, and the exact ranges in which it is accepted |
| JpegScan.JpegDimensions | apps/api/src/attachments/file-validation.ts:102-125 | the loop ends on every byte array, stays inside it, and computes the scan |
| JpegScan.ScanFindsFrame | apps/api/src/attachments/file-validation.ts:102-131 | behind any passed segments the scan returns exactly the X and Y of the frame |
| JpegScan.FileDimensions | apps/api/src/attachments/file-validation.ts:102-131 | the same for a whole file with any tail |
| JpegScan.SizeComesFromFrame | apps/api/src/attachments/file-validation.ts:102-125 | a size is only ever read from a whole frame header inside the file |
| JpegScan.NothingBehindScanHeader | apps/api/src/attachments/file-validation.ts:112 | a file whose compressed data starts before any frame has no dimensions, whatever follows |
| JpegScan.FrameReadIffBlocks | apps/api/src/attachments/file-validation.ts:105-118 | for all segments, frames and tails, the frame behind k fill bytes is the one read exactly when k is a multiple of 65537 |
| JpegScan.FillLeadsAstray | apps/api/src/attachments/file-validation.ts:105-118 | any other number of fill bytes before a marker sends the scan past that marker, to a place given by marker and length |
| JpegScan.FilledSegment | apps/api/src/attachments/file-validation.ts:105-118 | where the scan of a file goes on whose segment has k fill bytes before its marker |
| JpegScan.FileReadIffWalked | apps/api/src/attachments/file-validation.ts:102-125 | whatever bytes stand between the start of the image and a frame, the frame is the one read exactly when the scan walks through them to their end |
| JpegScan.FilledSegmentFrame | apps/api/src/attachments/file-validation.ts:104-118 | for k fill bytes before any segment and any bytes behind it, the frame that follows is the one read exactly when the scan walks on from where marker and length send it |
| JpegScan.HarmlessFillByte | apps/api/src/attachments/file-validation.ts:104-118 | with one fill byte before the last segment the frame is read only if marker and high byte of the length spell no more than that length plus one, and is read then if no byte 0xff stands in between |
| Backfill.EachUtcDay | apps/api/src/market-prices/market-prices.service.ts:437-447 | the days of a span, inclusive, in order |
| Backfill.MissingHistoryDays | apps/api/src/market-prices/market-prices.service.ts:344-366 | in order, exactly the days of the span on which no queried row falls |
| Backfill.CoveredExactly | apps/api/src/market-prices/market-prices.service.ts:351-358 | before the last day any row covers its day; on the last day only rows up to the end instant |
| Backfill.ContiguousRanges | apps/api/src/market-prices/market-prices.service.ts:457-478 | the ranges spell out the days, none is empty, no two neighbours could be one |
| Backfill.RunsUnique | apps/api/src/market-prices/market-prices.service.ts:457-478 | only one list of ranges does that, so the runs are the longest |
| Backfill.BackfillHistory | apps/api/src/market-prices/market-prices.service.ts:311-341 | each missing day is asked for exactly once, no other day is; requested plus skipped days are all days |
| Covers.NormalizePrimaryPhotos | apps/web/src/purchase-wizard/model.ts:183-200 | the two loops mark, for every target, the photo that stands for it |
| Covers.OneMarkedIff | apps/web/src/purchase-wizard/model.ts:183-200 | a target ends with exactly one primary exactly when the chosen id belongs to one photo |
| Covers.OnePrimaryPerTarget | apps/web/src/purchase-wizard/model.ts:182-200 | with distinct ids every target with photos has exactly one primary |
| Covers.NormalizationKeeps | apps/web/src/purchase-wizard/model.ts:183-200 | nothing but marks of photos changes, and the first mark of a target stays |
| Covers.PrimaryIsFirst | apps/web/src/purchase-wizard/model.ts:183-200 | the primary of a target is its first marked photo, or its first one when none is marked |
| Covers.NormalizationIdempotent | apps/web/src/purchase-wizard/model.ts:183-200 | normalising twice changes nothing more |
| Covers.SetPrimaryChooses | apps/web/src/purchase-wizard/model.ts:202-216 | the chosen photo becomes the one primary of its target, other targets keep theirs |
| Covers.RetargetSettles | apps/web/src/purchase-wizard/model.ts:218-231 | a moved photo stays primary if it was, and every target with photos has one primary again |
| Covers.OnlyItsTargetMoves | apps/web/src/purchase-wizard/model.ts:218-231 | only the photo that is moved changes its target |
| Covers.RemoveItemSettles | apps/web/src/purchase-wizard/model.ts:158-176 | removing an item leaves no photo on it and one primary per target |
| Covers.RemovingFreesItsPhotos | apps/web/src/purchase-wizard/model.ts:158-176 | exactly the photos of the item go to the purchase |
| Covers.NormalizedCoverAttachmentIds | apps/api/src/purchases/purchases.service.ts:878-901 | the loop keeps, per item, the first upload of highest priority |
| Covers.CoverIsFirstBest | apps/api/src/purchases/purchases.service.ts:892-898 | no upload of the item has a higher priority, and none as high comes before |
| Covers.CoverSort | apps/api/src/purchases/purchases.service.ts:878-901 | a marked cover before a front photo before any other, the first of its sort |
| Covers.ServerPicksThePrimary | apps/web/src/purchase-wizard/media-utils.ts:191-216 | for a normalised draft the server's cover is the client's primary, whatever the order of uploads |
| Homography.FindPivot | apps/web/src/purchase-wizard/media-utils.ts:350-353 | the first row of largest entry, from the diagonal on |
| Homography.PlacePivot | apps/web/src/purchase-wizard/media-utils.ts:357-361 | swap and division in place, as the function used in the proofs |
| Homography.PlacedKeeps | apps/web/src/purchase-wizard/media-utils.ts:357-361 | swap and division keep the solutions and put a one on the diagonal |
| Homography.ClearColumn | apps/web/src/purchase-wizard/media-utils.ts:362-368 | the eliminations in place, as the function used in the proofs |
| Homography.EliminatedKeeps | apps/web/src/purchase-wizard/media-utils.ts:349-369 | a column with a usable pivot is cleared and the solutions stay |
| Homography.GaussianElimination | apps/web/src/purchase-wizard/media-utils.ts:347-371 | a system is refused exactly when its own elimination meets a column without a usable pivot; otherwise the result is its only solution |
| Homography.SolvedUnlessRefused | apps/web/src/purchase-wizard/media-utils.ts:347-371 | whatever has no solution, or several, is refused |
| Homography.RefusalMeans | apps/web/src/purchase-wizard/media-utils.ts:354-356 | at the first column without a pivot the system left says the same as the one given; were its pivots zero, the one given would have no unique solution |
| Homography.SolvedNotRefused | apps/web/src/purchase-wizard/media-utils.ts:347-371 | a solved system is not refused |
| Homography.TinySystemRefused | apps/web/src/purchase-wizard/media-utils.ts:354-356 | diagonal systems of tiny coefficients have one solution and are refused |
| Homography.SolveHomography | apps/web/src/purchase-wizard/media-utils.ts:311-345 | refused exactly when the elimination of the eight equations is; otherwise each source point goes exactly to its target where the denominator passes, and no other transform with last coefficient 1 fits |
| Homography.ProjectsIff | apps/web/src/purchase-wizard/media-utils.ts:373-381 | a point goes to its target exactly when the two equations of the pair hold |
| Homography.ProjectionIs | apps/web/src/purchase-wizard/media-utils.ts:373-381 | both coordinates are numerators over the common denominator, unless that is close to zero |
| Perspective.RectangleSettled | apps/web/src/purchase-wizard/media-utils.ts:296-308 | the corners of the output have exactly one transform, in closed form, when width and height are not zero and the last three marked corners are not on one line; otherwise they are refused |
| Perspective.LineThroughOriginRefused | apps/web/src/purchase-wizard/media-utils.ts:311-345 | three source points on a line through the origin are refused, whatever their targets |
| Perspective.LineRefusedOrUnusable | apps/web/src/purchase-wizard/media-utils.ts:311-345 | three source points on any other line: no solution that is the only one projects any of the three |
| Perspective.LineCanBeSolved | apps/web/src/purchase-wizard/media-utils.ts:311-345 | points on such a line whose equations do have exactly one solution |
| Pixels.NextToSymmetric | apps/web/src/purchase-wizard/auto-detection.ts:234-241 | neighbours are inside the image and mutual |
| Pixels.NextToIff | apps/web/src/purchase-wizard/auto-detection.ts:234-241 | the neighbours of a pixel are exactly those one column or one row away |
| Pixels.SameClass | apps/web/src/purchase-wizard/auto-detection.ts:136-159 | connected pixels have the same four-connected class |
| Pixels.ClosedIsClass | apps/web/src/purchase-wizard/auto-detection.ts:136-159 | reached pixels without a set neighbour outside are a whole class |
| Detection.CloseMask | apps/web/src/purchase-wizard/auto-detection.ts:208-232 | the two passes compute exactly three-of-nine and then four-of-nine on interior pixels |
| Detection.ClosingIs | apps/web/src/purchase-wizard/auto-detection.ts:208-232 | a closed pixel is off the border with four set pixels of the grown mask at most one column and row away; a grown one with three of the mask |
| Detection.MinimumAreaIs | apps/web/src/purchase-wizard/auto-detection.ts:101-174 | which sizes of component are kept |
| Detection.Expand | apps/web/src/purchase-wizard/auto-detection.ts:154-158 | one step of the search visits exactly the unvisited set neighbours |
| Detection.Fill | apps/web/src/purchase-wizard/auto-detection.ts:138-159 | the search ends, lists one whole class without repetition, in a tight box, and marks just that class |
| Detection.LabelComponents | apps/web/src/purchase-wizard/auto-detection.ts:130-172 | components are whole, disjoint classes of enough pixels, and every class of enough pixels is one |
| Detection.ChooseBest | apps/web/src/purchase-wizard/auto-detection.ts:173 | the first component of the highest score |
| Detection.DetectForegroundComponent | apps/web/src/purchase-wizard/auto-detection.ts:101-174 | all of this for the closed mask; images under eight pixels a side give nothing |
| Detection.ComponentsAvoidBorder | apps/web/src/purchase-wizard/auto-detection.ts:208-232 | no component reaches the first or last row or column |
| Detection.CropShowsComponent | apps/web/src/purchase-wizard/auto-detection.ts:32-52 | the crop lies in the unit square and shows every pixel of the component whole |
| Detection.CropIsPaddedBox | apps/web/src/purchase-wizard/auto-detection.ts:32-52 | on every side it reaches exactly the padding beyond the box, 0.055 of its length to the nearest and at least two pixels, unless the image ends first |

## Left out

- Allocation.LargerBasisNeverLess: asks for at most 18 digits per basis value; beyond that `LargerBasisGetsLessIff` says exactly what happens.
- LotLedger.LedgerStore.GiftIn: the market valuation of what is received is an input.
- Throttle.BucketKeys: takes account and address as already normalised.
- ThrottleLimits.AdmissionCharges: while the map has room for the buckets of the attempt, as does `FailureCountsEverywhere`; in a full map one of them can be evicted for the other.
- IntakeProgress.HonestFinalization: one call advanced without others in between; with others `IntakeTheorems` says what cannot go wrong.
- Allocation.SplitIsClosest: measures closeness to the exact quotas up to 0.206 of a cent when rounding moved them; without rounding it is exact.
- Disposal.CostDrift: adds cost/1e19 per disposal to the half unit, for the rounding of share and product; without it `ExactCostDrift` gives the half unit alone.
- Homography.SolveHomography: over the real numbers; floating-point error is not part of the model, nor is the size of the corrected output. Which sets of source points have a transform is settled for the rectangles the application hands in.
- Detection.DetectForegroundComponent: the foreground mask and the score of a component are inputs; border statistics, colour distance and confidence are not modelled.
- StepUpRuns.ChangesNeverOutnumberPrompts: counts passkey-authorised changes only; a change allowed by password needs no prompt.
- ThrottleTheorems.ThrottleStaysSound: both callers are represented by what they do to the throttle, one start and one end per attempt; the branches that lead to that one end, users, passwords and sessions are not part of it.
- IntakeTheorems.UploadsAgree: object storage is not modelled; orphan removal after a failed upload is left out.
- Backfill.BackfillHistory: what the provider returns and how quotes are stored is left out.
- Covers of attachments on finalized assets (clearing other covers on upload or review) and descriptive attachment fields.
- Catalog products, organizations and the derivation inside a finalization: any failure there is the step that aborts a call.
- Market valuation of gifts and disposals, proceeds beyond net amount and realized profit or loss, dashboard totals, audit records.
- Hashing, encryption, compression, signature verification, text normalisation and date parsing.
- Controllers, presenters, queues, storage, the service worker and all screens.
