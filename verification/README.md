# A verified model of the payment gateway's money

The gateway takes shielded ZEC payments for merchants, charges them a fee, and lets buyers pay through a
cross-chain swap provider. This project models the part of it that decides who owes what to whom, and proves
what its SQL statements, clips and conflict clauses keep true together. Every amount is an integer of the
smallest unit. A database transaction is one step. Where the source runs several unprotected statements, the
files named below take them apart: receipts (insert, sum, apply), opening a cycle (look, sum, insert, zero), the
overdue and suspension passes (fetch, write, write), resolving a payment as direct (claim, bill, mark), referral
passes (fetch, accrue one by one). `BillingRuns.dfy` takes opening, overdue and suspension as whole steps;
`LateWrites.dfy` says exactly when that is justified.

- `Sums.dfy`, `Text.dfy`: what `SUM` over a keyed table means and how it moves when a row is written; order,
  trimming, lower-casing, byte length and colon-separated keys of text.
- `Books.dfy`, `BooksInvariant.dfy`, `CycleWorkflow.dfy`, `Settlements.dfy`, `BillingRuns.dfy`: ledger entries,
  receipts, billing cycles, settlement invoices and merchants; the meaning of every transaction on them; the
  invariant all of them keep; the greedy settlement; whole runs.
- `MerchantDebt.dfy`: what a merchant owes on its cycles against what its entries have left to collect.
- `SettlementInvoices.dfy`, `SettlementReach.dfy`: until when paying a settlement invoice settles its cycle, and
  which entries some later settlement can still pay.
- `ConcurrentReceipts.dfy`: any number of receipt calls split into insert, sum and apply, interleaved.
- `LateWrites.dfy`: the statements of opening, overdue and suspension passes, overlapping with each other and with
  all other billing work.
- `FailingRuns.dfy`, `OverlapRuns.dfy`: runs from a fresh database in which a promise fails.
- `SwapFees.dfy`: deferred obligations, fee states and settlements of swapped payments, with reconciliation
  workers that overlap and crash between their statements.
- `Store.dfy`: a `Database` class whose methods are the program's transactions and passes with their loops, each
  proved against the meaning given in the files above.
- `CreditEvents.dfy`, `FeeProofs.dfy`, `FeeTerms.dfy`, `Deliveries.dfy`: reading fee credits, owning the proofs
  of collection, the agreed fee split, and matching reported deliveries with what the scanner saw.
- `SwapAttempts.dfy`: one swap per invoice across browsers and crashes, and the wallet send lock.
- `Referrals.dfy`, `ReferralRuns.dfy`: the accrual program and its reconciler against the declarative join, and
  whole runs of them with collections, confirmations, refunds and any number of reconcilers.
- `Csv.dfy`, `InvoiceIndex.dfy`, `Migrations.dfy`, `X402.dfy`: the invoice export against a reader of section 2
  of RFC 4180, the payment index against a scan, startup migrations under crashes, and x402 settlement.

## Where the code is weaker than one might expect

For each of these there is a concrete run or input that fails, and an exact condition for when the code does meet
the promise.

- "A merchant's outstanding equals what its entries have left to collect." `MerchantDebt.LawHoldsIff`: it holds
  throughout a run exactly when every charge found an open cycle, every collection was at most its cycle's balance,
  and every settlement handed out exactly the balance it wiped out. `BillingRuns.LateReceiptStrandsDebt` breaks it
  with a late receipt after a carry-over, `MerchantDebt.UnbilledCharge` with a charge alone.
- "Every fee is billed." `MerchantDebt.OnACycleIff`: a fee is on a cycle exactly when its merchant had an open one
  when it was charged (src/crosschain/fees.rs:642 opens none, and src/scanner/mod.rs:1017-1019 only logs a failure
  to); `MerchantDebt.UnbilledCharge` is one that is not. `SettlementReach.ReachIff`: some later settlement can pay it
  exactly when it is on a cycle that is not paid and has something left. `FailingRuns.SettledShort` pays an invoice
  in full and leaves the rest of a newer fee out of reach, for good (`SettlementReach.OutOfReachForGood`).
- "Once receipt calls finish, collected is the smaller of fee and receipts." `ConcurrentReceipts.AllReceiptsCount`:
  exactly when the last settlement that paid the entry in between was harmless, which can be read off before it.
  `FailingRuns.ReceiptIsLost` is a run in which it was not.
- "An invoice is billed or settled, never both." `SwapFees.ExclusiveIff`: exactly when no delivery is committed for
  an invoice once it is billed. A public fee is not looked at again when a delivery is committed, and
  `SwapFees.TwoWorkersClash` is such a run. A confidential fee is, but it is marked only after it is billed: it
  fails only if a delivery is committed inside a resolution that was begun and not completed
  (`SwapFees.ConfidentialIsSafe`), as in `SwapFees.InterruptedResolution`, where a crash comes in between.
- "Collected, direct and provider-handled are final." `SwapFees.FinalIff`: exactly when no credit is recorded over a
  fee meanwhile marked direct. `SwapFees.CollectedOverDirect` breaks it while exclusivity holds. One reconciliation
  at a time rules this out, and with completed resolutions the item before as well (`SwapFees.LeasedIsSafe`); the
  program's ten-minute lease (src/crosschain/fees.rs:705-708) can be reset by an operator
  (src/crosschain/operations.rs:46), and nothing here relies on it.
- "Paying a settlement invoice settles a cycle." `SettlementInvoices.InvoiceSettlesIff`: exactly when its cycle was
  open when the invoice was made and has since neither been settled nor been carried over for owing less than the
  minimum once its grace was over. `FailingRuns.PaidForNothing` pays a second requested invoice, and
  `FailingRuns.PaidTooLate` pays a linked one after the carry-over; nothing can then be settled.
- "The billing pass (src/main.rs:210) and the settlement check (src/scanner/mod.rs:150) can run side by side."
  `LateWrites.BooksStayRightIff`: the books stay right exactly when no cycle was opened between looking and
  inserting, the fetched row may still take the status written to it, and a merchant held back still has a late
  cycle; `LateWrites.OpeningConservesIff`: debt is neither made nor lost exactly when the sum read is still what is
  zeroed. `OverlapRuns.OpenedTwice` opens two cycles and doubles a debt; `OverlapRuns.MarkedAfterPaying` makes a paid
  cycle settleable again with the same invoice.
- "A referred, collected fee earns its referrer a reward." `ReferralRuns.EarnedIff`: exactly when a reconciler came
  to it while its invoice was confirmed; one refunded before that never earns.
- `Csv.FileReadsBack`: the export's header line ends in a bare line feed, so a reader that insists on CRLF accepts
  the rows but not the file. `Csv.ConfusedValues`: which two values the export writes alike.
- `FeeTerms.ModeMatters`: rebuilding stored fee terms in the other confidentiality mode accepts the agreed fee
  list only for four particular fees.
- `Referrals.ColonsCollide`: receipt keys are distinct because invoice ids hold no colon, not by their form alone.
- `Migrations.StuckForGood`: a row left running stops every later startup even if its body had finished.

## Model

| member | source | states |
|---|---|---|
| BooksInvariant.LiveBalance | src/billing/fee_ledger.rs:132-148 | a live cycle owes its carried-in debt plus what its entries still owe, which is at least each entry's remainder: the clip at zero cannot bite on it |
| BooksInvariant.ColumnWrite | src/billing/fee_ledger.rs:76-92 | rewriting one entry moves a cycle's total by that entry's own change and no other |
| BooksInvariant.InsertEntryKeeps | src/billing/fee_ledger.rs:58-92 | charging a fee, first time or replayed, keeps every balance, receipt bound, bill and standing |
| BooksInvariant.InsertReceiptKeeps | src/billing/fee_ledger.rs:121-122 | storing a receipt keeps the invariant and no invoice's receipts shrink |
| BooksInvariant.ApplyCollectedKeeps | src/billing/fee_ledger.rs:132-149 | applying any sum not above today's receipts, however stale, keeps the invariant |
| CycleWorkflow.EnsureCycleKeeps | src/billing/mod.rs:111-200 | opening a cycle and absorbing carried-over debt without interruption keeps the invariant, one open cycle per merchant included |
| CycleWorkflow.CarryOverConserves | src/billing/mod.rs:145-188 | no merchant's total outstanding changes when carried-over debt moves into a new cycle in an uninterrupted call |
| CycleWorkflow.InvoiceKeeps | src/billing/mod.rs:296-323 | invoicing a cycle at its debt keeps the invariant: price covers debt, at least a week of grace from the clock read before the invoice is stamped, one cycle per bill |
| CycleWorkflow.CloseCycleKeeps | src/billing/mod.rs:278-323 | closing a cycle as paid, carried over or invoiced keeps the invariant |
| CycleWorkflow.RequestSettlementKeeps | src/api/billing_routes.rs:164-186 | a merchant's own early settlement keeps the invariant |
| CycleWorkflow.RequestedInvoiceIsLinkedIff | src/api/billing_routes.rs:164-186 | a requested invoice, priced at the debt, is linked to a cycle if and only if the cycle was still open |
| FailingRuns.PaidForNothing | src/api/billing_routes.rs:164-186 | a run: the settlement is requested twice, the second invoice is paid in full, and no cycle is settleable |
| SettlementInvoices.InvoiceSettlesIff | src/billing/mod.rs:597-616 | in every later state of a run, a closing or requested invoice is there to settle a cycle if and only if it is paid in full, its cycle was open when it was made, and no step since settled that cycle or carried it over |
| SettlementInvoices.NextMoves | src/billing/mod.rs:393-464 | a billed cycle stays billed through every transaction but one that settles it or carries it over, and a paid or carried-over cycle never moves again |
| FailingRuns.PaidTooLate | src/billing/mod.rs:400-404 | a run: a linked invoice is paid in full after a receipt brought its cycle under the minimum and the cycle was carried over; no cycle is settleable |
| CycleWorkflow.OverdueKeeps | src/billing/mod.rs:400-420 | past-due and carried-over marking, decided on today's row, keeps the invariant; a merchant is late only with a late cycle |
| CycleWorkflow.SuspendKeeps | src/billing/mod.rs:444-464 | suspension, decided on today's row, keeps the invariant |
| Settlements.PayoutShares | src/billing/mod.rs:630-649 | the greedy loop gives each row exactly its closed-form share, the budget left after all older rows up to its own debt, and touches nothing else |
| Settlements.PayoutTotal | src/billing/mod.rs:630-649 | the loop hands out exactly the smaller of the budget and the rows' debt |
| Settlements.SettleKeeps | src/billing/mod.rs:611-654 | a settlement keeps the invariant and restores the merchant |
| Settlements.SettlementIsExact | src/billing/mod.rs:621-649 | all collections together rise by the smaller of the invoiced price and the eligible debt, and the price covers the cycle's balance |
| Settlements.OldestFirst | src/billing/mod.rs:627-634 | an entry receives anything only if every older eligible entry is then fully collected |
| Settlements.SettlementCompletes | src/billing/mod.rs:612-649 | every eligible entry ends fully collected exactly when the eligible debt fits the price; a second run finds nothing to do |
| Settlements.CarriedDebtFits | src/billing/mod.rs:627-629 | the debt fits the price whenever remainders of older cycles are at most what this cycle carried in |
| Settlements.SettleStaysExact | src/billing/mod.rs:636-648 | a settlement leaves collected equal to the smaller of fee and receipts wherever it was |
| Settlements.SettlePays | src/billing/mod.rs:630-649 | an entry's closed-form share is added to what it collected and to what it received, and nothing else of it changes |
| BillingRuns.RunKeeps | src/billing/mod.rs:257-654 | every state of every run keeps the whole invariant, each pass taking its row or its merchant without interruption |
| BillingRuns.ReachableBooks | src/billing/mod.rs:257-654 | states reachable so: exact balance of live cycles, collections within fee and receipts, invoiced debt within price, late or blocked merchants have a late cycle |
| LateWrites.WholeOpening | src/billing/mod.rs:111-188 | look, sum, insert and zero, one after the other, are the opening of the whole-step runs |
| LateWrites.InsertIff | src/billing/mod.rs:145-182 | inserting a cycle with any carried sum read earlier keeps the invariant if and only if no cycle was opened meanwhile |
| LateWrites.OpeningConservesIff | src/billing/mod.rs:145-188 | what the insert adds to a merchant's debt and the later zeroing takes off cancel if and only if nothing was carried or the sum read is still the carried-over debt |
| LateWrites.BillingWriteIff | src/billing/mod.rs:405-454 | writing past due or suspended on any later state of the row keeps the invariant if and only if it is still billed, or looks billed and nothing was paid out for it |
| LateWrites.CarryWriteIff | src/billing/mod.rs:400-404 | writing carried over on any later state of the row keeps the invariant if and only if nothing was paid out for it and its merchant is not held for it alone |
| LateWrites.StandingWriteIff | src/billing/mod.rs:407-463 | holding a merchant back keeps the invariant if and only if it still has a late cycle |
| LateWrites.InTimeKeeps | src/billing/mod.rs:111-464 | however passes overlap, crash and mix with whole transactions, the invariant holds in every state before the first late write |
| LateWrites.BooksStayRightIff | src/billing/mod.rs:111-464 | the invariant holds throughout such an overlap if and only if every write came in time |
| OverlapRuns.OpenedTwice | src/billing/mod.rs:116-188 | a run and an overlap: two openings that both read before either writes leave two open cycles and an outstanding of 2 for an uncollected 1 |
| OverlapRuns.MarkedAfterPaying | src/billing/mod.rs:393-417 | a run and an overlap: a row fetched before its settlement is marked past due after it, so the paid cycle is settleable with the same invoice and its sums are wrong |
| BillingRuns.CollectedNeverFalls | src/billing/fee_ledger.rs:137-140 | over any run an entry keeps fee, merchant and cycle, and its collections never fall |
| BillingRuns.ReceiptIsExact | src/billing/fee_ledger.rs:112-130 | recording a receipt makes collected the smaller of fee and receipts |
| BillingRuns.SequentialRunsStayExact | src/billing/fee_ledger.rs:112-149 | with receipts recorded one call at a time, that equality survives any run, settlements included |
| BillingRuns.SuspensionIsLate | src/billing/mod.rs:301-314 | in any timed run a cycle is suspended only more than 14 days after its invoicing began, the clock reading from which grace counts; the invoice is stamped then or later |
| BillingRuns.CreditLands | src/billing/fee_ledger.rs:141-145 | a collection lowers its cycle's balance in full exactly when the balance is at least as large, as it always is on a live cycle |
| BillingRuns.LateReceiptStrandsDebt | src/billing/fee_ledger.rs:142-144 | a run after which nothing is uncollected and the merchant still owes 1 |
| MerchantDebt.NextDrift | src/billing/mod.rs:257-654 | every transaction moves a merchant's outstanding less its uncollected by a stated amount: minus the fee of a charge without an open cycle, plus what a collection strands, plus payout less wiped balance of a settlement, else nothing |
| MerchantDebt.DriftIsSum | src/billing/mod.rs:257-654 | in every reachable state that gap is the sum of those amounts along the run |
| MerchantDebt.LawHoldsIff | src/billing/fee_ledger.rs:58-149 | outstanding equals uncollected throughout a run if and only if every transaction met its condition |
| MerchantDebt.KeepsLawIff | src/billing/fee_ledger.rs:137-145 | the condition of each transaction holds exactly when its amount is zero |
| MerchantDebt.OnACycleIff | src/billing/fee_ledger.rs:58-62 | in every later state an entry is on the cycle that was open for its merchant when it was charged, and on none if and only if there was none |
| MerchantDebt.UnbilledCharge | src/crosschain/fees.rs:641-642 | a run of one charge after which 1 is uncollected, 0 is owed, and the entry stands in no cycle |
| SettlementReach.ReachIff | src/billing/mod.rs:621-649 | some run from here ends with a settlement that pays the entry if and only if something is left of it and its own cycle is not paid |
| SettlementReach.OutOfReachForGood | src/billing/mod.rs:627-628 | an entry fully collected, without a cycle or on a paid cycle stays so, and every later settlement gives it nothing |
| SettlementReach.BillableIff | src/billing/fee_ledger.rs:58-62 | over runs, a charged fee can still be settled if and only if its merchant had an open cycle then, that cycle is not paid, and something is left |
| FailingRuns.SettledShort | src/billing/mod.rs:627-649 | a run: a paid settlement gives an older carried-over fee all but 1, and the newer one is left uncollected on a paid cycle, out of reach of any later settlement |
| ConcurrentReceipts.AllReceiptsCount | src/billing/fee_ledger.rs:112-149 | however receipt calls interleave with each other and with all other billing work, once they are done an entry has collected exactly the smaller of its fee and its distinct receipts, if and only if the last settlement that paid it, if any, was harmless |
| ConcurrentReceipts.PaymentUpToDate | src/billing/mod.rs:630-649 | after a settlement pays an entry, pending calls will bring it up to date if and only if one has not summed yet, or holds a sum covering the fee, or the entry was up to date, or the payment completes it |
| FailingRuns.ReceiptIsLost | src/billing/fee_ledger.rs:123-128 | a run and an interleaving in which a settlement between sum and apply leaves collected at 2 of 3 received |
| ConcurrentReceipts.CreditsMatchCollections | src/billing/fee_ledger.rs:136-145 | over any interleaving a cycle none of whose entries is settled is credited exactly what they newly collected |
| ConcurrentReceipts.StaleSum | src/billing/fee_ledger.rs:123-140 | a sum applied late leaves the entry exact if and only if it still reaches the smaller of fee and receipts or the entry was exact before |
| ConcurrentReceipts.PlayKeeps | src/billing/fee_ledger.rs:121-148 | the invariant holds after every step, and no worker's sum runs ahead of the receipts |
| Store.Database.CreateFeeEntry | src/billing/fee_ledger.rs:38-93 | settled invoices are left alone, unresolved swaps deferred, others charged once to the open cycle |
| Store.Database.ApplyReceived | src/billing/fee_ledger.rs:132-149 | the transaction's new tables, and the invariant |
| Store.Database.RecordDirectReceipt | src/billing/fee_ledger.rs:112-130 | refuses empty receipts; otherwise the entry ends exactly up to date |
| Store.Database.CloseOne | src/billing/mod.rs:278-323 | closing one expired cycle, with the clock read for the grace period and again for the invoice |
| Store.Database.EnsureBillingCycle | src/billing/mod.rs:111-200 | an uninterrupted call: one open cycle, the tier's length, all carried-over debt absorbed |
| Store.Database.CloseExpired | src/billing/mod.rs:270-350 | after the pass every expired open cycle is closed as what it owed demands, an invoice priced at exactly its debt; its merchant has an open cycle; other cycles are as they were or, carried over, emptied; no merchant's total debt moves |
| Store.Database.MarkOverdueCycles | src/billing/mod.rs:392-421 | the pass fetches its rows first and writes what it decided on them: the new row of every cycle, and of every merchant the standing demanded by one of its cycles past grace, or its own if it has none |
| Store.Database.SuspendCycles | src/billing/mod.rs:438-464 | the pass fetches its rows first and decides on them by its merchant's tier: the new row of every cycle, and exactly the merchants with a cycle suspended now are blocked |
| Store.Database.QueryEligible | src/billing/mod.rs:627-629 | every eligible entry of the cycle and of carried-over ones, once, oldest first |
| Store.Database.Allocate | src/billing/mod.rs:630-649 | the loop with its falling budget computes the recursive payout whose shares are known |
| Store.Database.SettleCycle | src/billing/mod.rs:610-654 | claims only a settleable cycle and then makes exactly the settlement of the queried rows |
| Store.Database.ReserveSwap | src/crosschain/fees.rs:86-106 | refuses a second attempt and an invoice already billed |
| Store.Database.ResolveAsDirect | src/crosschain/fees.rs:638-659 | an uninterrupted call: bills the kept obligation, replays its receipts, marks the fee direct unless final |
| Store.Database.CommitSettlement | src/crosschain/fees.rs:467-507 | the settlement transaction with its re-check for confidential fees only |
| Store.Database.ReplayReceipts | src/crosschain/fees.rs:643-650 | replaying every receipt in any order applies the total once |
| SwapFees.ExclusiveIff | src/crosschain/fees.rs:467-507 | with any number of reconciliations at once, cut short anywhere, and with or without a fee: an invoice is never both billed and settled in a history if and only if no delivery is committed for it once it is billed |
| SwapFees.FinalIff | src/crosschain/fees.rs:229-230 | with any number of reconciliations at once: terminal fee states never change in a history if and only if no credit is recorded over a fee meanwhile marked direct |
| SwapFees.NeverBilledTwice | src/crosschain/fees.rs:467-507 | a fee-bearing swap is not both billed and settled: a confidential one unless a delivery is committed inside an unfinished resolution, a public one unless one is committed once it is billed |
| SwapFees.FeeStatesAreFinal | src/crosschain/fees.rs:349-354 | collected, direct and provider-handled never change: for a confidential fee ever, for a public one up to the first such credit |
| SwapFees.ConfidentialIsSafe | src/crosschain/fees.rs:468-477 | however reconciliations overlap and crash, no credit is recorded over a confidential fee, and a delivery finds it billed only inside an unfinished resolution |
| SwapFees.LeasedIsSafe | src/crosschain/fees.rs:705-708 | for a public fee reconciled by one worker at a time, no credit is recorded over a direct fee, and a delivery finds it billed only inside an unfinished resolution |
| SwapFees.HistoryLinked | src/billing/fee_ledger.rs:39-57 | in every state of every history, clashes included: an obligation is due to the swap exactly when settled, a fee-bearing swap is billed only through its obligation, exactly a settled confidential fee is provider-handled and none is collected |
| SwapFees.ModeIsFixed | src/crosschain/fees.rs:101-104 | a fee row stays, with its confidentiality, for ever |
| SwapFees.ExclusiveStep | src/crosschain/fees.rs:478-507 | any statement ends exclusivity exactly when it is such a delivery |
| SwapFees.ExposedMeansResolving | src/crosschain/fees.rs:638-659 | in any history a fee is billed or due to be while still unresolved only between a claim of its obligation and a mark of the fee |
| SwapFees.ResolvedInSteps | src/crosschain/fees.rs:638-659 | claim, bill, replay and mark, one after the other, are the uninterrupted call |
| SwapFees.InterruptedResolution | src/crosschain/fees.rs:642-652 | a history with one reconciliation at a time: one crashes between billing and marking, the next sees a delivery, and a confidential fee ends billed and settled |
| SwapFees.TwoWorkersClash | src/crosschain/fees.rs:381-547 | two overlapping reconciliations of a public fee that end billed, settled and re-marked collected |
| SwapFees.CollectedOverDirect | src/crosschain/fees.rs:507-547 | two overlapping reconciliations that turn a direct fee into a collected one although the invoice is never billed |
| SwapFees.ResolvedIsExact | src/crosschain/fees.rs:638-651 | resolving as direct bills the kept amount unless the invoice is settled or billed already, and makes the entry's collections exact, with or without a fee row |
| CreditEvents.DecimalReads | src/crosschain/fees.rs:196 | the decimal text of a position reads back as that position and holds no colon |
| CreditEvents.ProofIdsAreDistinct | src/crosschain/fees.rs:196 | a proof id determines receipt, log, transfer and asset |
| CreditEvents.ReadCredits | src/crosschain/fees.rs:133-203 | the loops over receipts, logs and transfers gather in order, and one malformed part fails the whole |
| CreditEvents.FoundIffCredited | src/crosschain/fees.rs:155-201 | a credit is found if and only if it is a transfer to our recipient with one of the intents and the asset, in a successful receipt of the intents contract |
| CreditEvents.CreditsAreDistinct | src/crosschain/fees.rs:155-202 | no two credits of a transaction share a proof id |
| CreditEvents.AmountTexts | src/crosschain.rs:381-390 | the accepted texts of an amount are its decimal text after any number of zeros, and no others |
| FeeProofs.SortSorts | src/crosschain/fees.rs:538 | sorting by proof id keeps exactly the same credits |
| FeeProofs.Distil | src/crosschain/fees.rs:538-539 | sort then dedup leaves distinct proof ids, loses none and invents none |
| FeeProofs.BlindedStaysDistinct | src/crosschain/fees.rs:544-546 | replacing proof ids by blind indexes keeps them distinct and the sum unchanged |
| FeeProofs.Book.AddUp | src/crosschain/fees.rs:212-214 | the checked fold fails exactly when the sum exceeds 128 bits |
| FeeProofs.Book.Record | src/crosschain/fees.rs:205-233 | succeeds exactly when something is recorded, it fits, the fee row exists and no proof is owned elsewhere; otherwise nothing changes |
| FeeProofs.RecordedStaysBacked | src/crosschain/fees.rs:215-230 | owners and recorded amounts never change, and recorded amounts stay within what the owned proofs are worth |
| FeeProofs.EvidenceIsSound | src/crosschain/fees.rs:205-233 | over any sequence of attempts, received amounts total at most the units of distinct proofs, and ownership is for ever |
| FeeTerms.ValidateQuote | src/crosschain/fees.rs:30-60 | the checked 64-bit loop accepts exactly the lists whose lines are well formed and whose two sums are as agreed |
| FeeTerms.SameListsAccepted | src/crosschain/fees.rs:421-435 | terms stored and rebuilt accept exactly the lists accepted at quote time, and an accepted list sums to the stored total and share |
| FeeTerms.ModeMatters | src/crosschain/fees.rs:424-434 | rebuilt in the other mode, an accepted list stays accepted exactly for requested fees 19, 20 and 39, 40 |
| Deliveries.ZcashDeliveries | src/crosschain/fees.rs:308-330 | usable exactly for 1 to 16 readable hashes of which one is Zcash-shaped; the answer is their lower-cased set without repeats |
| Deliveries.MatchedDelivery | src/crosschain/fees.rs:332-347 | each payment row of the invoice whose transaction is named and confirmed counts exactly once; fails on overflow or a missing answer |
| Deliveries.Deliver | src/crosschain/fees.rs:437-458 | the two steps together: unusable list, failed match, or the units delivered |
| Deliveries.CoveredIsReadable | src/crosschain/fees.rs:309-316 | a rewritten list stays readable exactly when it has 1 to 16 entries and none missing |
| Deliveries.ReportingStyleIsIrrelevant | src/crosschain/fees.rs:308-347 | repeating, reordering or recasing entries changes neither the units nor either failure, exactly unless only one of the lists is readable |
| SwapAttempts.Checkout.Reserve | src/crosschain.rs:762-795 | only one caller ever makes the reservation |
| SwapAttempts.Checkout.Create | src/crosschain.rs:812-882 | the whole create request: an existing attempt is shown again, a new one is saved or kept for review, and only an acknowledged save is shown |
| SwapAttempts.Checkout.StoreStatus | src/crosschain.rs:967-970 | known provider states are stored, never over success or refund |
| SwapAttempts.Checkout.StartSend | src/crosschain.rs:1018-1030 | takes the lock exactly when it is free, the attempt awaits its deposit and the invoice is unpaid |
| SwapAttempts.Checkout.RejectSend | src/crosschain.rs:1034-1036 | releases the lock exactly for its holder, before anything was sent |
| SwapAttempts.Checkout.SubmitSend | src/crosschain.rs:1037-1042 | records one well-formed transaction for the lock's holder, once |
| SwapAttempts.OneDeposit | src/crosschain.rs:797-883 | over any interleaving and crashes: at most one binding quote, one payload write, and one deposit ever shown |
| SwapAttempts.OneSendAtATime | src/crosschain.rs:1016-1047 | successful starts exceed successful rejections by one exactly while the lock is held; a sent transaction implies a held lock |
| SwapAttempts.SubmissionIsFinal | src/crosschain.rs:1031-1044 | after a submission transaction and token never change and no start or rejection succeeds |
| SwapAttempts.ReleasedTokenIsDead | src/crosschain.rs:1034-1042 | a token given back can neither reject nor submit again |
| Referrals.KeysAreDistinct | src/referrals.rs:152-166 | receipt keys are distinct for invoice ids without colons |
| Referrals.ColonsCollide | src/referrals.rs:165 | with colons two receipts could share a key |
| Referrals.AccruedSound | src/referrals.rs:80-113 | one accrual mints exactly the receipt's earning, keeps all others and takes only it off the pending rows |
| Referrals.Program.Accrue | src/referrals.rs:80-113 | fails exactly for an empty receipt or one stored with other particulars |
| Referrals.Program.Reconcile | src/referrals.rs:152-168 | one pass accrues up to 100 pending receipts of each kind, and only due ones |
| Referrals.Program.Drain | src/referrals.rs:151-168 | repeated passes end, with every due receipt having exactly its earning and no other minted |
| Referrals.Program.BeforeDelete | src/referrals.rs:118-149 | before a merchant goes, every receipt of its confirmed referred invoices is accrued |
| Referrals.Program.Summary | src/referrals.rs:188-199 | per-asset balances equal the sums of the referrer's rewards, all within 128 bits; it fails only if one is not |
| Referrals.RewardedTotal | src/referrals.rs:99-101 | an asset's earnings total what its receipts earned, each receipt once |
| Referrals.RewardsAreCovered | src/referrals.rs:99-101 | twice an asset's rewards never exceed what was collected in it |
| ReferralRuns.RunIsOrderly | src/referrals.rs:64-168 | from empty tables, over any interleaving of issues, confirmations, refunds, collections and reconcilers: each earning is that of one collected receipt and goes to the referrer its invoice was issued with, and no reconciler holds an outdated row |
| ReferralRuns.EarningsAreKept | src/referrals.rs:99-101 | receipts, policies and earnings once stored never change |
| ReferralRuns.EarnedIff | src/referrals.rs:88-101 | a receipt has its earning if and only if some reconciler accrued it while its invoice was confirmed and referred |
| ReferralRuns.CatchUp | src/referrals.rs:151-168 | from any reached state, with batches in flight, reconciliation alone can go on to the declarative join, minting only due receipts |
| Csv.Export | src/api/invoice_routes.rs:424-468 | the loop writes the header and each row's line, in order |
| Csv.CellsAreHarmless | src/api/invoice_routes.rs:718-727 | no written value is a formula, even after leading white space |
| Csv.ConfusedValues | src/api/invoice_routes.rs:718-727 | two values are written alike exactly when equal or when one is the other behind the added apostrophe |
| Csv.ReadDoubled | src/api/invoice_routes.rs:727 | inside quotes, doubled text reads as the text itself |
| Csv.RowsReadBack | src/api/invoice_routes.rs:442-468 | reading the emitted rows character by character recovers exactly the neutralised fields, whatever commas, quotes and line breaks they hold |
| Csv.NoRecoveredFormula | src/api/invoice_routes.rs:719-722 | no recovered cell starts a formula |
| Csv.FileReadsBack | src/api/invoice_routes.rs:424-468 | the file with its header reads back exactly when bare line feeds are taken as line ends |
| InvoiceIndex.Build | src/invoices/matching.rs:20-31 | the built index answers every payment as a scan of the list does |
| InvoiceIndex.FindIsScan | src/invoices/matching.rs:33-51 | the answer is the last invoice storing that merchant and receiver, else the first legacy one with that receiver and exact non-empty memo |
| InvoiceIndex.ScanIsCandidate | src/invoices/matching.rs:33-51 | an answer is a matching invoice, and there is none only when nothing matches |
| InvoiceIndex.OrderIrrelevantIff | src/invoices/matching.rs:20-51 | the answer is the same for every order of the list exactly when at most one invoice matches |
| InvoiceIndex.UniqueKeysSuffice | src/invoices/matching.rs:20-51 | with unique keys the order of the list never matters |
| Migrations.Tracker.RunTracked | src/db/schema_tracking.rs:19-91 | the status row and the finished bodies after any crash point |
| Migrations.Tracker.Startup | src/db.rs:32-378 | a startup goes through the list and stops at the first migration not done |
| Migrations.StatusIsInOrder | src/db/schema_tracking.rs:30-92 | after any startups and crashes: applied rows, at most one running or failed, then none; each body finished at most once, in list order |
| Migrations.StuckForGood | src/db/schema_tracking.rs:38-43 | a running row left by a crash stops every later startup |
| Migrations.CanFinishIff | src/db/schema_tracking.rs:33-61 | a startup can still finish exactly when no row is left running |
| Migrations.SuccessMeansAllApplied | src/db.rs:32-378 | a successful startup leaves every migration applied and every body finished |
| X402.Server.Lookup | src/api/x402.rs:1049-1067 | the cached answer of a live key for the same body, a conflict for another body |
| X402.Server.CommitSettlement | src/api/x402.rs:1069-1130 | the whole transaction: one consumption, session, cached answer, and rollback on every error |
| X402.Server.Settle | src/api/x402.rs:944-1047 | the answer in every case, key check before replay before verification before commit, and only a success changes anything |
| X402.RunIsSound | src/api/x402.rs:1049-1130 | the invariant over any order of settlements, clock ticks, purges and other consumers of transactions |
| X402.OneSuccess | src/api/x402.rs:1082-1084 | a transaction, however cased, backs at most one success; one key's successes are more than a day apart |
| X402.SameBodyReplays | src/api/x402.rs:1056-1064 | for a day a key returns the stored answer to the same body and refuses another |
| X402.ReplaysAreGenuine | src/api/x402.rs:1056-1064 | a replayed answer is that of a real success with this merchant, key and body |
| X402.PaymentCovers | src/api/x402.rs:1085-1104 | price plus session balance stays within the total, signed conversion included; when a session exists |
| X402.NothingFromNothing | src/api/x402.rs:1069-1130 | over a run, prices and balances handed out total at most what the distinct transactions paid |

## Left out

- Store.Database.CloseExpired: reading a cycle, making its invoice and marking it are one step; the passes visit fetched rows in any order.
- CycleWorkflow.RequestSettlementKeeps: reading the balance, making the invoice and linking it are one step.
- BillingRuns.RunKeeps: opening a cycle, an overdue marking and a suspension are one step each, so what rests on it holds as long as every write comes in time in the sense of LateWrites.BooksStayRightIff. Reading a merchant's tier when it is suspended belongs to the fetch of the row in LateWrites.
- Store.Database.EnsureBillingCycle: the method runs without interruption; LateWrites takes its statements apart.
- Store.Database.MarkOverdueCycles: nothing else runs between its statements; LateWrites takes them apart.
- Store.Database.SuspendCycles: nothing else runs between its statements; LateWrites takes them apart.
- Store.Database.ResolveAsDirect: the method runs without interruption; SwapFees takes its statements apart.
- SwapFees.LeasedIsSafe: the lease is an assumption on the history, not derived from the clock.
- Books: 64-bit bounds of the stored integers, the `_zec` floating-point mirrors, fee rates and fiat conversion. Amounts start as zatoshis.
- Identifiers of invoices, cycles and merchants in the billing files are numbers ordered as their text is; a settlement's own receipts are tagged instead of being recognised by the text `settlement:`.
- Trust-tier upgrades and fee discounts: a tier may change at any time to anything.
- Migrations.Tracker.Startup: one process starts up at a time, and a failing body's partial effects are not described; the list is fixed, while the program adds data migrations only when an encryption key is set.
- X402.Server.Settle: looking up and committing run without interruption in this method; X402.RunIsSound allows anything between them. Session tokens, charging and closing sessions, and account deletion are absent.
- InvoiceIndex.Build: decoding an address to its receiver is an arbitrary function.
- CreditEvents.ReadCredits: JSON is already parsed; an amount that is not text counts as an invalid one.
- FeeProofs.BlindedStaysDistinct: the keyed hash is taken to be injective.
- Csv.Export: formatting of amounts and rates into text; fields are any text.
- Quote construction and route checks (`quote_body`, `checked_quote`, `validate_route`, `route_eligibility`) and x402 request parsing: single-branch guards over provider JSON.
- HTTP, rate limits, email, the chain scanner, provider and explorer calls, encryption, signatures and address codecs: outcomes are parameters.
- Account and invoice deletion, loop detection between referrers, and purge jobs other than that of expired x402 answers.
- Aliasing and iteration order of the program's in-memory collections.
