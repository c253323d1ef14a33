# Verified model of a rental agency's engines

A Dafny model of the pure engines of a rental-management system: how money is split, billed,
settled, posted and stated, how late interest accrues, how a debt is collected in stages, how a
contract template is parsed and rendered, and the calendar and interval engines around them. None of
them does I/O. Where the original is a loop or an object it updates, the model is a loop or a class
proved equal to a function; what the system promises is then proved about that function, for every
input or every run.

- `Money`, `Rounding`, `Sums`, `Sorting`: the largest-remainder split of whole cents and its exact
  arithmetic; stable sorting.
- `Settlement`, `SettlementMeaning`, `SettlementLaws`, `SettlementLosses`, `SettlementChanges`: one payment
  split among the agency, the public bodies and the lessors, in three cash flows, and what each person holds;
  runs of partial payments, with the same terms or with terms that change; when a payment takes a cent back.
- `OwnerLedger`, `OwnerLedgerEntries`, `OwnerLedgerLaws`, `OwnerLedgerDiscounts`, `Statement`,
  `StatementLaws`: ledger entries of a payment, where discounts come off in them, monthly statements and
  their periods.
- `ChargeSplit`, `ChargeSplitAmounts`, `ChargeSplitLaws`: utility and tax bills shared among contracts, in
  installments.
- `Liquidation`, `LiquidationAmounts`, `LiquidationLaws`, `LiquidationMonths`: the monthly bill, its totals,
  proration, a first month put off, mid-month rent changes, discounts; month after month, each with the rules of its month.
- `Cycle`, `CycleAccounts`, `CycleBills`, `CycleLaws`, `CyclePasses`: the month of a whole portfolio, from
  payments to statements; the account of each lessor; which cycles go through.
- `Penalty`, `PenaltyAmounts`, `PenaltyLaws`, `PenaltyRuns`: interest day by day and what it adds up to in
  each mode, two runs compared, and the interest registered pass after pass, whatever rule each pass finds.
- `Collections`, `CollectionsDecisions`, `CollectionsLaws`: what is decided in a case each day, and the
  daily collection process under arbitrary events.
- `Template`, `TemplateErrors`, `TemplateMeaning`, `TemplateSyntaxLaws`, `TemplateRenderLaws`: the stack
  parser and its errors, what names and conditions mean, and the budgeted renderer.
- `Calendar`, `IndexWindows`, `LessorShares`, `Sla`, `SlaLaws`, `GridPaste`: months, lagged index
  windows, share sweeps, the business clock, the clipboard grid.

## Conventions

Amounts are whole cents (`int`), as they are after rounding to two decimals, and percentages are whole
units of 1/10000 %. Quotas are `total * weight` divided by the sum of the weights, with floor and
remainder, so the decimal library's 40 digits are taken as exact. Interest uses `real`. Dates are day
numbers of a civil calendar, months are indices, and instants of the business clock are milliseconds.
Exceptions are values of a `Result` (or a constructor of the result type).

The functions that specify an operation are themselves proved to mean what the engine promises, in terms of its
inputs alone: `SettlementMeaning`, `OwnerLedgerEntries`, `ChargeSplitAmounts`, `LiquidationAmounts`,
`PenaltyAmounts`, `CycleAccounts`, `TemplateMeaning`, `TemplateErrors` and `CollectionsDecisions` say what each
amount, date, person and error is without naming those functions' parts.

## What the proofs found

- The largest-remainder split is not monotone in the total: with weights 6, 6 and 2, the eleventh cent
  takes one away from the third part (`Money.RaisingTotalCanLowerAPart`). `Money.LosesACentExactlyWhen` says
  for all inputs when it happens, from the quotas and the order of their remainders; never with at most two
  positive weights.
- So a payment can take a cent back from a destination and its lessor
  (`SettlementLosses.PaymentCanTakeACentBack`), or from one lessor while the lessors together gain one
  (`SettlementLosses.LessorCanLoseACent`). One cent is the most, and `SettlementLosses` states exactly when.
- Settlement fails with the zero-weight error of the split in one family only: a direct payment with nobody
  named, nothing for the lessors, and percentages that cannot split (`SettlementLaws.SettlesExactlyWhen`,
  with an input in `SettlementLosses.CheckedPaymentCanFail`).
- The settlement promises that partial payments that settle a liquidation add up to exactly the
  liquidation. That holds for every destination while the lines, the commission and the mode stay
  (`SettlementLaws.PaidInFull`), but a payment that settles penalties adds a line, and the mode and the default
  commission are read at each payment. Whatever changes, the payments give the last cover plus the drift of
  every change, so they end at the buckets if and only if the drifts cancel
  (`SettlementChanges.EndsAtTheBucketsExactlyWhen`). A penalty added between two payments can leave the bodies
  with sixty of a bucket of fifty (`SettlementChanges.AddedPenaltyMovesTheSplit`).
- A first month put off can be lost. Each month is built with its own rules, so when the next month's rules no
  longer put the first one off, nobody bills it (`LiquidationMonths.FirstMonthCanBeLost`, the due day moved from
  10 to 20); and a first month charged at signing can be billed again
  (`LiquidationMonths.FirstMonthCanBeBilledAfterSigning`). `LiquidationMonths.DeferredIffIncluded` gives the exact
  condition: both months' rules put it off or neither does. Built month by month no day is ever billed twice by
  two liquidations, and `LiquidationMonths.DaysAreLostExactlyWhen` says which are not billed at all.
- The posting of a payment counts a discount line with the sign it is stored with, while settlement
  subtracts it. The builder writes every discount as a positive line of the lessors
  (packages/shared/src/liquidation-builder/index.ts:345-374), so in any liquidation with a discount the
  components exceed the net by twice the discounts (`OwnerLedgerLaws.ComponentsMissTheDiscounts`), and the residual
  is that gap and not a rounding: minus twenty of a share of ninety (`OwnerLedgerDiscounts.OrdinaryDiscount`).
  Without positive discounts it is at most three cents (`OwnerLedgerLaws.SettledResidualIsAtMostThree`). When the
  rent is a credit, the gap comes off the rent entry and nothing else, which is why the entries are right all the
  same (`OwnerLedgerDiscounts.DiscountsComeOffTheRent`).
- A consumption rule can be charged a cent less than what is paid for it, because the split is not monotone
  in the total (`ChargeSplitLaws.ConsumptionCanChargeLess`); `ConsumptionSurplus` says exactly when. As all the
  consumption rules share the base of the first, there is no surplus at all when that one does not charge the
  nominal amount.
- When only some consumption rules charge the nominal amount, the units can be charged more than the whole
  nominal bill: twelve cents of eleven (`ChargeSplitLaws.MixedRulesChargeTooMuch`).
  `ChargedConsumptionIsBounded` gives the exact excess, and none when all of them do or none does.
- The cycle charges the lessors a bill's parts once for every rule that passes it on to the owner of their
  contract: two such rules of one contract charge the bill twice (`CycleBills.OwnersCanPayTwice`). They are
  charged once if and only if no charged part is of a contract with several (`CycleBills.OwnersPayOnceExactlyWhen`).
- Whatever the rule, the debt and the payments of each pass, what is registered is the most any pass computed
  (`PenaltyRuns.RegistersTheMost`). Interest accrued never falls while payments and rates are recorded in time
  and the rule and the rent stay, penalty billed in between included, so what is registered is then what is
  accrued (`PenaltyRuns.RegistersWhatAccrues`). A payment recorded late with an earlier date lowers what is
  accrued (`PenaltyRuns.BackdatedPaymentLowersIt`), and so does a softer rule (`PenaltyRuns.SofterRuleLowersIt`);
  the registered interest stays.
- With the penalty first, billing a penalty on its own liquidation imputes the earlier payments to it again, and
  the days gone by accrue more: 1.02 for two days that had accrued 1.00 (`PenaltyRuns.BillingRaisesDaysGoneBy`).
  With the rent first nothing changes (`PenaltyLaws.BillingMorePenalty`).
- Rent-first imputation never costs more, whatever the cap multiple. That no payment is negative, which the
  system's input rules guarantee, is needed for it (`PenaltyLaws.NegativePaymentsCanReverseIt`).
- A value named exactly like a loop alias is read inside the loop and not extracted
  (`TemplateRenderLaws.AliasNamedKeysAreNotExtracted`).
- Statement ranges match statement periods for every date if and only if the closing day is at most 28
  (`StatementLaws.ClosingDayMustFitEveryMonth`).
- Chained index windows equal the single window also when the first date less the lag is before the
  start, unless a month begins in between (`IndexWindows.ChainedIsWholeIff`).
- The share sweep looks at its start even when the window is empty
  (`LessorShares.EmptyWindowStillLooksAtTheStart`).
- A deadline of zero minutes is the first business instant, not the least instant with zero business time
  (`SlaLaws.NothingToWaitFor`).
- Without proration, a mid-month split of a month that is not whole charges only the covered days
  (`LiquidationLaws.SplitWithoutProration`).

## Model

| member | source | states |
|---|---|---|
| Rounding.RoundDivNearest | packages/shared/src/money/index.ts:13-16 | a rounded quotient is never more than half a unit from the exact one |
| Rounding.RoundDivMonotone | packages/shared/src/money/index.ts:13-16 | rounding keeps the order |
| Rounding.RoundDivExact | packages/shared/src/money/index.ts:13-16 | a whole number of units is not changed |
| Rounding.RoundDivHalfAway | packages/shared/src/money/index.ts:13-16 | a half goes away from zero, for either sign |
| Money.SumOf | packages/shared/src/money/index.ts:23-26 | the accumulating loop is the exact sum |
| Money.AllocateLargestRemainder | packages/shared/src/money/index.ts:34-58 | the sort-and-hand-out loop computes the specified split, or the negative-weight or zero-sum error |
| Money.HandOut | packages/shared/src/money/index.ts:51-56 | one more cent for exactly the first indices in remainder order, nothing else changes |
| Money.OrderOf | packages/shared/src/money/index.ts:48-50 | the order lists every index once, by larger remainder and then by index |
| Money.AllocateIsLargestRemainder | packages/shared/src/money/index.ts:28-33 | parts add up to the total, each is the floor of its quota or a cent more, and the extra cents go by remainder |
| Money.LargestRemainderUnique | packages/shared/src/money/index.ts:28-33 | that description admits one split only |
| Money.LeftoverRange | packages/shared/src/money/index.ts:47-56 | the cents left over are non-negative and no more than the positive remainders, so the loop never runs out of parts |
| Money.WholeQuotaIsExact | packages/shared/src/money/index.ts:45-56 | a part whose quota is a whole number of cents gets exactly it |
| Money.ZeroWeightGetsZero | packages/shared/src/money/index.ts:45-56 | a zero weight gets nothing, whatever the total |
| Money.AllocateWhole | packages/shared/src/money/index.ts:34-58 | splitting the sum of the weights gives back the weights |
| Money.NonNegativeParts | packages/shared/src/money/index.ts:34-58 | a non-negative total has non-negative parts |
| Money.LargerWeightNeverLess | packages/shared/src/money/index.ts:34-58 | with a non-negative total a larger weight never gets less |
| Money.RaisingTotalLosesAtMostACent | packages/shared/src/money/index.ts:34-58 | raising the total by any amount lowers a part by at most one cent |
| Money.OneMoreCentRaisesByAtMostOne | packages/shared/src/money/index.ts:34-58 | one more cent raises no part by more than one |
| Money.TwoWeightsMonotone | packages/shared/src/money/index.ts:34-58 | with only two positive weights, raising the total never lowers a part |
| Money.RaisingTotalCanLowerAPart | packages/shared/src/money/index.ts:34-58 | with weights 6, 6 and 2 the third part goes from 2 to 1 between 10 and 11 |
| Money.PartByRank | packages/shared/src/money/index.ts:45-56 | each part is its truncated quota, and a cent more when fewer indices precede it in remainder order than cents are left |
| Money.LosesACentExactlyWhen | packages/shared/src/money/index.ts:34-58 | raising the total lowers a part if and only if its truncated quota stays and its rank falls out of the leftover |
| Money.AtMostTwoMonotone | packages/shared/src/money/index.ts:34-58 | with at most two positive weights, one included, no part is ever lowered |
| Settlement.SettlementBuckets | packages/shared/src/settlement-engine/index.ts:157-209 | fails only with a currency mismatch or a negative share |
| Settlement.BucketsAreWhole | packages/shared/src/settlement-engine/index.ts:170-208 | the three buckets are non-negative and add up to the liquidation |
| Settlement.WriteOwnParts | packages/shared/src/settlement-engine/index.ts:329-335 | the loop gives every lessor its part received and its part owed |
| Settlement.WriteReceiver | packages/shared/src/settlement-engine/index.ts:336-349 | the receiver is found or added, charged with the payment, and owes the others their shares |
| Settlement.SettlePayment | packages/shared/src/settlement-engine/index.ts:262-364 | the imperative settlement computes the specified one, errors included |
| SettlementLaws.PartWithinWeight | packages/shared/src/settlement-engine/index.ts:225-229 | a split of at most the buckets never gives a bucket more than itself |
| SettlementLaws.CoveredAtIsASplit | packages/shared/src/settlement-engine/index.ts:218-230 | for every amount up to the total the cover exists (no zero-weight error), adds up to it, and stays within each bucket |
| SettlementLaws.ProportionalCover | packages/shared/src/settlement-engine/index.ts:219-229 | in proportional mode the shortcuts for zero and the total agree with the general split |
| SettlementLaws.AgencyFirstCover | packages/shared/src/settlement-engine/index.ts:221-227 | with the agency first, the agency is filled and the rest is split by largest remainder, shortcuts included |
| SettlementLaws.DestinationLosesAtMostACent | packages/shared/src/settlement-engine/index.ts:285-292 | a destination's part of a payment is at least minus one cent, and non-negative with the agency first or with an empty bucket |
| SettlementLaws.LessorLosesAtMostACent | packages/shared/src/settlement-engine/index.ts:233-239 | a lessor's part is at least minus one cent even when the lessors together lose one |
| SettlementLaws.PaymentTakesBackAtMostACent | packages/shared/src/settlement-engine/index.ts:285-305 | in every settled payment, no destination's and no lessor's part is below minus one cent |
| SettlementLaws.SplitsExactlyTheChecked | packages/shared/src/settlement-engine/index.ts:262-311 | a payment is split if and only if it passes the engine's own checks; its parts are differences of cumulative splits and add up |
| SettlementLaws.SettlesExactlyWhen | packages/shared/src/settlement-engine/index.ts:329-335 | a checked payment fails exactly in one family, with the split's own error |
| SettlementLaws.MoneyEquation | packages/shared/src/settlement-engine/index.ts:307-364 | in every flow and option, cash plus custody plus received is the amount, and cash plus custody less balances is the agency's part plus the bodies' it holds |
| SettlementLaws.CompensationsCoverTheOthers | packages/shared/src/settlement-engine/index.ts:344-348 | every compensation goes from the receiver to another lessor for its positive share, and together they are all of those shares |
| SettlementLaws.RunGivesTheCumulativeSplit | packages/shared/src/settlement-engine/index.ts:245-250 | after any run of partial payments with the same terms, in any flows, every destination and lessor has the cumulative split of what was paid |
| SettlementLaws.PathIndependence | packages/shared/src/settlement-engine/index.ts:245-250 | two ways of cutting the same amount give everybody the same |
| SettlementLaws.PaidInFull | packages/shared/src/settlement-engine/index.ts:245-250 | a run with the same terms that reaches the total gives the buckets, and each lessor its largest-remainder part of the lessors' bucket |
| SettlementLaws.AnyCutIsAccepted | packages/shared/src/settlement-engine/index.ts:262-341 | a run of payments, whoever receives them, goes through if and only if each can be received, they do not exceed the total, and the percentages add up |
| SettlementLosses.DestinationLosesExactlyWhen | packages/shared/src/settlement-engine/index.ts:218-230 | a destination loses a cent if and only if the mode is proportional and the split of the buckets takes one from it |
| SettlementLosses.SharesAre | packages/shared/src/settlement-engine/index.ts:294-305 | a lessor's share of a payment is the difference of two largest-remainder splits, nothing when the lessors' bucket is empty |
| SettlementLosses.LessorLosesExactlyWhen | packages/shared/src/settlement-engine/index.ts:232-239 | a lessor loses a cent if and only if its part by quota and remainder rank is smaller after the payment than before; when the lessors together lose one, one of them does |
| SettlementLosses.NoLessorLoses | packages/shared/src/settlement-engine/index.ts:285-305 | no lessor ever loses with the agency first or another bucket empty, and at most two positive percentages |
| SettlementLosses.OnlyLessorGetsAll | packages/shared/src/settlement-engine/index.ts:294-305 | the only lessor of a contract gets the whole of the lessors' part |
| SettlementLosses.PaymentCanTakeACentBack | packages/shared/src/settlement-engine/index.ts:262-364 | a settled payment of one cent that leaves the lessors, and the only lessor, with one less |
| SettlementLosses.LessorCanLoseACent | packages/shared/src/settlement-engine/index.ts:262-364 | a settled payment that gives the lessors one cent more and one of them one less |
| SettlementChanges.GivesItsOwnCovers | packages/shared/src/settlement-engine/index.ts:285-292 | a payment gives the difference of its own two covers: nothing before the first payment, the buckets at the total |
| SettlementChanges.GivenIsTheLastCover | packages/shared/src/settlement-engine/index.ts:245-250 | whatever terms change between the payments, together they give the last cover less the first, plus the drift of every change |
| SettlementChanges.EndsAtTheBucketsExactlyWhen | packages/shared/src/settlement-engine/index.ts:245-250 | payments that reach the total give exactly the buckets if and only if the drifts cancel, in particular when no change moves the cover |
| SettlementChanges.LessorGivenIsTheLastCover | packages/shared/src/settlement-engine/index.ts:232-239 | the same for each lessor, percentages that change included |
| SettlementChanges.AddedPenaltyMovesTheSplit | apps/api/src/modules/liquidaciones/liquidaciones.service.ts:963-995 | two settled payments with a penalty added in between give the bodies sixty of a bucket of fifty |
| SettlementLosses.CheckedPaymentCanFail | packages/shared/src/settlement-engine/index.ts:329-335 | a payment that passes every check and fails with the zero-weight error |
| SettlementMeaning.CommissionIs | packages/shared/src/commission-engine/index.ts:47-92 | the commission of each type is the fixed amount, the percentage with halves up, or both; refused exactly when a number is out of range |
| SettlementMeaning.BucketsAre | packages/shared/src/settlement-engine/index.ts:157-209 | each destination has its charges less its discounts, however signed, with commission and fee moved from the lessors to the agency |
| SettlementMeaning.NoBucketsExactlyWhen | packages/shared/src/settlement-engine/index.ts:157-209 | which liquidations are refused, and with which of the two errors |
| SettlementMeaning.RefusedExactlyWhen | packages/shared/src/settlement-engine/index.ts:262-311 | each error of a settlement, and exactly when it is the one given |
| SettlementMeaning.PaymentIsTheDifference | packages/shared/src/settlement-engine/index.ts:285-292 | each destination is given what is covered after the payment less what was before it |
| SettlementMeaning.PositionIsTheLessors | packages/shared/src/settlement-engine/index.ts:294-322 | the i-th position is the i-th lessor's, with the difference of its parts by percentage of what the lessors are covered |
| SettlementMeaning.AgencyPositions | packages/shared/src/settlement-engine/index.ts:307-363 | received by the agency: only the lessors have positions, each owed its share, in custody when it is, and what the till holds |
| SettlementMeaning.DirectPayment | packages/shared/src/settlement-engine/index.ts:307-363 | received by a lessor: nothing in the till or in custody, and who holds the bodies' part |
| SettlementMeaning.EachTookItsPart | packages/shared/src/settlement-engine/index.ts:325-335 | nobody named: each lessor received its share and its parts by percentage of the rest, and owes that of what is owed |
| SettlementMeaning.OneTookItAll | packages/shared/src/settlement-engine/index.ts:336-343 | one named: it received the payment and owes all but its share and what it keeps; a stranger comes last with no share; nobody else changes |
| SettlementMeaning.CompensationsAre | packages/shared/src/settlement-engine/index.ts:344-348 | one compensation, in order, from the receiver to each other position with a positive share, for that share |
| Penalty.SortByDay | packages/shared/src/penalty-engine/index.ts:168-173 | sorted by day, with the same elements |
| Penalty.SplitPayments | packages/shared/src/penalty-engine/index.ts:272-297 | the imputation loop computes the specified rent total and rent payments |
| Penalty.PaidBeforeDay | packages/shared/src/penalty-engine/index.ts:191-191 | the sum of the payments strictly before a day |
| Penalty.RateOnDay | packages/shared/src/penalty-engine/index.ts:129-146 | the scan that stops at the first later rate finds the last rate in force, converted to a daily one, nominal or effective |
| Penalty.AccruePenalty | packages/shared/src/penalty-engine/index.ts:148-254 | the day loop with its counters, cap and rounding computes the specified accrual |
| PenaltyAmounts.RateInForce | packages/shared/src/penalty-engine/index.ts:129-146 | the rate of a day is the latest published by then, the last listed of a day, simple or effective, times the multiplier; none exactly when none has been published |
| PenaltyAmounts.OneMoreDay | packages/shared/src/penalty-engine/index.ts:189-232 | each day after the grace adds its interest in its mode on what it starts owing, rounded or not, and counts as the kind of day it is |
| PenaltyAmounts.SameBalanceAccrues | packages/shared/src/penalty-engine/index.ts:189-232 | n days on the same balance accrue n times the value, the simple or the compound percentage, or the sum of the larger of the value and the bank rate, blocked days left out |
| PenaltyAmounts.AmountWithCap | packages/shared/src/penalty-engine/index.ts:234-253 | the amount is what accrues up to the cap on the chosen base, to the cent, and nothing within the grace |
| PenaltyAmounts.RentOwedAfterPayments | packages/shared/src/penalty-engine/index.ts:272-297 | what a bill owes of rent on each day, from its total, its billed penalty and what was paid before |
| PenaltyLaws.RentFirstTotals | packages/shared/src/penalty-engine/index.ts:265-297 | rent first: the rent payments add up to the rent, up to what was paid |
| PenaltyLaws.PenaltyFirstTotals | packages/shared/src/penalty-engine/index.ts:265-297 | penalty first: the rent payments add up to what was paid beyond the billed penalty |
| PenaltyLaws.RentFirstLowersTheBase | packages/shared/src/penalty-engine/index.ts:191-192 | on every day the balance under rent-first is at most that under penalty-first |
| PenaltyLaws.RentOwedOn | packages/shared/src/penalty-engine/index.ts:265-297 | the rent owed at the start of a day: the rent less what was paid before it, all of it or only what exceeds the billed penalty |
| PenaltyLaws.BillingMorePenalty | packages/shared/src/penalty-engine/index.ts:272-297 | billing more penalty on the same rent never lowers the interest, and with the rent first changes nothing |
| PenaltyLaws.AccrueDayMonotone | packages/shared/src/penalty-engine/index.ts:192-231 | one day with a lower balance and less accrued accrues no more, in every mode and rounding, and never lowers what is accrued |
| PenaltyLaws.LowerBaseLowerPenalty | packages/shared/src/penalty-engine/index.ts:148-254 | a run whose balance is never above another's ends with no more interest, cap and rounding included |
| PenaltyLaws.RentFirstNeverCostsMore | packages/shared/src/penalty-engine/index.ts:148-297 | for every bill, payments, rule and rates, rent-first imputation yields no more interest than penalty-first |
| PenaltyLaws.NegativePaymentsCanReverseIt | packages/shared/src/penalty-engine/index.ts:272-297 | a negative payment can make rent-first cost more |
| PenaltyLaws.PaidBeforeSorted | packages/shared/src/penalty-engine/index.ts:168-192 | the order payments come in does not change any day's balance |
| PenaltyRuns.PenaltyGrowsWithTime | apps/api/src/modules/penalties/penalties.service.ts:131-147 | interest at a later day is no less, with any payments of that day or later and any later rates recorded in between |
| PenaltyRuns.RentPaidLater | packages/shared/src/penalty-engine/index.ts:272-297 | in either imputation, later payments do not change what the rent had been paid before a day |
| PenaltyRuns.PenaltyNeverFalls | packages/shared/src/penalty-engine/index.ts:148-254 | interest never falls between two days when both histories agree up to the first |
| PenaltyRuns.RegistersWhatAccrues | apps/api/src/modules/penalties/penalties.service.ts:131-147 | in every run of passes with payments and rates recorded in time, and the rule and the rent unchanged (penalty may be billed), what is registered is the interest accrued, and no pass finds more registered |
| PenaltyRuns.RegistersTheMost | apps/api/src/modules/penalties/penalties.service.ts:71-147 | in every run of passes, whatever rule, debt, payments and rates each finds, what is registered is the most any of them computed, never negative |
| PenaltyRuns.RegistersTheLastExactlyWhen | apps/api/src/modules/penalties/penalties.service.ts:144-147 | it is what the last pass computes if and only if no pass before computed more and it is not negative |
| PenaltyRuns.SofterRuleLowersIt | apps/api/src/modules/penalties/penalties.service.ts:71-93 | a rule softened between two passes lowers the interest with everything in time, and what is registered stays |
| PenaltyRuns.BillingRaisesDaysGoneBy | packages/shared/src/penalty-engine/index.ts:272-297 | with the penalty first, billing what two days accrued makes the same two days accrue more |
| PenaltyRuns.BackdatedPaymentLowersIt | apps/api/src/modules/penalties/penalties.service.ts:144-147 | a payment recorded late lowers the interest, and the guard keeps what is registered |
| OwnerLedger.GrossByType | packages/shared/src/owner-ledger/index.ts:107-112 | the loop adds the lessors' lines up by concept |
| OwnerLedger.WriteParts | packages/shared/src/owner-ledger/index.ts:126-136 | prorates every component, and adds the residual to the first credit |
| OwnerLedger.WritePartPostings | packages/shared/src/owner-ledger/index.ts:151-154 | the loop pushes the specified entries of a position, concept by concept, none in zero |
| OwnerLedger.PostPayment | packages/shared/src/owner-ledger/index.ts:106-158 | the loop pushes the specified entries of every position, in order |
| OwnerLedgerEntries.ConceptOfPosition | packages/shared/src/owner-ledger/index.ts:37-137 | each concept of a position is its share of the lessors' lines of that concept, or of commission and fee, to the cent; but for the first credit, which absorbs the rest |
| OwnerLedgerEntries.ConceptsAddUp | packages/shared/src/owner-ledger/index.ts:93-105 | the six concepts of a position add up to its share |
| OwnerLedgerEntries.EntriesAreItsPersons | packages/shared/src/owner-ledger/index.ts:138-155 | the entries of a position are its person's, none in zero and no concept twice; what is in hand comes last, with what was received and kept |
| OwnerLedgerEntries.EntriesAreInOrder | packages/shared/src/owner-ledger/index.ts:151-155 | the entries come in the order of their concepts |
| OwnerLedgerEntries.PaymentEnters | packages/shared/src/owner-ledger/index.ts:122-156 | a payment enters each person, under each concept, what its own positions are entered |
| OwnerLedgerEntries.KeptIsTheSettlements | packages/shared/src/owner-ledger/index.ts:138-150 | what is kept for the bodies is what the settlement lets each keep |
| OwnerLedgerLaws.PositionPostingsSum | packages/shared/src/owner-ledger/index.ts:93-105 | a lessor's entries add up to its share, or to its balance when the lessor collected, whatever the lines |
| OwnerLedgerLaws.PaymentPostingsSum | packages/shared/src/owner-ledger/index.ts:93-105 | the entries of a payment add up to the balances of its positions |
| OwnerLedgerLaws.ResidualBound | packages/shared/src/owner-ledger/index.ts:130-135 | the residual is the share of what the components miss, within half a cent per component; with nothing missing, at most that |
| OwnerLedgerLaws.ComponentsMissTheDiscounts | packages/shared/src/owner-ledger/index.ts:107-119 | the components add up to the net if and only if no lessors' line is a positive discount, and the gap is twice those discounts |
| OwnerLedgerLaws.SettledResidualIsAtMostThree | packages/shared/src/owner-ledger/index.ts:130-135 | in a settled payment with no positive lessors' discount, a position's residual is at most three cents |
| OwnerLedgerLaws.SettledResidualIsTheGap | packages/shared/src/owner-ledger/index.ts:130-135 | in every settled payment the residual is minus the share of twice the positive discounts within three cents, exactly for the whole net |
| OwnerLedgerDiscounts.DiscountsComeOffTheRent | packages/shared/src/owner-ledger/index.ts:106-136 | when the rent is a credit, its entry is the share of the rent less the discounts within two and a half cents, exact for the whole net |
| OwnerLedgerDiscounts.OrdinaryDiscount | packages/shared/src/owner-ledger/index.ts:107-135 | a settled payment of a rent with a discount: components of 110 for a net of 90, a residual of minus 20, and a rent entry of 90 |
| OwnerLedgerLaws.SplitByShareSum | packages/shared/src/owner-ledger/index.ts:162-177 | signed parts add up to the amount and none has the opposite sign |
| Calendar.MonthOf | packages/shared/src/date-utils/index.ts:48-63 | a day is between the first day of its month and that of the next |
| Calendar.AddMonthsLands | packages/shared/src/date-utils/index.ts:48-63 | the shifted date falls in the shifted month, on its day or the last one there |
| Calendar.AddMonthsMonotone | packages/shared/src/date-utils/index.ts:48-63 | shifting by months keeps the order of dates despite the clipping |
| Calendar.YearStart | packages/shared/src/date-utils/index.ts:48-63 | a year starts 365 days a year after day 0, and one more for each leap year before it |
| Calendar.MonthInYear | packages/shared/src/date-utils/index.ts:48-63 | where each month starts in its year |
| Statement.SortByDate | packages/shared/src/owner-ledger/index.ts:269-272 | sorted by date, with the same entries |
| Statement.FileMovement | packages/shared/src/owner-ledger/index.ts:282-307 | the movement goes to the group of its unit, opened if new |
| Statement.ComputeStatement | packages/shared/src/owner-ledger/index.ts:257-325 | the pass over the sorted entries computes the specified statement |
| StatementLaws.StatementTotals | packages/shared/src/owner-ledger/index.ts:250-256 | closing is the previous closing plus every entry, and each total is the sum of its own entries |
| StatementLaws.OrderDoesNotMatter | packages/shared/src/owner-ledger/index.ts:257-325 | any permutation of the entries gives the same opening, closing and totals |
| StatementLaws.GroupsAddUp | packages/shared/src/owner-ledger/index.ts:282-308 | one group per unit with movements, each holding exactly its own in order; their totals add up to the statement's |
| StatementLaws.StatementSays | packages/shared/src/owner-ledger/index.ts:257-325 | opening, credits, debits and payouts of a statement and of each of its groups, from the types and signs of the entries |
| StatementLaws.GroupOfEachUnit | packages/shared/src/owner-ledger/index.ts:282-307 | the net of a unit's group is the sum of its movements, and a unit with no group has none |
| StatementLaws.SortByDateIsStable | packages/shared/src/owner-ledger/index.ts:269-272 | entries by date, those of one date in the order they came in |
| StatementLaws.PeriodIsTheOneThatContains | packages/shared/src/owner-ledger/index.ts:187-208 | for closing days up to 28, the period of a date is the one whose range contains it |
| StatementLaws.RangesTile | packages/shared/src/owner-ledger/index.ts:201-208 | ranges follow one another with no gap or overlap |
| StatementLaws.ClosingDayMustFitEveryMonth | packages/shared/src/owner-ledger/index.ts:187-208 | ranges and periods agree on every date if and only if the closing day is at most 28 |
| StatementLaws.ChainingIsOneStatement | packages/shared/src/owner-ledger/index.ts:250-256 | closing month after month ends where one statement over the whole ledger does |
| ChargeSplit.ConsumptionWeightsValid | packages/shared/src/charge-split/index.ts:159-194 | the consumption weights can be split whenever the engine splits them |
| ChargeSplit.NoErrorIsComputable | packages/shared/src/charge-split/index.ts:196-211 | no rule error if and only if every percentage is within range and every fixed amount is given and non-negative |
| ChargeSplit.CollectInLast | packages/shared/src/charge-split/index.ts:257-265 | the in-place loop moves every late part onto the last one kept |
| ChargeSplit.PushAllocations | packages/shared/src/charge-split/index.ts:267-283 | the loop pushes one allocation per kept installment that charges something |
| ChargeSplit.SplitRule | packages/shared/src/charge-split/index.ts:234-283 | installments, late collection and surpluses of one rule |
| ChargeSplit.SplitBill | packages/shared/src/charge-split/index.ts:129-294 | the loop over the rules computes the specified allocations, skips and warnings, or the first error |
| ChargeSplitAmounts.ShareIs | packages/shared/src/charge-split/index.ts:143-212 | the share of a rule in each mode, on the nominal base exactly when the rule is annual, the discount is somebody else's and the nominal amount is larger |
| ChargeSplitAmounts.ChargedAndPaid | packages/shared/src/charge-split/index.ts:215-233 | a rule is charged its share on its base and paid its share on the amount paid |
| ChargeSplitAmounts.RuleAllocatesAt | packages/shared/src/charge-split/index.ts:234-283 | the allocations of a rule are its installments in the contract's months, each in its month, with its amount, its part of the difference and whose it is |
| ChargeSplitAmounts.NothingDroppedAddsUp | packages/shared/src/charge-split/index.ts:248-283 | with nothing dropped, the allocations of a rule add up to its share |
| ChargeSplitAmounts.UnshareableAllocatesNothing | packages/shared/src/charge-split/index.ts:159-177 | a consumption rule that cannot be shared allocates nothing |
| ChargeSplitAmounts.RuleSkipsAre | packages/shared/src/charge-split/index.ts:221-233 | a rule is skipped when the tenant pays directly or it charges nothing, with the reason |
| ChargeSplitAmounts.RuleWarningsAre | packages/shared/src/charge-split/index.ts:284-290 | a rule warns of its late installments: collected in the last, or dropped |
| ChargeSplitAmounts.SplitIsRuleByRule | packages/shared/src/charge-split/index.ts:129-294 | a bill is split rule by rule, consumption that cannot be shared skipped first |
| ChargeSplitAmounts.SplitRefusedExactlyWhen | packages/shared/src/charge-split/index.ts:129-141 | which bills are refused, for the amount, the installments or a rule |
| ChargeSplitAmounts.FirstBadRuleIsTheError | packages/shared/src/charge-split/index.ts:196-211 | the first rule that cannot be computed gives the error |
| ChargeSplitAmounts.LinesGoTo | packages/shared/src/charge-split/index.ts:352-376 | whose each line of an installment is, and its amount |
| ChargeSplitLaws.EqualParts | packages/shared/src/charge-split/index.ts:239-244 | an installment is the whole cents of an n-th, and the first ones carry the cents left |
| ChargeSplitLaws.InstallmentsMonotone | packages/shared/src/charge-split/index.ts:239-245 | charging more never lowers an installment |
| ChargeSplitLaws.RuleChargesItsShare | packages/shared/src/charge-split/index.ts:239-290 | installments add up to the charged share less what is dropped; nothing is dropped when the rest is collected in the last month |
| ChargeSplitLaws.SurplusOfRule | packages/shared/src/charge-split/index.ts:154-237 | the charged share is at least the paid one for percentages and fixed amounts, and at most a cent below by consumption |
| ChargeSplitLaws.ConsumptionSurplus | packages/shared/src/charge-split/index.ts:154-237 | a consumption rule is charged below what is paid for it if and only if it and the first one charge the nominal amount and the split takes a cent from it; no surplus when the first one does not |
| ChargeSplitLaws.UnknownConsumptionSurplus | packages/shared/src/charge-split/index.ts:176-179 | a unit alone with no declared consumption is paid the whole amount and never charged less |
| ChargeSplitLaws.ConsumptionCanChargeLess | packages/shared/src/charge-split/index.ts:180-193 | of a bill of ten and eleven nominal cents, the third unit pays two and is charged one, all on the same base |
| ChargeSplitLaws.SurplusWithinInstallment | packages/shared/src/charge-split/index.ts:226-283 | for percentage and fixed rules every surplus is between zero and its installment |
| ChargeSplitLaws.LinesAddUp | packages/shared/src/charge-split/index.ts:352-377 | an installment's lines add up to it if and only if its surplus does not exceed it or is nobody's |
| ChargeSplitLaws.RuleLinesAddUp | packages/shared/src/charge-split/index.ts:330-377 | in every mode, the lines of a rule add up to its installments |
| ChargeSplitLaws.ConsumptionIsConserved | packages/shared/src/charge-split/index.ts:159-193 | on the paid and on the nominal base, the units' shares are the base less the part of the unshared consumption, nothing when they cover it |
| ChargeSplitLaws.ChargedConsumptionIsBounded | packages/shared/src/charge-split/index.ts:159-229 | what the units are charged, with its exact excess over the common base; none when all or none of the rules charge the nominal amount |
| ChargeSplitLaws.MixedRulesChargeTooMuch | packages/shared/src/charge-split/index.ts:159-229 | with mixed rules the units are charged twelve cents of a nominal bill of eleven |
| ChargeSplitLaws.SplitIsOfTheRules | packages/shared/src/charge-split/index.ts:221-283 | every allocation charges something, and has the payer and contract of one of the rules |
| Liquidation.LineTotals | packages/shared/src/liquidacion-engine/index.ts:47-74 | the loop adds up charges and discounts, or refuses a negative amount |
| Liquidation.BuildLiquidation | packages/shared/src/liquidation-builder/index.ts:227-417 | pushing rent, deferred month, discounts and extras in order builds the specified liquidation or skip |
| LiquidationAmounts.DaysAreCounted | packages/shared/src/liquidation-builder/index.ts:175-193 | how the days of a stretch are counted in each way, the 31st and the last day of the month included |
| LiquidationAmounts.RentForIs | packages/shared/src/liquidation-builder/index.ts:265-318 | the rent lines in every mode: two stretches, the new rent or the old one, each prorated to the cent |
| LiquidationAmounts.DiscountLinesAre | packages/shared/src/liquidation-builder/index.ts:341-374 | the percentage of the rent to the cent, and the fixed discount, whole or prorated, up to what is left of the rent |
| LiquidationAmounts.LinesOfAre | packages/shared/src/liquidation-builder/index.ts:271-392 | the lines are rent, first month, discounts and every extra, in order |
| LiquidationAmounts.BuiltIs | packages/shared/src/liquidation-builder/index.ts:376-416 | the subtotal is what the lines charge, the total what is left after the discounts and never negative; a negative line refuses it all |
| LiquidationAmounts.DueDateIs | packages/shared/src/liquidation-builder/index.ts:396-402 | due on the due day or the last of the month, or on a later start |
| LiquidationAmounts.SkippedExactlyWhen | packages/shared/src/liquidation-builder/index.ts:233-262 | each reason for skipping a month, and exactly when it is the one given |
| LiquidationAmounts.SkippedIs | packages/shared/src/liquidation-builder/index.ts:233-262 | a liquidation is skipped for that reason and no other |
| LiquidationLaws.MonthCoversItsDays | packages/shared/src/liquidation-builder/index.ts:227-270 | for every contract, a month's liquidation covers exactly the contract's days in it, unless it is a first month billed elsewhere |
| LiquidationLaws.BilledMonths | packages/shared/src/liquidation-builder/index.ts:237-263 | which months are billed: those a billed contract touches, but for a first month billed elsewhere |
| LiquidationMonths.EveryDayOnce | apps/api/src/modules/liquidaciones/liquidaciones.service.ts:437-475 | for every contract and whatever rules each month has, a liquidation bills a day if and only if the day is in force and of its month, or of a first month billed elsewhere that it includes |
| LiquidationMonths.DeferredIffIncluded | packages/shared/src/liquidation-builder/index.ts:227-339 | the first month is skipped as deferred if and only if the next liquidation includes it, exactly when the rules of both months put it off or neither do |
| LiquidationMonths.DaysAreLostExactlyWhen | packages/shared/src/liquidation-builder/index.ts:227-339 | no day is billed by two liquidations, and a day in force is billed by none exactly when it is of a first month billed elsewhere that the next rules do not put off |
| LiquidationMonths.FirstMonthCanBeLost | packages/shared/src/liquidation-builder/index.ts:251-334 | with a due day moved from 10 to 20 the first month is deferred and the next liquidation does not include it |
| LiquidationMonths.FirstMonthCanBeBilledAfterSigning | packages/shared/src/liquidation-builder/index.ts:251-334 | a first month charged at signing is included in the next liquidation when its rules put it off |
| LiquidationMonths.BuiltBeforeTheEndIsKnown | packages/shared/src/liquidation-builder/index.ts:227-417 | recording an end later than the month does not change the liquidation already built |
| LiquidationLaws.RentIsForItsDays | packages/shared/src/liquidation-builder/index.ts:265-339 | with real days, every rent line of a built liquidation is the proration of its rent over its days, and the days are those it covers: one line, two lines of a split, the new rent, and the deferred first month |
| LiquidationMonths.BuiltDaysAddUp | packages/shared/src/liquidation-builder/index.ts:227-417 | with real days and any rules each month, the days of the liquidations built month by month add up to those from start to actual end less a lost first month, and to all of them if and only if none is lost |
| LiquidationLaws.SplitKeepsTheDays | packages/shared/src/liquidation-builder/index.ts:293-308 | the two stretches of a split month add up to its days in every way of counting |
| LiquidationLaws.SplitAtEqualRents | packages/shared/src/liquidation-builder/index.ts:288-308 | at equal rents the two lines are within a cent of one line for the same days |
| LiquidationLaws.SplitAgainstUnsplit | packages/shared/src/liquidation-builder/index.ts:283-318 | and within a cent of the unsplit month, except without proration in a month that is not whole |
| LiquidationLaws.SplitWithoutProration | packages/shared/src/liquidation-builder/index.ts:293-318 | in that case the difference is the rent of the days not covered, within a cent and a half |
| LiquidationLaws.DiscountsWithinRent | packages/shared/src/liquidation-builder/index.ts:341-374 | with a percentage of at most 100 % the discounts are non-negative and never exceed the rent |
| Cycle.SettlePayments | packages/shared/src/reconciliation/cycle.ts:483-493 | the loop settles a contract's payments with what was paid before each, and pushes their entries |
| Cycle.SettlePrevious | packages/shared/src/reconciliation/cycle.ts:469-474 | last month's liquidation is settled whole in one payment and posted, or its error stops the cycle |
| Cycle.RunContracts | packages/shared/src/reconciliation/cycle.ts:464-504 | contract by contract onto one ledger, last month first when it was paid late; stops at a contract whose buckets fail |
| Cycle.RunCompensations | packages/shared/src/reconciliation/cycle.ts:506-518 | two opposite entries per compensation, or the error |
| Cycle.RunRules | packages/shared/src/reconciliation/cycle.ts:521-537 | the part of a bill of each contract passed on to its lessors |
| Cycle.RunBills | packages/shared/src/reconciliation/cycle.ts:520-538 | bill by bill, those the agency paid |
| Cycle.RunCharges | packages/shared/src/reconciliation/cycle.ts:540-554 | the lessors' charges, and the fee of a repair |
| Cycle.Keys | packages/shared/src/reconciliation/cycle.ts:587-587 | every lessor and currency of the ledger, once each |
| Cycle.Statements | packages/shared/src/reconciliation/cycle.ts:584-600 | a statement for each lessor and currency |
| Cycle.StatementOfKey | packages/shared/src/reconciliation/cycle.ts:588-596 | last month closed if it has movements, and the month of the cycle opened with it |
| Cycle.RunCycle | packages/shared/src/reconciliation/cycle.ts:450-578 | the stages pushing onto one shared ledger compute the specified statements |
| CycleAccounts.PaymentIsSettledWith | packages/shared/src/reconciliation/cycle.ts:417-437 | what a payment is settled with: its contract's terms, who received it, and the amounts of the payments before it |
| CycleAccounts.PreviousIsSettledWith | packages/shared/src/reconciliation/cycle.ts:469-474 | last month's liquidation is settled whole as its first payment |
| CycleAccounts.PaymentsByDateAndKey | packages/shared/src/reconciliation/cycle.ts:483-493 | payments by date, those of one date by key |
| CycleAccounts.SettlementsAreOfThePayments | packages/shared/src/reconciliation/cycle.ts:483-493 | each remembered settlement is that of a payment with its key |
| CycleAccounts.CompensationsInAccount | packages/shared/src/reconciliation/cycle.ts:506-518 | each compensation takes its amount from the one who pays it and gives it to the other, in the contract's currency from the payment's date; no other account changes; and which one stops the stage |
| CycleAccounts.SharedByPercentage | packages/shared/src/owner-ledger/index.ts:162-177 | a signed amount is shared by percentage when they are usable, else in equal parts, with its sign |
| CycleAccounts.LedgerInAccount | packages/shared/src/reconciliation/cycle.ts:450-578 | the account of each lessor and currency, whole, by entry type or by unit, is what each stage leaves in it |
| CycleAccounts.StatementOfEachLessor | packages/shared/src/reconciliation/cycle.ts:580-604 | each lessor's statement closes with what the cycle leaves it before the next month, opens with what was left before, and each total by type is the month's |
| CycleAccounts.UnitsOfEachLessor | packages/shared/src/reconciliation/cycle.ts:580-604 | the net of each unit's group in a lessor's statement is what the month left it of that unit, and a unit without a group left nothing |
| CyclePasses.RunsExactlyWhen | packages/shared/src/reconciliation/cycle.ts:450-578 | a cycle goes through if and only if every contract, compensation, bill and charge does |
| CycleLaws.PaymentsAreItsOwnInOrder | packages/shared/src/reconciliation/cycle.ts:484-486 | the payments settled for a contract are exactly its own, by date and key |
| CycleLaws.PostingsSum | packages/shared/src/reconciliation/cycle.ts:439-443 | a settled payment leaves in the ledger the balances of its positions |
| CycleLaws.CompensationCancels | packages/shared/src/reconciliation/cycle.ts:506-518 | the two entries cancel in every currency and at every date |
| CycleLaws.SharedSum | packages/shared/src/reconciliation/cycle.ts:527-536 | an amount shared among lessors reaches the ledger whole |
| CycleBills.RulesChargeTheAllocations | packages/shared/src/reconciliation/cycle.ts:520-538 | the loop over a bill's rules takes every allocation once for each rule passing it on to the owner of its contract |
| CycleBills.OwnersPayOnceExactlyWhen | packages/shared/src/reconciliation/cycle.ts:520-538 | the lessors pay at least the parts passed on to them, and each once if and only if no charged part is of a contract with several such rules |
| CycleBills.OwnersCanPayTwice | packages/shared/src/reconciliation/cycle.ts:520-538 | two such rules of one contract charge its lessors twice the bill |
| CycleLaws.BillsAreChargedOnceExactlyWhen | packages/shared/src/reconciliation/cycle.ts:520-538 | the same over all the bills of a cycle |
| CycleLaws.LedgerIsAccountedFor | packages/shared/src/reconciliation/cycle.ts:460-575 | where every cent of the ledger of a currency comes from, the bills by their allocations |
| CycleLaws.AccountsPartition | packages/shared/src/reconciliation/cycle.ts:587-591 | every entry belongs to exactly one account |
| CycleLaws.ClosingIsTheAccount | packages/shared/src/reconciliation/cycle.ts:589-597 | closing last month first and opening the cycle with it gives the balance of the whole account |
| CycleLaws.CycleConserves | packages/shared/src/reconciliation/cycle.ts:450-600 | for every cycle and currency, closings add up to openings plus settled balances less the bills' allocations, charges, fees and payouts dated before the next month; the allocations count once if and only if no bill charges a part twice |
| Template.Parse | packages/shared/src/template-blocks.ts:109-199 | the loop with its stack of open blocks computes the specified tree or error |
| Template.Budget.constructor | packages/shared/src/template-blocks.ts:295-295 | a budget starts with what it is given |
| Template.RenderPiece | packages/shared/src/template-blocks.ts:252-272 | renders a node and leaves the shared budget as specified |
| Template.RenderElements | packages/shared/src/template-blocks.ts:258-271 | renders the body once per element, with its position fields |
| Template.Render | packages/shared/src/template-blocks.ts:250-278 | charges each piece to the shared budget as it is added, and stops at the first error |
| Template.RenderTemplate | packages/shared/src/template-blocks.ts:294-296 | a rendering starts with the whole budget and no loop element |
| TemplateErrors.RefusedExactlyWhen | packages/shared/src/template-blocks.ts:109-201 | a template is refused with the error of the first tag refused where it stands, or as unclosed; and accepted exactly otherwise |
| TemplateMeaning.FieldOfAnElement | packages/shared/src/template-blocks.ts:209-217 | a dotted name is the field of a loop element when it has it, else a value |
| TemplateMeaning.PlainName | packages/shared/src/template-blocks.ts:209-217 | any other name is a value |
| TemplateMeaning.ConditionMeans | packages/shared/src/template-blocks.ts:219-248 | when a condition holds: alone, by number in the order of the numbers, by text, and negated |
| TemplateMeaning.NumbersAreWritten | packages/shared/src/template-blocks.ts:55-55 | only a sign, digits and a comma or point with digits are numbers |
| TemplateMeaning.WrittenNumber | packages/shared/src/template-blocks.ts:226-228 | a written number is worth its digits, with its sign and point |
| TemplateMeaning.ZeroIsWorthNothing | packages/shared/src/template-blocks.ts:56-56 | a zero is exactly a number worth nothing |
| TemplateMeaning.ElementIs | packages/shared/src/template-blocks.ts:257-271 | the element a loop reads: its position, how many there are, whether first or last, and its own fields |
| TemplateMeaning.VariablesAreMentioned | packages/shared/src/template-blocks.ts:303-325 | the extracted names are exactly those mentioned outside the elements of the loops around them |
| TemplateSyntaxLaws.RoundTrip | packages/shared/src/template-blocks.ts:109-199 | parsing the tokens of a well-formed tree of at most six levels gives the tree back |
| TemplateSyntaxLaws.StepKeeps | packages/shared/src/template-blocks.ts:112-199 | what has been read is always what the open blocks print, and the stack stays well formed |
| TemplateSyntaxLaws.ParsedIsPrinted | packages/shared/src/template-blocks.ts:109-199 | an accepted template is exactly what its tree prints, empty texts aside |
| TemplateSyntaxLaws.EmptyTextsDoNotMatter | packages/shared/src/template-blocks.ts:119-125 | empty texts change neither the tree nor the error |
| TemplateSyntaxLaws.AcceptsExactlyTheWellNested | packages/shared/src/template-blocks.ts:109-199 | the parser accepts exactly the tokens of some well-formed tree of at most six levels, and answers that tree |
| TemplateSyntaxLaws.NeverDeeperThanSix | packages/shared/src/template-blocks.ts:46-46 | nothing accepted ever has more than six blocks open, or closes one that is not open |
| TemplateRenderLaws.VariablesDecide | packages/shared/src/template-blocks.ts:303-325 | values that agree on the extracted variables, with no key under an alias, render the same or fail the same |
| TemplateRenderLaws.AliasNamedKeysAreNotExtracted | packages/shared/src/template-blocks.ts:209-217 | a value named like an alias changes the output without being extracted |
| TemplateRenderLaws.BudgetedSeq | packages/shared/src/template-blocks.ts:250-278 | the budgeted rendering is the unlimited one when its charge fits, and the size error when it does not |
| TemplateRenderLaws.CostOfSeq | packages/shared/src/template-blocks.ts:273-275 | every character is charged at least once, and at most once per level around it |
| TemplateRenderLaws.SizeLimit | packages/shared/src/template-blocks.ts:250-278 | no rendering exceeds 2 000 000 characters, and every output of at most 285 714 is produced |
| TemplateRenderLaws.SafeOutputIsTight | packages/shared/src/template-blocks.ts:250-278 | six levels deep, one character more than 285 714 is refused |
| Collections.SortDays | packages/shared/src/collection-engine/index.ts:153-162 | sorted, with the same days |
| CollectionsLaws.RemindersAreSafe | packages/shared/src/collection-engine/index.ts:130-189 | a reminder goes out only in an early stage, with something overdue, outside an agreement, before any letter and its date, and far enough from every earlier one |
| CollectionsLaws.LettersAreSafe | packages/shared/src/collection-engine/index.ts:130-189 | a letter is prepared only when none has been, outside an agreement and from its date on |
| CollectionsLaws.LetterIsNotMissed | packages/shared/src/collection-engine/index.ts:130-189 | whenever those conditions hold and something is overdue, the pass prepares the letter |
| CollectionsLaws.StepKeeps | apps/api/src/modules/collections/collections-process.service.ts:184-252 | every event keeps the stage or moves it along the machine, and keeps reminders and letters already recorded |
| CollectionsLaws.StagesFollowTheMachine | packages/shared/src/state-machine/collection-case-state-machine.ts:19-25 | in every run the stage only moves along the machine |
| CollectionsLaws.RemindersAreSpaced | packages/shared/src/collection-engine/index.ts:130-197 | in every run two reminders are at least min(everyDays, firstReminderDays + 1) days apart, everyDays for the same oldest debt |
| CollectionsLaws.AfterTheLetterNothing | packages/shared/src/collection-engine/index.ts:130-197 | in every run at most one letter is prepared and no reminder follows it |
| CollectionsLaws.NothingDuringAnAgreement | apps/api/src/modules/collections/collections.service.ts:117-138 | in every run nothing goes out from an agreement until its last day |
| CollectionsLaws.SmallerGapIsReached | packages/shared/src/collection-engine/index.ts:162-171 | the gap of firstReminderDays + 1 really happens when the oldest rent is paid |
| CollectionsDecisions.LetterDayIs | packages/shared/src/collection-engine/index.ts:102-160 | the letter's day: after the second unpaid rent or that of a month later, and not before an agreement ends |
| CollectionsDecisions.ReminderDayIs | packages/shared/src/collection-engine/index.ts:162-171 | the next reminder's day: its turn, a whole interval after the last, and not before an agreement ends; while there are levels or the last repeats |
| CollectionsDecisions.PlanIs | packages/shared/src/collection-engine/index.ts:130-184 | every plan, case by case: its status, action, day, level and who does it |
| CollectionsDecisions.MovesForward | packages/shared/src/state-machine/collection-case-state-machine.ts:19-25 | a case moves to any later stage, to court only from a lawyer |
| CollectionsDecisions.StageAfterIs | packages/shared/src/collection-engine/index.ts:190-197 | what each action does to the stage |
| CollectionsDecisions.DailyPassIs | apps/api/src/modules/collections/collections-process.service.ts:184-252 | what a daily pass leaves in the case, and that nothing else changes |
| CollectionsDecisions.ByHandIs | apps/api/src/modules/collections/collections.service.ts:117-138 | what each event of a person leaves in the case |
| IndexWindows.ExpectedMonthlyPeriods | packages/shared/src/adjustment-engine/windows.ts:35-53 | the month-by-month walk lists the months of the window |
| IndexWindows.MonthsOfAreInside | packages/shared/src/adjustment-engine/windows.ts:35-53 | those are exactly the months whose first day is in the window |
| IndexWindows.WindowsAreDisjoint | packages/shared/src/adjustment-engine/windows.ts:25-53 | no month is used by two adjustments, despite the day clipping |
| IndexWindows.ChainIsOneStretch | packages/shared/src/adjustment-engine/windows.ts:25-53 | the chained windows are one stretch of months with no gap |
| IndexWindows.ChainedIsWhole | packages/shared/src/adjustment-engine/windows.ts:25-53 | they are the months of one window over the whole time when the first date less the lag is not before the start |
| IndexWindows.ChainedIsWholeIff | packages/shared/src/adjustment-engine/windows.ts:25-53 | in general, if and only if no month begins between that date and the start, within the windows |
| LessorShares.SumAt | packages/shared/src/parties/lessor-shares.ts:30-36 | the sum of the shares in force at an instant |
| LessorShares.FindInvalidShareDates | packages/shared/src/parties/lessor-shares.ts:54-75 | the sweep reports the specified points, in order |
| LessorShares.PointsSuffice | packages/shared/src/parties/lessor-shares.ts:54-75 | nothing is reported if and only if the shares add up to 100 % at every instant of the window |
| LessorShares.EveryBadInstantIsReported | packages/shared/src/parties/lessor-shares.ts:54-75 | every bad instant has a reported date at or before it with the same sum |
| LessorShares.PointFor | packages/shared/src/parties/lessor-shares.ts:54-75 | every instant has a checked point at or before it with the same sum |
| LessorShares.EmptyWindowStillLooksAtTheStart | packages/shared/src/parties/lessor-shares.ts:54-75 | in an empty window the start alone decides |
| LessorShares.ReportsInOrder | packages/shared/src/parties/lessor-shares.ts:54-75 | the reports come by date, one each |
| LessorShares.SplitEqualPct | packages/shared/src/parties/lessor-shares.ts:41-48 | equal parts that add up to 100 %, the last one within half a unit per part of the others |
| Sla.ComputeSlaDueAt | packages/shared/src/inbox/sla.ts:20-43 | a business deadline is found if and only if the scanned days have enough business time; otherwise wall time |
| SlaLaws.DueIsTheLeast | packages/shared/src/inbox/sla.ts:15-43 | the deadline is the least instant with exactly the promised business time |
| SlaLaws.NothingToWaitFor | packages/shared/src/inbox/sla.ts:26-41 | for zero minutes it is the first business instant: within hours, with none before it from the start on |
| SlaLaws.BusinessTimeIsTheOpenTime | packages/shared/src/inbox/sla.ts:15-43 | business time goes on exactly while the hours are open, by local weekday and time of day |
| SlaLaws.CapacityOfAWeek | packages/shared/src/inbox/sla.ts:26-41 | any seven days scanned hold the business time of a week |
| SlaLaws.TwoWeeksAreWithinReach | packages/shared/src/inbox/sla.ts:11-43 | up to 120 minutes * business days * hours a day the scan never falls back to wall time |
| GridPaste.ParseClipboardGrid | apps/web/src/lib/grid-paste.ts:8-56 | the character loop with one of lookahead computes the specified grid, or nothing for a text that is not one |
| GridPaste.RoundTrip | apps/web/src/lib/grid-paste.ts:8-56 | any matrix written with quoted or plain cells and any line breaks is read back |
| GridPaste.QuotedRoundTrip | apps/web/src/lib/grid-paste.ts:8-56 | in particular with every cell quoted, whatever it holds |

## Left out

- The web services, database, HTTP, scheduling, queues, e-mail and user interface: I/O and framework code. The collection process is modelled as one event per daily pass, agreement, confirmed letter or move by hand.
- Cycle.RunCycle: the building of the cycle's liquidation lines (index formulas, rent history, bill, charge and penalty lines, upfront collection) is not modelled; the cycle takes each contract's lines and total as given.
- Cycle.RunContracts: the same; its lines are given.
- The per-contract concepts, keys and texts of the cycle's result, and the order in which its statements are listed: formatting.
- The text order of payment keys in the cycle: each payment carries its place in that order.
- Penalty.RateOnDay: the fractional power behind an effective daily rate is not computed; each published rate carries it as a parameter, and everything holds for any value of it.
- The 40-digit limit of the decimal library: arithmetic is exact.
- Percentages with more than four decimals.
- The tags' regular expressions, the whitespace around a block alone on its line, and the line and column of an error: the parser starts from the tokens. The open node is added to its parent when it is closed, not when it is opened.
- The shortcut that returns a text without any tag as it is, with no size limit: rendering starts from the tree.
- Comparisons in templates use exact decimals, without the rounding of a double; trimming knows the ASCII spaces only; inherited object properties are not looked up.
- SettlementLaws.RunGivesTheCumulativeSplit: for the same lines, commission, percentages and mode at every payment, as is SettlementLaws.PathIndependence; runs whose terms change are in SettlementChanges.GivenIsTheLastCover.
- SettlementLaws.PaidInFull: the same; SettlementChanges.EndsAtTheBucketsExactlyWhen gives the exact condition for terms that change.
- Statement.ComputeStatement: the groups come in the order their units first appear; the final order by label (locale collation) and the labels are not modelled.
- The statements by currency, which only partition the entries.
- The checks of a compensation before it is registered; the amount it takes by default is part of the cycle.
- The last month's rent, the currency conversion of the liquidation engine, comprobantes, deposits, follow-up and invoicing: simple formulas.
- The remaining state of an SLA (warning, breached, met): a comparison of instants.
- Dates with a time of day in index windows.
- Texts for people: descriptions, labels, messages, number and date formatting.
- Calendar.AddMonthsClamped: months before year 0 are outside the calendar, so a shift must stay within it.
