# A verified model of the lending reserve's reference calculations

The repository checks its lending pool against an executable reference model: for every
transaction it computes the record that the reserve and the user should show afterwards. This
project models those calculations in Dafny and proves what they promise: over every run of
transactions, for every rate, amount, index and time.

| file | contents |
|---|---|
| `WadRayMath.dfy`, `Arithmetic.dfy` | half-up fixed-point arithmetic and its rounding laws |
| `Interest.dfy`, `Compounding.dfy` | linear and third-order compound interest; comparison with true compounding |
| `Rates.dfy` | usage ratios, the kinked rate curve, overall and supply rate |
| `RateCurve.dfy` | usage ratios as shares, the two slopes and corners of each rate, the stable premium |
| `Reserves.dfy` | the reserve and user records as values; each transaction as a function of the record before |
| `Invariant.dfy`, `Transactions.dfy` | the state invariant and its preservation by accrual and by each transaction |
| `Runs.dfy` | runs of transactions by many users; what holds over all of them |
| `Solvency.dfy`, `SolventRuns.dfy`, `SlackBounds.dfy` | what suppliers and treasury may claim against what the reserve holds and is owed: one accrual, whole runs, and how large the slack can get |
| `Payout.dfy`, `PayoutRuns.dfy` | the other side: what borrowers pay reaches suppliers and treasury, over one accrual and over runs |
| `Brackets.dfy` | what borrowers come to owe against true per-second compounding |
| `Wallets.dfy`, `Coherence.dfy` | conservation of the underlying token; the user's predicted record against the reserve's |
| `Pitfalls.dfy`, `NegativeSwap.dfy` | runs from an unused market on which the calculations, as written, go wrong |
| `StableRates.dfy`, `Timing.dfy`, `Bridge.dfy`, `Liquidation.dfy` | the stable average, repeated accrual, backing fees, liquidation splits |
| `ReserveRecords.dfy`, `UserRecords.dfy` | the mutable records and the step functions that fill them, proved against `Reserves.dfy` |
| `StoryRunner.dfy` | the story runner as an object that executes actions in place, proved against `Runs.dfy` |
| `HTokenEvents.dfy`, `HTokenLedger.dfy` | the supply token's events and the ledger that replays them |

## How the source is rendered

- `BigNumber` values are unbounded integers; `div` truncates toward zero (`TruncDiv`), which matters
  where stable debt is removed at a rate above the average. A zero divisor and the failing check
  `supply usage <= borrow usage` are results (`DivisionByZero`, `UsageCheck`), not preconditions.
- The entry of `reservesParams` for the reserve, together with the market stable rate, is a
  `Strategy`. `Strategy.Valid` asks for an optimal usage in (0, RAY], an optimal stable ratio in
  [0, RAY], a reserve factor of at most 100% and non-negative rates.
- The repository predicts no user record for minting unbacked tokens; the model credits their holder
  as a deposit does, without a payment, and computes a backing over the sum of all scaled balances,
  which is what its test passes in.
- Only the borrow and repay steps write `lastUpdateTimestamp`, and no step writes
  `totalStableDebtLastUpdated`; the comparison after each action skips both. The run model stamps
  them with the transaction's time (the second one only when the stable debt was rewritten), and
  `StoryRunner` does so explicitly.
- Before every action the record is read back from the chain at a time `now`. `Observe` is that
  reading: debts have grown, ratios follow, nothing is written.
- Claims are what suppliers and treasury may ask for, assets what the reserve holds and is owed. Supply
  interest is linear and borrow interest compound, so the two are kept together from both sides only up
  to a slack: `Solvency` bounds claims by assets, `Payout` bounds assets by claims.
- What the pool refuses is a guard on runs (`Runs.Permitted`, `Runs.Allowed`): no withdrawal or
  borrow beyond the available liquidity, no withdrawal beyond the balance, no variable repayment
  beyond the debt, no backing when nothing is supplied. A user's stable side is whatever the chain
  reports; the supply balance, and for the conservation result the variable debt, is the stored one.
- Comments above both normalized-index functions speak of a zero usage ratio while the code tests
  the rate; the model follows the code, and `IncomeGuardsAgree` and `IndexGuardsAgree` show that the
  difference cannot be observed.

## Quirks kept as written, and what they mean

- A variable borrow starts the user's scaled debt from the reserve's total. `BorrowBalancedIffSole`
  shows that the books then balance exactly when that user owes all the variable debt, and
  `SecondBorrowUnbalances` is a three-line run after which they do not.
- Swapping stable debt away has no clamp, unlike repayment. `SwapToVariableKeepsIff` gives the exact
  condition under which the reserve stays valid; `SwapGoesNegative` is a run after which a swap
  leaves the reserve a debt of minus one, and runs allow the swap under that condition.
- A full repayment read back later is resolved to the later debt and burned at the transaction's
  index. `LateMaxRepayIsExactIff` gives the exact condition under which it still leaves nothing;
  otherwise the scaled debt comes out negative, as it does in `LateMaxRepayHappens`.
- The check between the two usage ratios fails, or divides by zero, when more than the available
  liquidity is withdrawn. `UsageCheckIff` is the exact condition; `UncoveredWithdrawalFails` is a run
  after which withdrawals within the holder's balance fail in both ways.
- The rate curve can drop at the kink (`KinkCanDrop`). `NonDecreasingIffSmallOvershoot` is the exact
  condition on the parameters, and `KinkDropsAtMostOne` bounds the drop.
- The two formulas for stable debt differ for a debt without a timestamp
  (`StableFormulasAgreeIff`). The invariant excludes such debts.
- After a deposit the user's stable principal holds the variable debt, and after a variable
  repayment current and principal stable debt are exchanged. Both are in `Reserves.dfy` as written;
  `StableFieldsMisplaced` says when the figures agree all the same, and `StableDebtIsCoherent` covers
  every other step.

## Model

| member | source | states |
|---|---|---|
| WadRayMath.RayMulRounds | test-suites/helpers/utils/wadraymath.ts:82-88 | the product of two rays is the nearest integer to the true one, a half rounding up |
| WadRayMath.RayDivRounds | test-suites/helpers/utils/wadraymath.ts:90-98 | the quotient of two rays is the nearest integer to the true one, a half rounding up |
| WadRayMath.PercentMulRounds | test-suites/helpers/utils/wadraymath.ts:100-106 | a percentage of an amount is the nearest integer to the true one |
| WadRayMath.PercentDivRounds | test-suites/helpers/utils/wadraymath.ts:108-116 | dividing by a percentage gives the nearest integer to the true quotient |
| WadRayMath.PercentMulAgainstWhole | test-suites/helpers/utils/wadraymath.ts:100-106 | at most 100% of an amount never exceeds it, at least 100% covers it |
| WadRayMath.FullExit | test-suites/helpers/utils/wadraymath.ts:82-98 | a scaled balance survives being multiplied by any index of at least a ray and divided by it again |
| WadRayMath.DivideThenMultiply | test-suites/helpers/utils/wadraymath.ts:82-98 | an amount divided by an index and multiplied back returns to within 1/2 + index / (2 RAY) |
| WadRayMath.MovedShares | test-suites/helpers/utils/wadraymath.ts:82-98 | moving an amount in scaled units moves the balance by that amount to within 1 + index / (2 RAY) |
| WadRayMath.RayDivAntitone | test-suites/helpers/utils/wadraymath.ts:90-98 | a larger divisor never gives a larger quotient, rounding included |
| WadRayMath.WadRayRoundTrip | test-suites/helpers/utils/wadraymath.ts:118-134 | wads survive the trip through rays; rays come back to within half of the ratio |
| Interest.CompoundedIsBinomial | test-suites/helpers/utils/calculations.ts:1213-1238 | the accumulator's halves and sixths divide exactly: it is the binomial expansion up to order three |
| Interest.Vandermonde | test-suites/helpers/utils/calculations.ts:1225-1232 | how the second and third binomial coefficient of a sum of intervals split over the two intervals |
| Compounding.CompoundedMonotone | test-suites/helpers/utils/calculations.ts:1213-1238 | compound interest is at least a ray and never falls as time passes |
| Compounding.CompoundedAtLeastLinear | test-suites/helpers/utils/calculations.ts:1201-1238 | compound interest is never below linear interest for the same rate and interval |
| Compounding.CompoundedAtMostTrue | test-suites/helpers/utils/calculations.ts:1213-1238 | compound interest never exceeds true per-second compounding by more than the two half-up roundings can add |
| Compounding.SplitNeverUndercharges | test-suites/helpers/utils/calculations.ts:1213-1238 | compounding over an interval in two steps joined by a ray product charges at least what one step does, less an explicit slack |
| Compounding.InterestKeepsPace | test-suites/helpers/utils/calculations.ts:1213-1238 | interest accrued up to any moment goes on earning at the yearly rate from then on, less the floors and the fourth-order term that the accumulator leaves out |
| Compounding.InterestStaysInPace | test-suites/helpers/utils/calculations.ts:1213-1238 | and earns no more than that, plus the orders that compounding over the later interval adds and the roundings |
| Rates.UsageInRange | test-suites/helpers/utils/calculations.ts:1369-1387 | a usage ratio over covered liquidity exists and lies in [0, RAY] |
| Rates.UsageCheckPasses | test-suites/helpers/utils/calculations.ts:1369-1387 | the run-time check between the two ratios passes whenever the liquidity is covered |
| Rates.UsageCheckIff | test-suites/helpers/utils/calculations.ts:1369-1387 | for every non-negative debt the check passes, without dividing by zero, exactly under a condition on debt and liquidity: no debt, or the liquidity covers it, or both totals are negative, or both ratios round to nothing |
| Rates.CurveDefined | test-suites/helpers/utils/calculations.ts:1282-1318 | no branch of the two-slope curve divides by zero, boundary values of the optimal usage included |
| Rates.StableRateDefined | test-suites/helpers/utils/calculations.ts:1278-1331 | the stable-to-total ratio lies in [0, RAY] and the stable rate exists and is at least the market rate |
| Rates.RatesDefined | test-suites/helpers/utils/calculations.ts:1240-1345 | with covered liquidity all three rates exist and are at least their floors |
| Rates.NonDecreasingIffSmallOvershoot | test-suites/helpers/utils/calculations.ts:1282-1318 | the rate is non-decreasing in usage exactly when the rounding at the kink is covered by half the optimal usage and the second slope's first step |
| Rates.ExactKinkNonDecreasing | test-suites/helpers/utils/calculations.ts:1282-1318 | the rate is non-decreasing when slope 1 times the optimal usage is a multiple of a ray |
| Rates.KinkDropsAtMostOne | test-suites/helpers/utils/calculations.ts:1282-1318 | with the kink at half a ray or above, the rate never drops by more than one unit |
| Rates.KinkCanDrop | test-suites/helpers/utils/calculations.ts:1282-1318 | parameters for which one more unit of usage lowers the rate |
| Rates.OverallRateIsMean | test-suites/helpers/utils/calculations.ts:1347-1367 | the overall rate is the debt-weighted mean of the two rates to within 1/2 + 10^18 / debt |
| Rates.OverallRateBetween | test-suites/helpers/utils/calculations.ts:1347-1367 | the overall rate lies between the two rates to within 1 + 10^18 / debt |
| Rates.SupplyIncomeCovered | test-suites/helpers/utils/calculations.ts:1333-1345 | suppliers' yearly income is at most the share of the borrowers' payments that the reserve factor leaves, plus explicit rounding |
| Rates.SupplyIncomeReached | test-suites/helpers/utils/calculations.ts:1333-1345 | and at least that share, less the same rounding |
| RateCurve.RatiosAreShares | test-suites/helpers/utils/calculations.ts:1369-1387 | both ratios are the debt's share of what is there, to the nearest unit: without and with the unbacked part |
| RateCurve.CurveOnSlopes | test-suites/helpers/utils/calculations.ts:1282-1318 | at every usage a rate lies on the line of the first slope up to the optimal usage and on that of the second beyond it, within explicit rounding |
| RateCurve.CurveCorners | test-suites/helpers/utils/calculations.ts:1282-1318 | the base at no usage, base and both slopes at full usage |
| RateCurve.VariableRateOnSlopes | test-suites/helpers/utils/calculations.ts:1262-1318 | the variable rate of a valid strategy lies on the variable slopes above the base rate, with those corners |
| RateCurve.VariableRateAtOptimal | test-suites/helpers/utils/calculations.ts:1282-1318 | at the optimal usage the first slope counts in full, to within the overshoot |
| RateCurve.StableRateOnSlopes | test-suites/helpers/utils/calculations.ts:1262-1318 | without premium the stable rate lies on the stable slopes above the market rate, with the same corners |
| RateCurve.StablePremium | test-suites/helpers/utils/calculations.ts:1278-1331 | the premium is nothing up to the optimal stable share, in proportion to the excess beyond it, and the whole offset when all debt is stable |
| RateCurve.ClosedRatesFit | test-suites/helpers/utils/calculations.ts:1240-1345 | the ratios and the borrow rates of every record a transaction closes fit its own debts and liquidity in this way |
| Invariant.ObserveKeepsValid | test-suites/helpers/utils/helpers.ts:52-66 | reading a valid record back at any later time passes the usage check and keeps it valid |
| Invariant.IndexGuardsAgree | test-suites/helpers/utils/calculations.ts:1411-1470 | the stored and the normalized borrow index, guarded by different fields, give every user the same variable debt |
| Brackets.NormalizedDebtAtMostTrue | test-suites/helpers/utils/calculations.ts:1411-1431 | the index a debt is read at is at most the stored one times true per-second compounding with the accumulator's slack, plus half a unit |
| Brackets.VariableIndexAtMostTrue | test-suites/helpers/utils/calculations.ts:1457-1470 | the same for the index that accrual stores |
| Brackets.VariableDebtAtMostTrue | test-suites/helpers/utils/calculations.ts:1161-1176 | a borrower never owes more than that bracket on the scaled debt |
| Brackets.StableDebtAtMostTrue | test-suites/helpers/utils/calculations.ts:1178-1485 | neither formula for stable debt exceeds true compounding on the principal by more |
| Brackets.RunIndexAtMostTrue | test-suites/helpers/scenario-engine.ts:37-42 | over every permitted story the borrow index outgrows true compounding at the story's rates by no more than the roundings of its lines |
| Invariant.IncomeGuardsAgree | test-suites/helpers/utils/calculations.ts:1389-1455 | the stored liquidity index and the normalized income, guarded by different fields, are equal and never fall |
| Invariant.StableFormulasAgree | test-suites/helpers/utils/calculations.ts:1178-1485 | the two stable-debt formulas agree when a debt without a timestamp is no debt |
| Invariant.StableFormulasAgreeIff | test-suites/helpers/utils/calculations.ts:1178-1485 | they agree at all rates and times exactly under that condition |
| Invariant.UsageStaysBounded | test-suites/helpers/utils/calculations.ts:1369-1387 | in every valid reading 0 <= supply usage <= borrow usage <= RAY |
| Invariant.AccrueGrows | test-suites/helpers/utils/calculations.ts:1494-1570 | accrual never throws, no index, debt or treasury balance falls, and the treasury's share is between 0 and the debt accrued |
| Invariant.CloseKeepsValid | test-suites/helpers/utils/calculations.ts:1572-1607 | recomputing totals, ratios and rates never throws and re-establishes the state invariant |
| Invariant.FreshReserveIsValid | test-suites/helpers/utils/interfaces/index.ts:20-45 | an unused reserve satisfies the state invariant, so runs have a start |
| Transactions.DepositKeeps | test-suites/helpers/utils/calculations.ts:151-186 | a deposit never throws, keeps the invariant and moves no index or treasury balance back |
| Transactions.WithdrawKeeps | test-suites/helpers/utils/calculations.ts:318-362 | the same for a withdrawal, MAX included, within the available liquidity |
| Transactions.MintUnbackedKeeps | test-suites/helpers/utils/calculations.ts:188-232 | the same for minting unbacked tokens |
| Transactions.BackUnbackedKeeps | test-suites/helpers/utils/calculations.ts:234-316 | the same for backing them, the fee's index jump included |
| Transactions.BorrowKeeps | test-suites/helpers/utils/calculations.ts:364-515 | the same for stable and variable borrows within the available liquidity |
| Transactions.RepayKeeps | test-suites/helpers/utils/calculations.ts:517-638 | the same for stable and variable repayments, MAX included |
| Transactions.SwapToStableKeeps | test-suites/helpers/utils/calculations.ts:871-891 | the same for a swap from variable to stable debt |
| Transactions.SwapToVariableKeepsIff | test-suites/helpers/utils/calculations.ts:851-870 | a swap from stable to variable debt succeeds and keeps the invariant exactly when the stable totals cover the user's debt |
| Transactions.AverageAfterRemoval | test-suites/helpers/utils/calculations.ts:1131-1144 | removing debt leaves a non-negative average exactly when the totals cover what is removed, truncation toward zero included |
| Transactions.BurnedWithinDebt | test-suites/helpers/utils/calculations.ts:768-780 | repaying no more than a user's debt burns no more than the user's scaled debt, and repaying all of it burns all of it |
| Transactions.CumulatedIndexGrows | test-suites/helpers/utils/calculations.ts:242-249 | sharing a premium out never lowers the liquidity index |
| Runs.ReserveStepKeeps | test-suites/helpers/scenario-engine.ts:44-302 | every permitted action, whichever it is, keeps the invariant and moves nothing back |
| Runs.UserStepMatches | test-suites/helpers/utils/calculations.ts:640-982 | for every action no scaled balance turns negative, and the user's scaled debt moves by exactly what the reserve's did, a variable borrow by anyone but the sole borrower excepted |
| Runs.StepKeeps | test-suites/helpers/scenario-engine.ts:44-302 | one line of a story on a whole market: no exception, invariant kept, and balanced books kept if the user's record is faithful and a variable borrower is the sole one |
| Runs.RunKeepsBooks | test-suites/helpers/scenario-engine.ts:37-42 | over every permitted story nothing throws, the reserve stays valid, both usage ratios stay in [0, RAY] in their order, indexes and treasury never fall, and unbacked is what was minted less what was backed, never negative |
| Runs.RunConservesDebt | test-suites/helpers/scenario-engine.ts:37-42 | over every permitted story with faithful records the reserve's scaled variable debt stays the sum of its users' |
| Runs.FreshMarketStarts | test-suites/helpers/scenario-engine.ts:37-42 | an unused market meets every condition the results about runs put on a start, and any user may deposit any amount at any later time |
| Runs.BorrowBalancedIffSole | test-suites/helpers/utils/calculations.ts:679-682 | a variable borrow keeps that sum exactly when its user already owed all the variable debt |
| Runs.PlaysAsRun | test-suites/helpers/scenario-engine.ts:37-42 | a story allowed line by line from one market to another is a permitted story whose run ends there; the failing runs below are stated this way |
| Pitfalls.SecondBorrowUnbalances | test-suites/helpers/utils/calculations.ts:679-682 | from an unused market, a deposit and one borrow leave the books balanced and any second user's borrow unbalances them, by the first user's debt |
| Pitfalls.UncoveredWithdrawalFails | test-suites/helpers/utils/calculations.ts:318-343 | a permitted run after which one withdrawal within the holder's balance divides by zero and one larger by a unit fails the usage check |
| Runs.MaxWithdrawIsExact | test-suites/helpers/utils/calculations.ts:85-113 | withdrawing everything leaves a scaled and a current balance of exactly 0 |
| Runs.MaxRepayIsExact | test-suites/helpers/utils/calculations.ts:721-780 | repaying all variable debt, read back at the transaction's time, leaves exactly 0 and takes exactly the user's scaled debt off the reserve's total |
| Runs.LateMaxRepayIsExactIff | test-suites/helpers/utils/calculations.ts:721-780 | read back at any later time, the same repayment leaves exactly 0 if and only if the later debt still rounds to the same shares at the transaction's index, and a negative scaled debt otherwise |
| Pitfalls.LateMaxRepayHappens | test-suites/helpers/utils/calculations.ts:733-775 | at a rate of 100% or more a borrower two lines away from an unused market repays MAX, is read back a year later and is left with a negative scaled debt |
| Runs.CurrentBalanceTracksScaled | test-suites/helpers/utils/calculations.ts:15-149 | after a deposit or withdrawal the predicted current balance is what the predicted scaled balance is worth, to within 1 + index / (2 RAY) |
| Wallets.WalletMoves | test-suites/helpers/utils/calculations.ts:15-982 | each action moves the user's wallet by its plain amount, by the whole balance or debt for a maximum, and not at all for another's debt, swaps and bridging |
| Wallets.WalletPaysReserve | test-suites/helpers/utils/calculations.ts:15-982 | what leaves a wallet reaches the reserve and back; only repayments for others and bridges bring anything in |
| Wallets.RunConservesTokens | test-suites/helpers/scenario-engine.ts:37-42 | over every permitted story with reported wallets, available liquidity and wallets together change by exactly what was brought in |
| Coherence.VariableDebtIsCoherent | test-suites/helpers/utils/calculations.ts:15-982 | the predicted variable debt is what the predicted scaled debt reads as in the predicted reserve |
| Coherence.SupplyBalanceIsCoherent | test-suites/helpers/utils/calculations.ts:640-982 | the same for the supply balance after a borrow, a repayment and a swap |
| Coherence.StableDebtIsCoherent | test-suites/helpers/utils/calculations.ts:85-982 | the same for the stable debt wherever the step does not overwrite or exchange its fields |
| Coherence.StableFieldsMisplaced | test-suites/helpers/utils/calculations.ts:75-80 | after a deposit and after a variable repayment the stable fields hold other figures, and agree with the stable debt only when those happen to be equal |
| Coherence.StableDebtMovesByAmount | test-suites/helpers/utils/calculations.ts:653-760 | stable debt moves by exactly the amount borrowed or repaid |
| Coherence.VariableRepaymentMovesDebt | test-suites/helpers/utils/calculations.ts:767-780 | a variable repayment takes its amount off the debt to within 1 + index / (2 RAY) |
| Coherence.SwapMovesWholeDebt | test-suites/helpers/utils/calculations.ts:918-982 | a swap leaves nothing in the old mode and brings all of it to the new one, to within 1 + index / (2 RAY) on the variable side |
| Coherence.UserPaysMeanRate | test-suites/helpers/utils/calculations.ts:1433-1440 | a stable borrow or a swap to stable keeps the user's yearly payments: old debt at the old rate, new debt at the reserve's, short of one unit of rate |
| Coherence.ReserveKeepsMeanRate | test-suites/helpers/utils/calculations.ts:1131-1144 | a stable borrow keeps the reserve's yearly stable payments in the same way |
| Coherence.StableRateFollowsDebt | test-suites/helpers/utils/calculations.ts:752-776 | a stable rate is cleared with its debt, kept while some is left, and untouched by the other actions |
| Coherence.SupplyRateIsShown | test-suites/helpers/utils/calculations.ts:15-982 | the user's record shows the supply rate of the predicted reserve |
| Coherence.CollateralFollowsBalance | test-suites/helpers/utils/calculations.ts:58-145 | a first supply becomes collateral, a full withdrawal ends that, and everything else leaves the choice alone |
| Solvency.IncomeGrowth | test-suites/helpers/utils/calculations.ts:1201-1455 | the suppliers' index growth is worth at most the yearly rate times elapsed years on all claims, plus half a unit per scaled unit |
| Solvency.DebtGrowth | test-suites/helpers/utils/calculations.ts:1213-1470 | variable debt grows by at least the yearly rate times elapsed years, less explicit rounding |
| Solvency.StableGrowth | test-suites/helpers/utils/calculations.ts:1472-1485 | stable debt, compounding since its own time stamp, grows by at least the average rate on what was owed at the last update, less an explicit slack |
| Solvency.TreasuryTakesItsShare | test-suites/helpers/utils/calculations.ts:1494-1533 | the treasury's new scaled balance is worth the reserve factor's share of the growth of both debts, neither more nor less than that and half a unit for each of two roundings |
| Solvency.AccrualStaysSolvent | test-suites/helpers/utils/calculations.ts:1535-1570 | after any elapsed time, accrual grows supplier and treasury claims by no more than stable and variable debt grow, up to an explicit slack |
| Payout.VariableGrowthBelow | test-suites/helpers/utils/calculations.ts:1213-1470 | variable debt grows by at most the yearly rate, plus the compounding of the interval and explicit rounding |
| Payout.StableGrowthBelow | test-suites/helpers/utils/calculations.ts:1472-1485 | the same for stable debt, running since its own time stamp |
| Payout.PaidAtLeast | test-suites/helpers/utils/calculations.ts:1333-1367 | yearly supply income on the whole pool reaches the suppliers' share of what both kinds of borrowers pay, less explicit rounding |
| Payout.AccrualPaysOut | test-suites/helpers/utils/calculations.ts:1535-1570 | after any elapsed time, accrual grows supplier and treasury claims by no less than both debts grow, less an explicit slack |
| PayoutRuns.ActionPaysOut | test-suites/helpers/utils/calculations.ts:15-982 | every action changes claims by no less than assets, less its rounding or what a stable repayment overpays |
| PayoutRuns.RunPaysOut | test-suites/helpers/scenario-engine.ts:37-42 | over every permitted story assets stay within claims plus the accumulated slack: the reserve keeps nothing else |
| PayoutRuns.FreshRunBalances | test-suites/helpers/scenario-engine.ts:37-42 | from an unused market on, claims and assets never part by more than the slack on either side |
| SolventRuns.ActionStaysSolvent | test-suites/helpers/utils/calculations.ts:15-982 | every action changes claims by no more than assets, up to the rounding of the amount moved, the backing's fee slack, or what the repayment clamp writes off |
| SolventRuns.StepStaysSolvent | test-suites/helpers/scenario-engine.ts:44-302 | one line of a story, whatever its action, keeps claims within assets plus the accumulated slack |
| SolventRuns.RunStaysSolvent | test-suites/helpers/scenario-engine.ts:37-42 | over every permitted story claims stay within assets plus the accumulated slack |
| SolventRuns.FreshRunStaysSolvent | test-suites/helpers/scenario-engine.ts:37-42 | from an unused market on, with nothing promised and nothing held, no run promises more than the reserve holds and is owed plus the accumulated slack |
| SlackBounds.DeficitBounded | test-suites/helpers/scenario-engine.ts:37-42 | if no line adds more than a bound, the slack of the whole run is at most bound times lines, grown with the liquidity index and its roundings |
| SlackBounds.SlackIsDust | test-suites/helpers/utils/calculations.ts:1535-1570 | for amounts up to 10^27, no stable debt and a year between updates one accrual on a solvent reserve promises at most ten units too many |
| SlackBounds.ModestRunStaysSolvent | test-suites/helpers/scenario-engine.ts:37-42 | over any run of lines of that size, from a solvent start, claims exceed assets by at most 64 units per line |
| StableRates.AverageBetween | test-suites/helpers/utils/calculations.ts:1131-1144 | adding debt keeps the average stable rate between the old average and the new rate |
| StableRates.AddThenRemove | test-suites/helpers/utils/calculations.ts:1131-1144 | adding and removing debt at one rate never raises the average and lowers it by less than 2 + added / total |
| StableRates.ClampActsIffNotCovered | test-suites/helpers/utils/calculations.ts:572-598 | the clamp acts exactly when the stable totals do not cover the repayment |
| NegativeSwap.SwapGoesNegative | test-suites/helpers/utils/calculations.ts:851-870 | a permitted run of four lines after which the swap of a user's stable debt succeeds and leaves the reserve a stable principal of minus one |
| Timing.AccrueIdempotent | test-suites/helpers/utils/calculations.ts:1535-1570 | accruing again at the same time changes nothing at all |
| Timing.DepositsCompose | test-suites/helpers/utils/calculations.ts:151-186 | two deposits at one time leave the reserve that one deposit of their sum leaves |
| Timing.DepositorsCompose | test-suites/helpers/utils/calculations.ts:15-83 | two deposits at one time leave the depositor the wallet of one deposit, a scaled balance within one unit of its own and a current balance within 1 + index / (2 RAY) |
| Bridge.PremiumsSplitFee | test-suites/helpers/utils/calculations.ts:264-265 | the protocol's premium is between 0 and the fee, so both premiums are non-negative |
| Bridge.IndexCarriesPremium | test-suites/helpers/utils/calculations.ts:242-277 | the index jump raises the value of everything supplied by the suppliers' premium, within explicit rounding |
| Bridge.BackingConservesFee | test-suites/helpers/utils/calculations.ts:234-316 | supplier and treasury claims rise by the whole fee within an explicit slack, and the backed amount moves from unbacked to available |
| Bridge.BackingClearsOrSpends | test-suites/helpers/utils/calculations.ts:256-284 | backing clears the unbacked amount or takes the amount off it, never below zero, and what is backed and the fee become available |
| Bridge.ProtocolGetsItsShare | test-suites/helpers/utils/calculations.ts:262-281 | the treasury's part of the fee is the protocol's percentage of it, to within half a unit for each of two roundings |
| Liquidation.DebtSplitIsFair | test-suites/liquidation-with-fee.spec.ts:335-343 | reward and fee add up to what is seized, the fee is the protocol's share of the bonus to the nearest unit, and the reward covers the collateral worth the debt |
| Liquidation.BalanceSplitIsFair | test-suites/liquidation-with-fee.spec.ts:706-710 | the same when the whole balance is seized and the bonus is worked out backwards |
| Liquidation.BonusRoundTrip | test-suites/liquidation-with-fee.spec.ts:698-710 | re-applying the bonus to the quotient returns the input within bonus / 20000 + 1/2 |
| Liquidation.SplitsAgree | test-suites/liquidation-with-fee.spec.ts:335-343 | seizing exactly what the debt-driven split seizes recovers the same base collateral within 1/2 + 5000 / bonus |
| Liquidation.ConvertKeepsValue | test-suites/liquidation-with-fee.spec.ts:335-338 | counted in whole tokens at the two prices, a conversion keeps the value, short of one smallest unit of the target |
| Liquidation.DecimalsScale | test-suites/liquidation-with-fee.spec.ts:335-338 | one more decimal of the target multiplies the result by ten to within nine, one more of the origin divides it by ten |
| Liquidation.ConversionNeverGains | test-suites/liquidation-with-fee.spec.ts:335-338 | converting an amount between two assets and back never gains |
| Liquidation.CappedPrincipalWithinCollateral | test-suites/liquidation-with-fee.spec.ts:698-704 | the debt repaid for all of the collateral is never worth more than that collateral |
| Liquidation.CappedPrincipalCoversCollateral | test-suites/liquidation-with-fee.spec.ts:698-704 | re-applying the bonus to that debt and converting back returns the collateral's value to within explicit rounding, above and below |
| ReserveRecords.UpdateState | test-suites/helpers/utils/calculations.ts:1535-1570 | the in-place accrual writes exactly the accrued indexes, debts and treasury balance and leaves every other field |
| ReserveRecords.UpdateLiquidityAndUsageRatios | test-suites/helpers/utils/calculations.ts:1572-1593 | writes exactly the moved liquidity, its total and both ratios, or fails the check |
| ReserveRecords.UpdateTotalLiquidityAndUsageRatio | test-suites/helpers/utils/calculations.ts:1595-1607 | recomputes exactly the total and both ratios, or fails the check |
| ReserveRecords.CalcAfterDeposit | test-suites/helpers/utils/calculations.ts:151-186 | the field-by-field step fails exactly when the transaction does and otherwise gives its outcome |
| ReserveRecords.CalcAfterWithdraw | test-suites/helpers/utils/calculations.ts:318-362 | the same for a withdrawal |
| ReserveRecords.CalcAfterMintUnbacked | test-suites/helpers/utils/calculations.ts:188-232 | the same for minting unbacked tokens |
| ReserveRecords.CalcAfterBackUnbacked | test-suites/helpers/utils/calculations.ts:234-316 | the same for backing them |
| ReserveRecords.CalcAfterBorrow | test-suites/helpers/utils/calculations.ts:364-515 | the step, which already shows the debts of a later time, gives the transaction's outcome read back at that time, and never fails for a covered amount |
| ReserveRecords.BorrowNeverThrows | test-suites/helpers/utils/calculations.ts:364-515 | none of a covered borrow's checks fails, the ones on the way included |
| ReserveRecords.RepayStable | test-suites/helpers/utils/calculations.ts:564-598 | the assignments with the clamp leave exactly the clamped total and average |
| ReserveRecords.CalcAfterRepay | test-suites/helpers/utils/calculations.ts:517-638 | the step gives the transaction's outcome, and succeeds whenever the transaction does on a valid, covered record |
| ReserveRecords.CalcAfterSwapRateMode | test-suites/helpers/utils/calculations.ts:816-916 | the same for a swap |
| ReserveRecords.RatesThenDebts | test-suites/helpers/utils/calculations.ts:481-513 | rates over the debts at the transaction followed by the debts of a later time are the closed record read back then |
| UserRecords.CalcUserAfterDeposit | test-suites/helpers/utils/calculations.ts:15-83 | the user's step with its overwritten fields gives the specified record |
| UserRecords.CalcUserAfterWithdraw | test-suites/helpers/utils/calculations.ts:85-149 | the same for a withdrawal |
| UserRecords.CalcUserAfterBorrow | test-suites/helpers/utils/calculations.ts:640-719 | the same for a borrow |
| UserRecords.CalcUserAfterRepay | test-suites/helpers/utils/calculations.ts:721-801 | the same for a repayment, own or on behalf of another |
| UserRecords.CalcUserAfterSwapRateMode | test-suites/helpers/utils/calculations.ts:918-982 | the same for a swap |
| Runs.StableSideAfter | test-suites/helpers/utils/calculations.ts:188-916 | each action moves the stable total by its own amount and leaves the average it computes; the two timestamps, which the steps leave to the chain, move as the run model stamps them |
| StoryRunner.Scenario.ExecuteAction | test-suites/helpers/scenario-engine.ts:44-302 | executing one permitted action in place has exactly the outcome of one step, and never throws |
| StoryRunner.Scenario.ExecuteStory | test-suites/helpers/scenario-engine.ts:37-42 | executing a permitted story action by action has exactly the outcome of the run |
| HTokenEvents.NetOf | test-suites/helpers/utils/tokenization-events.ts:81-249 | what each operation's events say about a holder; both withdraw branches say the same |
| HTokenEvents.OperationMatchesNet | test-suites/helpers/utils/tokenization-events.ts:89-249 | one operation changes what the token owes by what its events say, to within 1 + index / (2 RAY), exactly if it does not move the holder's balance |
| HTokenEvents.TransfersAlonePrescribe | test-suites/helpers/utils/tokenization-events.ts:107-249 | the transfer events alone, those from and to the zero address included, account for every holder exactly as all events do |
| HTokenEvents.InterestIsAnnounced | test-suites/helpers/utils/tokenization-events.ts:81-249 | each receipt announces, for each holder it settles and nobody else, exactly the interest since the holder's last operation, at the new index |
| HTokenEvents.ReplayIsNet | test-suites/htoken-events.spec.ts:84-100 | replaying a receipt moves each tracked balance by the receipt's net and tracks nobody new |
| HTokenEvents.ReplayTracksScaledBalances | test-suites/htoken-events.spec.ts:84-100 | over every run with non-decreasing indexes the replayed balance stays within the summed tolerance of what the token owes |
| HTokenLedger.HToken.SupplyTo | test-suites/helpers/utils/tokenization-events.ts:89-127 | the events worked out from the balances afterwards are those of the balances before |
| HTokenLedger.HToken.WithdrawFrom | test-suites/helpers/utils/tokenization-events.ts:129-184 | the same for a withdrawal, whichever event it emits |
| HTokenLedger.HToken.TransferFrom | test-suites/helpers/utils/tokenization-events.ts:251-315 | the same for a transfer, self-transfer included |
| HTokenLedger.BalanceBook.UpdateBalances | test-suites/htoken-events.spec.ts:84-100 | the three loops leave exactly the replay of the receipt |

## Left out

- The Solidity contracts, and with them everything only the chain decides: they are not part of this model.
- Chain access, signers, snapshots, event decoding, matching and printing, and the almost-equal comparison.
- The stable-rate rebalance step: its average mixes wad and ray units, so no mean-value claim holds as written.
- Using a reserve as collateral, minting test tokens, approvals, credit delegation and the permit variants: they change no reserve field.
- Parsing of an action's arguments, and rate modes other than stable and variable.
- `wadMul` and `wadDiv`, which none of the modelled calculations uses.
- The symbol, address, decimals and token address of a reserve record, which are copied unchanged.
- Replay of debt-token events: a variable borrow announces the same amounts as a supply and a variable repayment the same as a withdrawal to the zero address, but nothing in the repository replays them.
- SlackBounds.SlackIsDust: has no counterpart with stable debt, whose slack contains the fourth-order term of compounding since the loan; that term is explicit in `Solvency.StableSlack`, but it is not dust.
- Runs.RunConservesDebt: a variable borrow is admitted only for the user who owes all variable debt, because the source starts the user's scaled debt from the reserve's total; Runs.BorrowBalancedIffSole shows that this is exact.
- HTokenEvents.ReplayTracksScaledBalances: transfers are between addresses other than the zero address, which the replay reserves for mints and burns.
- Stories run with the user's record read back at the transaction's own time, as the pool mines it; `CalcUserAfterBorrow`, `CalcUserAfterRepay` and `CalcAfterBorrow` themselves take the later time as well.
