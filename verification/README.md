# A verified model of the Flock index engine

An index is one record, one mint and up to sixteen vaults. People enter by delivering every component
in kind and leave by taking their share of every vault; a streaming fee dilutes holders over time; and
a manager may publish a target composition, towards which outside bidders then trade against the fund
at a price that starts in the fund's favour and slides into theirs. This project models that engine in Dafny: the
on-chain program, the SDK that has to quote the same numbers, and the keeper's planner whose bids the
program has to accept.

## How it is built

- `Words`, `Division`, `FixedPoint`: machine words as subsets of the integers, integer division with its
  bounds, and the checked arithmetic of the program, overflow included.
- `Accounts`, `Tokens`, `Handlers`: the index record, the token ledger around it, and what every
  instruction does to the world, or the error it fails with, as functions.
- `Fund`: the program in its own form. A class holds the record, a table of sixteen slots and a vault
  array that handlers overwrite in place, loop over and total up. Each method is proved against the
  function of the same name in `Handlers`: the same error, or success and the same world. `Execute` is a
  transaction, all or nothing, and `Replay` is a schedule of them.
- `Runs`, `Frames`, `Effects`: steps of the program and of everyone around it (donations to a vault,
  burns and transfers of tokens, time passing), runs of steps, and what each step leaves alone.
- `Kernel`, `Shares`, `Sums`: the nonlinear inequalities with nested floors that everything rests on.
- `Entries`, `Exits`, `Bids`, `Proposals`: when each of the large instructions goes through, if and only if.
  `Contract`: the whole program in closed form, what every step needs and everything it leaves behind, with the
  theorem that the handlers do exactly that and that nothing about the world after a step is left open.
  `Refusals`: every error an instruction fails with names something that is so, and of several broken checks
  the first is reported.
- `Invariant`, `Holders`, `Fees`, `Auctions`, `Convergence`, `Protocol`, `Market`, `Targets`, `Governance`: the
  theorems about the fund, most of them over whole runs.
- `Sdk`, `SdkMath`, `SdkTheorems`: the client's quotes, bounds, views and sizing, and their agreement with the
  program. `Planner`, `PlannerTheorems`, `Plans`, `Spending`: the keeper's search for bids, as the loops it
  runs and as the function they compute, its soundness, the exact content and order of its plans, and what a
  whole plan spends.
- `Launch`, `Counterexamples`: a fund brought from nothing to a running auction, and the inputs on which a
  documented promise fails.
- `WorkedExample`: the example of the auction document, with an entry and an exit, proved of the model.

`dafny verify dfyconfig.toml` checks the whole project.

## Where the code says less than its documentation

The model follows the code. Where a comment or document promises more, a lemma shows the promise to fail,
for the fund in a world that satisfies the whole invariant, most of them worlds that a run is shown to reach
from before the index exists (`Launch`), and for the planner on an input; another lemma says when the code does
keep it.

- "Backing per token is monotonically non-decreasing" (program/src/processor.rs:11-13,
  docs/architecture.md:32-35) holds for the derived, floored units. The exact ratio of balance to supply is
  safe from every entry if and only if the units divide out without a remainder:
  `Shares.ExactBackingKeptExactly`; a ratio that falls: `Counterexamples.EntryThinsTheRatio`.
- `target_units` is "equal to `units` when idle" (program/src/state.rs:41) right after an auction is closed
  (`Targets.ClosingLevelsTargets`). Then an accrual, an issue or a redemption keeps the two level if and only
  if every vault and the supply it leaves still hold the old units, a test on the record before the step,
  and every other step always does: `Targets.IdleTargetsLevelExactly`; a fund whose units move:
  `Targets.IdleTargetsDrift`.
- Changing the parameters does not bill the old rate for the time it was in force
  (program/src/processor.rs:928-933); it moves the fee clock without minting, so that fee is forgone
  (`Fees.SetParamsForgoesFee`). Nothing is lost if and only if supply, old rate and elapsed time come to less
  than one base unit: `Fees.OldRateAppliesExactly`; a fund that loses a year of fees:
  `Fees.OldRateCanBeForgone`. That time is never billed at the new rate, as the comment also says
  (`Fees.EverySecondBilledOnce`).
- "Every fill moves both legs toward the published targets" (docs/auctions.md:48) is true of the leg sold
  (`Convergence.SaleMovesTowardTarget`), and of the leg bought if and only if that is below target and the
  payment is positive and less than twice the shortfall: `Convergence.PurchaseMovesTowardTargetExactly`; a leg
  that moves away: `Counterexamples.PurchaseCanMoveAway`; one that stays short:
  `Counterexamples.DustBidPaysNothing`.
- "The sell-side cap makes the auction convergent" (docs/auctions.md:47-48): two legs inside their bands can be
  traded back and forth, so there are auctions with runs of accepted bids of any length
  (`Counterexamples.AuctionsNeedNotEnd`). What converges is the distance to the bands, which a fill lowers if
  and only if it sells from above cap or pays into a leg below target: `Convergence.FillApproachesBands`,
  `Convergence.AuctionConverges`.
- A component leaves its vault only through "a bid that pays for it or a redemption that burns for it"
  (docs/security.md:5-7): a bid pays something if and only if what it takes is worth a nanodollar or more at
  reference prices (`Convergence.BidPaysExactly`, `Protocol.VaultsFallOnlyWhenTraded`); a bid that takes fifty base
  units for nothing: `Counterexamples.DustBidPaysNothing`.
- An issue followed by a redemption never pays out more than it took, for all amounts if and only if there
  is a supply or the vault is empty: `Shares.RoundTripSafeExactly`, `Holders.RoundTripNeverProfits`. The first to
  enter a fund into whose vault somebody has given tokens leaves with them:
  `Counterexamples.FirstEntryTakesTheGift`.
- "At most the NAV loss the proposal declared" (docs/security.md:13-15) is measured against the NAV at the
  proposal, since the floor is an absolute number that issues and redemptions do not touch
  (`Protocol.BidHonoursCommitment`). When somebody has entered meanwhile, a bid can cost holders something
  although no loss was declared (`WorkedExample.EntryMakesRoomBelowNav`). An accepted bid costs at most a given
  share of what the fund was worth just before it if and only if the NAV its quote will leave says so, a test on
  record, vaults and bid before the call: `Protocol.BidHonoursLossExactly`. It passes for every accepted bid
  when NAV less the declared loss is below the floor plus a micro-dollar (`Protocol.BidHonoursLossOfNow`), and so
  as long as NAV has not risen since the proposal (`Protocol.BidHonoursLossUnlessNavRose`). What bids cost in any
  case is bounded bid by bid: `Auctions.RunNavIsBounded`.
- All of these value the fund at the proposal's own prices, and the compromised manager of that document picks
  them. At market prices there is no limit: a proposal that declares no loss, and a bid within it that loses
  more than any bound, are `Counterexamples.MispricedProposalLosesWithoutLimit`. The program's price keeps all
  but the premium at the market, for every amount, if and only if the market does not price the token sold above
  the one bought by more than the proposal does: `Market.ShareKeptExactly`; accepted bids then do:
  `Market.BidKeepsShareAtMarket`.
- "Any holder can redeem at any time" (docs/security.md:18-19): a redemption first derives units from the
  vaults, and a unit count that does not fit its word refuses it. In a sound, paused fund nothing can be
  redeemed at all: `Counterexamples.ExitCanBeShut`. A redemption goes through if and only if what
  `Exits.RedeemSucceedsExactly` lists holds, and `Exits.ExitIsOpen` bounds the units in advance.
- The keeper "bids from inventory" (apps/keeper/README.md:28-31) bid by bid: each planned bid is held against
  the whole balance, so a plan with two sellers into one slot can promise that balance twice
  (`Spending.PlanCanOverspend`). A plan spends at most the balance for each slot with something to sell
  (`Spending.PlanSpendsAtMost`), so one such slot is safe (`Spending.OneSellerStaysInside`).
- The edge test with a policy floor of zero or below lets a losing bid through, since the edge is truncated
  toward zero: `PlannerTheorems.ZeroFloorCanLose`; when it passes, exactly: `PlannerTheorems.EdgeClearsExactly`.

## Assumptions

The clock never runs backwards. No index holds its own token as a component. The token program moves
exactly what it is told to, refuses an account it would overdraw or overflow, and one holder has one
account for each mint. A failed transaction leaves no trace. `Exits.ExitIsOpen` takes from
the token program that what circulates of each component mint fits 64 bits (`MintsFit`), so that a recipient has
room; transfers keep that (`Invariant.ConservedAlways`).

## Model

| member | source | states |
|---|---|---|
| Kernel.IssueChargeIsFair | program/src/math.rs:36-53 | An issue charges less than one base unit above the exact share of the vault and less than gross/1e9 below it |
| Kernel.RedeemPayoutIsFair | program/src/math.rs:41-53 | A redemption pays at most the exact share of the vault and falls short by less than net/1e9 + 1 |
| Kernel.StreamingFeeIsExact | program/src/math.rs:78-88 | The fee minted is the recipient's exact share of the grown supply, to one base unit on either side |
| Kernel.StreamingFeeIsMonotone | program/src/math.rs:78-88 | The fee never falls with supply, rate or elapsed time, and if the larger one can be charged so can the smaller |
| Kernel.PremiumStaysInBand | program/src/math.rs:96-107 | There is a premium exactly inside an open window; it starts at the start, ends at the end and stays between |
| Kernel.PremiumNeverFalls | program/src/math.rs:96-107 | The premium of a window only rises with time |
| Kernel.PremiumIsLinear | program/src/math.rs:96-107 | At every moment the premium is on the straight line from start to end, cut toward the start by less than a basis point |
| FixedPoint.UnitsFromBalanceValue | program/src/math.rs:48-53 | Deriving units fails only when the quotient does not fit 64 bits; the widened product never overflows |
| FixedPoint.UnitsInValue | program/src/math.rs:36-38 | Pricing a delivery fails only when the rounded-up charge does not fit 64 bits |
| FixedPoint.UnitsOutValue | program/src/math.rs:41-43 | Pricing a payout fails only when the rounded-down amount does not fit 64 bits |
| FixedPoint.ValueE9Value | program/src/math.rs:57-60 | Valuing a balance fails only when the scale of its decimals does not fit 128 bits |
| FixedPoint.AmountFromValueCeilValue | program/src/math.rs:63-69 | Turning a value into an amount fails without a price, and else only when scale, scaled value or amount does not fit its word |
| FixedPoint.StreamingFeeFailsExactly | program/src/math.rs:78-88 | The fee fails if and only if rate times time reaches the whole fund or the quotient exceeds 64 bits |
| Fund.Fund.TransferFromUser | program/src/processor.rs:243-255 | A transfer into a vault in place: same new balances, or same refusal, as the ledger; nothing for zero |
| Fund.Fund.TransferFromVault | program/src/processor.rs:223-241 | A transfer out of a vault in place |
| Fund.Fund.MintIndexTokens | program/src/processor.rs:257-274 | Minting index tokens raises supply and one account together |
| Fund.Fund.BurnIndexTokens | program/src/processor.rs:276-286 | Burning index tokens lowers supply and one account together |
| Fund.Fund.ReadVaults | program/src/processor.rs:161-183 | The loop returns the vault balances in table order |
| Fund.Fund.SyncUnits | program/src/processor.rs:185-199 | The loop rewrites the units of every slot with what its vault is worth, or fails as a whole; nothing at zero supply |
| Fund.Fund.NavE6 | program/src/processor.rs:201-215 | The running total is the value of the vaults at reference prices, with its overflow checks |
| Fund.Fund.Accrue | program/src/processor.rs:291-317 | The fee clock moves to the present and what was owed is minted to the fee recipient |
| Fund.Fund.InitIndex | program/src/processor.rs:323-396 | A new record under checked fees, on an unused account and an unminted mint; otherwise the matching error |
| Fund.Fund.FindComponent | program/src/state.rs:113-115 | The search returns the first slot that holds a mint, or nothing when none does |
| Fund.Fund.AddComponent | program/src/processor.rs:398-480 | One fresh slot with an empty vault, for the manager of an unsealed index with room and no such token; otherwise the matching error |
| Fund.Fund.SealIndex | program/src/processor.rs:482-505 | The manager opens an index that has components, and the fee clock starts |
| Fund.Fund.Deliver | program/src/processor.rs:547-555 | The loop charges each slot at its units within its bound, transfer by transfer, or stops at the first failure |
| Fund.Fund.PayOut | program/src/processor.rs:626-634 | The loop pays each slot at its units within its bound, transfer by transfer, or stops at the first failure |
| Fund.Fund.Issue | program/src/processor.rs:507-571 | The whole instruction in place: guards in order, accrual, sync, charge, mints, sync |
| Fund.Fund.Redeem | program/src/processor.rs:573-642 | The whole instruction in place: guards in order, accrual, sync, burn, fee, payouts, sync |
| Fund.Fund.AccrueFees | program/src/processor.rs:644-668 | Accrual on its own, on a sealed index |
| Fund.Fund.Retarget | program/src/processor.rs:717-723 | The loop writes target and price over every slot |
| Fund.Fund.ProposeRebalance | program/src/processor.rs:670-748 | The whole instruction in place: guards in order, targets and prices written, floor and window committed |
| Auctions.BidOpensExactly | program/src/processor.rs:779-797 | A bid can be priced if and only if the fund is live, its auction open, and the premium it has decayed to within the index ceiling |
| Bids.LegGuards | program/src/processor.rs:800-845 | The leg guards accept a size if and only if the cap fits, the sold leg is left at target or above, the bought leg starts below cap, and a price that fits stays under cap and bidder limit; that price is the payment |
| Bids.FillSucceedsExactly | program/src/processor.rs:847-860 | A fill settles if and only if the bidder holds the payment, the recipient has room, the vaults left can be valued at the floor or above and the units fit |
| Bids.BidSucceedsExactly | program/src/processor.rs:750-863 | On a sound index a bid is accepted if and only if slots differ, the amount is positive, the auction is open at the premium of the moment, and legs and settlement meet those conditions |
| Proposals.ProposalSucceedsExactly | program/src/processor.rs:686-745 | On a sound index a proposal is accepted if and only if live, from the manager, with no auction running, lists of the table's length, at most seven days, premiums and loss within the ceiling, positive prices, a NAV that fits at those prices and a window within the clock |
| Proposals.ProposalOpensAuction | program/src/processor.rs:717-745 | It writes its own targets and prices over every slot, opens its window on a floor of NAV at its prices less the declared loss, rounded down, and touches nothing else |
| Fund.Fund.Bid | program/src/processor.rs:750-863 | The whole instruction in place: guards, both transfers, NAV floor, sync |
| Fund.Fund.Settle | program/src/processor.rs:891-893 | The loop sets every target to the units beside it |
| Fund.Fund.EndRebalance | program/src/processor.rs:865-903 | The whole instruction in place: guards, sync, targets levelled, auction cleared |
| Fund.Fund.SetParams | program/src/processor.rs:905-941 | Checked parameters written by the governor; the fee clock moves unless the index is being set up |
| Fund.Fund.SetAuthority | program/src/processor.rs:943-963 | One role handed over by the governor |
| Fund.Fund.SetPaused | program/src/processor.rs:965-989 | Governor or manager may pause a sealed index, the governor alone may resume it; otherwise the matching error |
| Fund.Fund.Dispatch | program/src/processor.rs:41-116 | Every instruction reaches its handler with its own arguments |
| Fund.Fund.Execute | program/src/processor.rs:41-116 | A transaction takes effect as a whole or leaves every field, slot, vault and account as it was |
| Fund.Fund.Replay | program/src/processor.rs:1-13 | A schedule of transactions goes through the worlds of a run, and a sound fund stays sound |
| Contract.StepsAreExact | program/src/processor.rs:41-116 | On a sound world every instruction is accepted if and only if it meets a closed-form condition, and then leaves a closed form of the whole world: record, slots, supply, clock, and every token account with payer, recipient and fee collector by name |
| Contract.LeavesOneWorld | program/src/processor.rs:41-116 | That closed form leaves nothing open: two worlds that match it agree on everything that can be read from them |
| Refusals.ErrorsTellTheTruth | program/src/processor.rs:41-116 | Every error of every instruction names something that is so of the caller, the record, a slot, an account or a word, and an instruction has no errors but the ones listed for it |
| Refusals.FirstCheckDecides | program/src/processor.rs:41-116 | Of several checks that an instruction breaks before tokens or arithmetic, the first in the listed order is the one it reports |
| Effects.SyncUnitsEffect | program/src/processor.rs:185-199 | A sync succeeds exactly when every derived unit count fits its word, and rewrites only units |
| Effects.FeeOwedExactly | program/src/processor.rs:291-306 | The fee owed is the share that rate and seconds since the fee clock give, and cannot be computed if and only if that is the whole fund or more than 64 bits |
| Effects.DeliverSucceeds | program/src/processor.rs:547-555 | A delivery within slippage bounds, purse and vault capacity goes through |
| Effects.PayOutSucceeds | program/src/processor.rs:626-634 | A payout that meets its bounds, is covered and can be held goes through |
| Effects.IssueChargedAccounts | program/src/processor.rs:547-564 | Every token account after an issue: the user's component accounts pay exactly their charges, the recipient and the fee recipient gain their tokens, all others stand |
| Effects.RedeemChargedAccounts | program/src/processor.rs:617-634 | Every token account after a redemption: the recipient's component accounts are paid exactly, the user loses the tokens, the fee recipient gains the fee, all others stand |
| Runs.EveryScheduleRuns | program/src/processor.rs:41-116 | Every schedule of steps has a run, so what holds of all runs is not empty |
| Invariant.BackedKept | program/src/processor.rs:1-13 | Every step, donations and outside burns included, keeps each vault at or above units times supply over 1e9 |
| Invariant.SoundKept | program/src/processor.rs:1-13 | Every step keeps backing, table, caps, clock, auction window and supply sound together |
| Invariant.SoundAlways | program/src/processor.rs:1-13 | Every world of a run from a sound one is sound |
| Invariant.ReachableIsSound | program/src/processor.rs:1-13 | Every world reachable from before the index exists is sound |
| Invariant.ConservedAlways | program/src/processor.rs:223-255 | Over any run the tokens of each component mint in the vault and all accounts together stay the same |
| Invariant.SupplyKept | program/src/processor.rs:257-286 | The supply is always the sum of all index token accounts, and zero until the index is sealed |
| Holders.IssueMoves | program/src/processor.rs:507-571 | An accepted issue adds each slot's cost, priced after the fee owed, to its vault, mints the gross amount and re-derives units |
| Holders.RedeemMoves | program/src/processor.rs:573-642 | An accepted redemption takes each slot's proceeds out of its vault, retires the net amount and re-derives units |
| Holders.IssueTradesWithUser | program/src/processor.rs:534-564 | Over the whole instruction what each vault gains leaves the user's account, tokens and fees reach their accounts, and every other account stands |
| Holders.RedeemTradesWithRecipient | program/src/processor.rs:604-634 | Over the whole instruction what each vault loses reaches the recipient's account, the tokens leave the caller's, fees arrive, and every other account stands |
| Holders.RoundTripNeverProfits | program/src/processor.rs:507-642 | Issue, then redeem no more at the same instant: no vault ends lower than it began, for any fees and even if units rise in between |
| Holders.RoundTripNeverEnriches | program/src/processor.rs:507-642 | So no component account of whoever makes the round trip ends higher |
| Holders.WholeTokensInKind | docs/architecture.md:42-43 | An issue that mints n whole tokens takes exactly n times the units of every slot and leaves the units alone, and a redemption that retires as many at the same instant restores every vault |
| Shares.RoundTripSafeExactly | program/src/math.rs:36-53 | In one slot the round trip is safe for all amounts if and only if there is a supply or the vault is empty |
| Counterexamples.FirstEntryTakesTheGift | program/src/processor.rs:507-642 | In a sound fund without supply into whose vault five units were given, an accepted issue and redemption take the trader from 100 to 105 |
| Shares.ExactBackingKeptExactly | program/src/processor.rs:11-13 | Entries never lower the exact ratio of balance to supply if and only if the units divide out without remainder |
| Counterexamples.EntryThinsTheRatio | program/src/processor.rs:11-13 | In a sound fund with seven base units behind three tokens an accepted entry lowers the exact ratio |
| Shares.EntryRaisesUnits | program/src/math.rs:36-53 | A delivery rounded up never lowers the derived units |
| Shares.ExitKeepsUnits | program/src/math.rs:41-53 | A payout rounded down is covered and never lowers the derived units |
| Shares.ExitKeepsExactBacking | program/src/math.rs:41-53 | An exit never lowers the exact ratio of balance to supply |
| Holders.WaitingKeepsUnits | program/src/processor.rs:185-199 | Over any run of entries, exits, donations and burns with no fee falling due and no fill, the units of every slot never fall |
| Holders.WaitingNeverCosts | program/src/processor.rs:573-642 | A holder who lets any number of others enter and leave first is paid at least what leaving first would have paid |
| Holders.SplittingNeverCheaper | program/src/processor.rs:534-564 | Two issues at one instant leave in every vault, and mint in all, at least what one issue of the sum costs |
| Holders.SingleIssueTakesNoMore | program/src/processor.rs:534-564 | A world that holds that much holds at least what any single issue of the sum would leave, whatever its bounds |
| Entries.IssueSucceedsExactly | program/src/processor.rs:507-571 | On a sound index an issue succeeds if and only if it is live, the amount positive, a bound given per slot, the fee can be accrued, every cost is within bound, holding and the vault's word, and the new supply and the units before and after fit theirs |
| Exits.PayoutIsCovered | program/src/processor.rs:604-634 | Any part of the supply is covered by every vault at the units it is priced at |
| Exits.AccrualSucceedsExactly | program/src/processor.rs:291-317 | The fee is accrued if and only if rate and time do not take the whole fund and the supply has room for it |
| Exits.RedeemSucceedsExactly | program/src/processor.rs:573-642 | On a sound index a redemption is accepted if and only if it is sealed, paused or not, with a bound per slot, a positive amount within supply and holding, the fee accrued, bounds met, room to receive and units that fit: a vault is never short |
| Exits.UnitsAfterExitAreBounded | program/src/math.rs:41-53 | Units after an exit are at most those before plus (supply + 1e9) over the remaining supply |
| Exits.ExitIsOpen | program/src/processor.rs:590-597 | So an exit with zero bounds is open to any holder, paused or not, whenever the fee can be accrued and that bound fits a word |
| Counterexamples.ExitCanBeShut | docs/security.md:18-19 | In a sound, paused fund the holder of the whole supply can redeem no amount under any bounds |
| Fees.DilutionIsBounded | program/src/processor.rs:291-317 | Over any run at a fixed rate with no entries, exits or burns, holders keep at least one minus rate times time of the supply |
| Fees.PokingNeverOvercharges | program/src/processor.rs:291-317 | Splitting a period into any schedule of accruals mints at most what one accrual over the whole would |
| Fees.TouchSettlesClock | program/src/processor.rs:928-933 | Any step of the program that bills, seals or changes supply or rate leaves the fee clock at the present |
| Fees.EverySecondBilledOnce | program/src/processor.rs:291-317 | Over any run billed periods never overlap, the program changes no supply and no rate inside one, and each bears the rate that was in force |
| Fees.SetParamsForgoesFee | program/src/processor.rs:928-933 | A change of parameters mints nothing and leaves nothing owed |
| Fees.OldRateAppliesExactly | program/src/processor.rs:928-933 | It leaves the supply that settling at the old rate first would leave if and only if supply times rate times time is below one base unit of fee |
| Fees.OldRateCanBeForgone | program/src/processor.rs:928-933 | A sound fund untouched for a year forgoes 10101010 base units |
| Auctions.NavE6Exactly | program/src/processor.rs:201-215 | The table can be valued if and only if every scale and the sum of the floored values fit 128 bits and the sum in micro-dollars 64; NAV is then that sum |
| Auctions.BidPaymentExactly | program/src/processor.rs:834-839 | A bid has a price if and only if the bought token has one, the premium is at most the whole and both scales, both products and the payment fit their words; the price is the value taken, marked and converted, each step rounded up |
| Auctions.PaymentFallsWithPremium | program/src/processor.rs:836-839 | For one amount sold a higher premium never costs the bidder more |
| Auctions.DutchPriceOnlyFalls | program/src/math.rs:96-107 | At a later moment of the same auction the same bid costs no more |
| Auctions.BidTrades | program/src/processor.rs:847-850 | A fill debits only the bidder's account of the bought component and credits only the recipient's of the sold one |
| Auctions.BidNavIsBounded | program/src/processor.rs:834-860 | An accepted bid takes at most 1 + value * premium / 10000 from NAV in 1e-9 USD, nothing at a negative premium, and leaves NAV at or above the floor |
| Auctions.RunNavIsBounded | program/src/processor.rs:834-860 | Over any run without redemptions and proposals NAV falls by at most the sum of what its bids are allowed |
| Convergence.FillStaysInside | program/src/processor.rs:815-845 | A fill sells down to target at most, buys up to cap at most, and leaves other vaults and all bands alone |
| Convergence.BandsAbsorb | program/src/processor.rs:815-845 | Over any run of bids each component stays between its start and its band, and the band absorbs it |
| Convergence.FillApproachesBands | program/src/processor.rs:815-845 | No fill raises the total distance to the bands, and it lowers it if and only if it sells from above cap or pays into a leg below target |
| Convergence.AuctionConverges | docs/auctions.md:47-48 | Over any run of bids the total distance never rises and such fills are no more than the initial distance |
| Convergence.SaleMovesTowardTarget | docs/auctions.md:48 | Every fill brings the leg it sells closer to target |
| Convergence.PurchaseMovesTowardTargetExactly | docs/auctions.md:48 | It brings the leg it buys closer if and only if that leg is below target and the payment is positive and less than twice the shortfall |
| Convergence.BidPaysExactly | docs/security.md:5-7 | An accepted bid pays something if and only if what it takes is worth a nanodollar or more at reference prices |
| Counterexamples.DustBidPaysNothing | docs/security.md:5-7 | In a sound, reachable fund an accepted bid takes fifty base units for nothing and leaves the leg it buys short of target |
| Counterexamples.PurchaseCanMoveAway | docs/auctions.md:48 | In a sound, reachable fund an accepted bid takes the leg it buys from 50 above target to 100 above |
| Counterexamples.InBandTradesRepeat | docs/auctions.md:47-48 | In a sound, reachable fund two legs inside their bands are traded there and back: both bids accepted, and the fund is where it was |
| Counterexamples.AuctionsNeedNotEnd | docs/auctions.md:47-48 | So from that fund there are runs of accepted bids of any length |
| Launch.OpenFundIsReachable | program/src/processor.rs:323-748 | Setting up, founding, proposing and waiting reach the fund that these inputs start from, so it is sound |
| Protocol.RunningAuctionStands | program/src/processor.rs:686-745 | While an auction runs no step rewrites its floor, window, premiums, targets or prices |
| Protocol.ProposalBehind | program/src/processor.rs:686-745 | Behind every world with a running auction stands the accepted proposal that started it, unchanged since |
| Protocol.ProposalCommits | program/src/processor.rs:724-745 | A proposal commits window, premiums and a floor that is NAV times one minus the declared loss, rounded down |
| Protocol.ProposalStaysInCeiling | program/src/processor.rs:703-710 | Its premiums and its loss stay inside the index's own ceiling |
| Protocol.ProposalWritesPlan | program/src/processor.rs:717-723 | It writes its own targets and positive prices over every slot and leaves the units alone |
| Protocol.BidHonoursNotice | program/src/processor.rs:779-798 | Behind every accepted bid there is a proposal at least 300 seconds older whose window holds the bid and whose plan stood in between |
| Protocol.BidHonoursCommitment | docs/security.md:11-15 | After any accepted bid the fund is worth, at the proposal's prices, no less than NAV at the proposal less the declared loss |
| Protocol.BidLeavesQuotedNav | program/src/processor.rs:834-859 | An accepted bid leaves exactly the NAV computed beforehand from the record, the vaults and the payment it is quoted |
| Protocol.BidHonoursLossExactly | docs/security.md:13-15 | At the proposal's prices an accepted bid costs at most a given share of the NAV just before it if and only if that computed NAV says so before the call |
| Protocol.BidHonoursLossOfNow | docs/security.md:13-15 | Where NAV less the declared loss, at the proposal's prices, is below the floor plus a micro-dollar, that test passes for every accepted bid at the declared loss |
| Protocol.BidHonoursLossUnlessNavRose | docs/security.md:13-15 | So it does, over any run, as long as NAV at the proposal's prices has not risen since the proposal |
| Market.ShareKeptExactly | program/src/processor.rs:834-839 | At the program's price a fill keeps all but the premium at market prices, for every amount, if and only if the market does not price the sold token above the bought one by more than the proposal does |
| Market.BidKeepsShareAtMarket | docs/security.md:13-15 | An accepted bid keeps all but its premium, less a nanodollar's worth of the sold token, at any market prices that agree with the proposal on its two tokens |
| Counterexamples.MispricedProposalLosesWithoutLimit | docs/security.md:13-15 | In a sound fund whose proposal declared no loss and whose floor covers it, an accepted bid loses 50 * ratio - 50 if the sold token is worth `ratio` times the bought one |
| Protocol.ClosingSucceedsExactly | program/src/processor.rs:875-884 | A running auction can be closed by its manager, by anyone after its end, and by nobody else |
| Protocol.TableIsFrozen | program/src/processor.rs:418-432 | From sealing on the table lists the same distinct tokens in the same order in every world of a run |
| Protocol.VaultsFallOnlyWhenTraded | docs/security.md:5-7 | A vault falls only in a redemption, by at most the exact share of what it retires, or in a bid that sells from it, meets the NAV floor, and pays something exactly when what it takes is worth a nanodollar |
| Protocol.ParamsStayInCaps | program/src/processor.rs:145-157 | In every reachable world fees, ceilings, delay and window are inside the hard caps |
| Targets.ClosingLevelsTargets | program/src/processor.rs:886-901 | Closing an auction leaves every target level with its units |
| Targets.AccrualKeepsUnitsExactly | program/src/processor.rs:185-199 | An accrual leaves a unit count alone if and only if the vault holds it at the supply with the fee owed |
| Targets.IssueKeepsUnitsExactly | program/src/processor.rs:534-564 | An issue leaves it alone if and only if the vault with its cost holds it at the supply with the tokens minted |
| Targets.RedeemKeepsUnitsExactly | program/src/processor.rs:604-634 | A redemption leaves it alone if and only if the vault without its proceeds holds it at the supply that remains |
| Targets.IdleTargetsLevelExactly | program/src/state.rs:41-42 | While idle, targets stay level through such a step if and only if that test on the world before it passes in every slot, and through every other step |
| Targets.IdleTargetsDrift | program/src/state.rs:41-42 | A sound idle fund whose next accrual parts units from target |
| Governance.RolesMoveByGovernor | program/src/processor.rs:943-963 | Across all steps roles move one at a time, only by the governor of the moment |
| Governance.ParamsMoveByGovernor | program/src/processor.rs:905-941 | Across all steps parameters move only by the governor and only inside the caps |
| Governance.StatusMoves | program/src/processor.rs:965-989 | Across all steps the status moves only by the manager's sealing and by the pause switch of the right authority |
| Governance.PauseHolds | program/src/processor.rs:965-989 | As long as the governor does not act a paused index stays paused, and every issue, bid and proposal leaves it as it was |
| Governance.TableGrowsByManager | program/src/processor.rs:398-480 | Slots are added one at a time, by the manager, before sealing, each with a new token and an empty vault |
| SdkMath.CeilAgrees | packages/sdk/src/math.ts:16-20 | The SDK's way of rounding up is the program's |
| SdkMath.UnitsInAgrees | packages/sdk/src/math.ts:23-25 | The program charges what the SDK computes, or overflows exactly when that does not fit |
| SdkMath.UnitsOutAgrees | packages/sdk/src/math.ts:28-30 | The program pays what the SDK computes, or overflows exactly when that does not fit |
| SdkMath.UnitsFromBalanceAgrees | packages/sdk/src/math.ts:33-36 | Derived units agree, or the program overflows; without supply the SDK shows none and the program refuses |
| SdkMath.StreamingFeeAgrees | packages/sdk/src/math.ts:49-55 | Both fees are the same number; both refuse a rate that would take everything |
| SdkMath.PremiumAgrees | packages/sdk/src/math.ts:61-73 | Both premiums are the same number and exist at the same moments, whether the premium rises or falls |
| SdkMath.WeightsSum | packages/sdk/src/math.ts:94-107 | Weights of a fund worth something sum to at most 10000 and to more than 10000 less one for each component |
| SdkMath.WeightIsShare | packages/sdk/src/math.ts:94-107 | NAV is the sum of the values and each weight its value's share in basis points, cut by less than one |
| SdkMath.SizedUnitsAreLargest | packages/sdk/src/math.ts:114-129 | Sizing throws if and only if there is no supply or a price is missing; each target is the largest claim on the largest amount that the weight's value buys |
| SdkMath.TargetNearShare | packages/sdk/src/math.ts:114-129 | A sized target is worth at most its share of NAV and falls short by at most an explicit number of base units' value |
| SdkMath.SizingNeverOverspends | packages/sdk/src/math.ts:114-129 | Targets sized for weights of at most the whole are together worth at most NAV |
| SdkTheorems.PendingFeeIsOwed | packages/sdk/src/client.ts:119-121 | An up-to-date snapshot shows exactly the fee the program would mint |
| SdkTheorems.SnapshotLooksAhead | packages/sdk/src/client.ts:95-122 | A snapshot for any moment copies record, supply and balances and shows the fee that would be owed then; there is none if and only if that fee takes the whole fund |
| SdkTheorems.QuoteIssueIsExact | packages/sdk/src/client.ts:130-136 | The issue quote is what an accepted issue moves, component by component and in fees, first issue included |
| SdkTheorems.QuoteRedeemIsExact | packages/sdk/src/client.ts:138-144 | The redeem quote is what an accepted redemption moves |
| SdkTheorems.WaitingNeverRaisesCost | packages/sdk/src/client.ts:124-136 | As time alone passes no slot costs more to enter |
| SdkTheorems.AcceptedIssueKeepsQuote | packages/sdk/src/client.ts:218-221 | An issue with the quoted bounds, accepted in whatever world, charges each slot at most its quote, the slippage and one base unit |
| SdkTheorems.AcceptedRedeemKeepsQuote | packages/sdk/src/client.ts:244-247 | A redemption with the quoted bounds, accepted in whatever world, pays from each slot at least its quote less the slippage |
| SdkTheorems.QuotedIssueNeverSlips | packages/sdk/src/client.ts:218-221 | Each bound is the quote with exactly the slippage on top, cut to a base unit, plus one, and holds at any later moment if only time has passed |
| SdkTheorems.QuotedRedeemNeverSlips | packages/sdk/src/client.ts:244-247 | Each bound is exactly the quote less the slippage, rounded up, and on an up-to-date snapshot none is missed |
| SdkTheorems.QuotedRedeemHoldsLater | packages/sdk/src/client.ts:244-247 | With only time passed those bounds are still met as long as the slippage absorbs, slot by slot, the share that the grown fee takes and an explicit rounding |
| SdkTheorems.LegAgrees | packages/sdk/src/client.ts:171-185 | A row of the auction view shows the slot's token, balance and target, the excess over target and the room below cap |
| SdkTheorems.AuctionViewIsExact | packages/sdk/src/client.ts:171-185 | The leg guards accept a pair if and only if the amount is within `sellable`, its price fits and is within a positive `buyable` and the bidder's limit, and the cap fits its word |
| SdkTheorems.ViewPremiumIsExact | packages/sdk/src/client.ts:173-200 | The view shows a premium exactly while the window is open, the one bids are priced at |
| SdkTheorems.ViewTellsOpenAuctions | docs/integrating.md:40-59 | The program prices a bid right now if and only if the fund is live and the view shows a premium within the ceiling, and at that premium |
| SdkTheorems.BidCostIsExact | packages/sdk/src/math.ts:76-92 | At a premium of at most the whole the SDK prices every bid for a token with a price, through the program's own value taken, value owed and payment, and throws without one |
| SdkTheorems.QuotedPaymentIsCharged | packages/sdk/src/math.ts:76-92 | Whenever the program can price a bid, the payment the SDK quotes is the one it charges |
| SdkTheorems.SdkNavIsExact | packages/sdk/src/client.ts:204-210 | The SDK's NAV is the sum the program floors its NAV from |
| PlannerTheorems.SizeStaysInside | apps/keeper/src/planner.ts:113-146 | A size that survives the trimming is positive, within the policy's share of the sell excess, priced as the program prices it and within the budget |
| Planner.Plan | apps/keeper/src/planner.ts:67-178 | The nested loops with their skips and early returns compute the plan the function describes, or throw when it does |
| Plans.BidsArePlannedExactly | apps/keeper/src/planner.ts:97-175 | A bid is planned if and only if the auction is open at its premium, its slots differ, it sells the policy's share, or that share cut in the proportion of the purse to its price, for the program's own price within inventory and room, both tokens have a market price, and the edge clears the floor |
| Plans.ChoresArePlannedExactly | apps/keeper/src/planner.ts:73-83 | An accrual is planned if and only if the pending fee has reached the policy's floor, a closing if and only if the auction has run out |
| Plans.PlanThrowsExactly | apps/keeper/src/planner.ts:89-126 | The planner throws if and only if the auction's window is open and has no length, or a pair with something to sell and to buy has no price to pay at |
| Plans.PlansAreInOrder | apps/keeper/src/planner.ts:73-177 | Accruals come first, bids in table order of sold and then bought slot, none twice |
| Plans.OrderedPlansAgree | apps/keeper/src/planner.ts:73-177 | So content and order leave one plan: two lists of the same actions in that order are the same |
| PlannerTheorems.EdgeClearsExactly | apps/keeper/src/planner.ts:154-162 | A positive floor is met if and only if proceeds beat payment by it at market; any other if and only if they beat one basis point less, strictly |
| PlannerTheorems.PlanIsSound | apps/keeper/src/planner.ts:97-175 | With a leg share of at most the whole, every planned bid sells a positive amount within that share of the excess, pays the program's own price within inventory and room, and has the edge |
| Spending.PlanSpendsAtMost | apps/keeper/src/planner.ts:97-175 | All bids of a plan that buy into one slot spend at most its budget for each other slot that has something to sell |
| Spending.OneSellerStaysInside | apps/keeper/README.md:28-31 | So the plan stays within inventory and room of a slot that at most one other slot can be sold into |
| Spending.PlanCanOverspend | apps/keeper/README.md:28-31 | With two such slots a plan spends 200 of a component of which the keeper holds 100 |
| PlannerTheorems.PlannedBidPassesLegs | program/src/processor.rs:815-845 | On the snapshot's chain the leg guards accept a planned bid at exactly the payment it was planned with |
| PlannerTheorems.PlannedBidPassesGuards | program/src/processor.rs:750-845 | On a live fund below the premium ceiling a planned bid passes every guard and only its settlement is left |
| WorkedExample.OpeningBidFills | docs/auctions.md:52-62 | In the example's fund, sound and reached by a run, the opening bid is accepted at 251.25, leaves 271.25 and 2.5, and NAV at $521.25 |
| WorkedExample.ClosingBidIsRefused | docs/auctions.md:64-67 | The same bid at the close of that sound fund's auction is refused because the proposal declared no loss |
| WorkedExample.EnteringCostsATenth | docs/architecture.md:42-43 | In the example's fund, which backs ten tokens, an issue of one costs exactly a tenth of each vault |
| WorkedExample.LeavingPaysATenth | docs/architecture.md:42-43 | In that fund leaving at once pays exactly that back and restores vaults and supply |
| WorkedExample.EntryMakesRoomBelowNav | docs/security.md:13-15 | After that entry, in a sound world, the refused bid is accepted: NAV falls from $572 to $568.25 though no loss was declared |

## Left out

- Program-derived addresses, bumps, rent, account borrows, signatures and the checks that an account is the right vault, mint or program: the caller's key and the accounts are taken as given.
- Accounts given twice: a recipient account that is one of the index's own vaults, delegates, and several accounts of one holder for one mint are not modelled.
- Decimals, mint authority and freeze authority of the index mint at creation: only its zero supply is checked.
- Name, symbol, version and padding of the record, its byte layout, and the encoding of instructions.
- A declared loss above 10000 basis points would abort the program rather than return an error; it is modelled as an error, and the caps exclude it.
- The log messages of the program, and the notes and dollar amounts of the planner, which only display.
- Planner.Plan: edges and premiums are integers here; the source turns them into floating-point numbers, which agree for magnitudes below 2^53. The bid share is taken as non-negative.
- SdkMath.PremiumAgrees: the SDK divides floating-point numbers and truncates; the model divides integers and truncates.
- Fetching accounts, market prices and their conversion, retries, the command line, the keeper's loop and the deploy scripts.
- `navPerToken` and `weights` of the client, which only rescale what is modelled.
