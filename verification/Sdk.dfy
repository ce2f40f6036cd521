/** The SDK client: quotes, slippage bounds and the auction view, read off a snapshot of the chain. */
module Sdk {
  import opened Words
  import opened Accounts
  import Math = SdkMath

  /** What one read of the chain shows at `asOf`. */
  datatype Snapshot = Snapshot(
    account: Index,
    supply: nat,
    balances: seq<nat>,
    pendingFee: int,
    asOf: int
  )

  /** A snapshot of `w` valued at `asOf`, or None where the fee computation throws. */
  function TakeSnapshot(w: World, asOf: int): Option<Snapshot> {
    var fee := Math.StreamingFeeTokens(w.supply, w.index.params.streamingFeeBps, asOf - w.index.lastFeeAccrual);
    if fee.None? then None else Some(Snapshot(w.index, w.supply, w.vaults, fee.value, asOf))
  }

  /** A snapshot lists one balance for each component. */
  predicate Complete(s: Snapshot) {
    |s.balances| == |s.account.components| && s.pendingFee >= 0
  }

  /** Units of each component at a given supply: derived, or the stored recipe when there is none. */
  function UnitsAt(s: Snapshot, supply: nat): (us: seq<int>)
    requires Complete(s)
    ensures |us| == |s.balances|
  {
    seq(|s.balances|, i requires 0 <= i < |s.balances| =>
      if supply == 0 then s.account.components[i].units else Math.UnitsFromBalance(s.balances[i], supply))
  }

  /** Fee on an issue or a redemption. */
  function FeeTokens(amount: int, feeBps: nat): int {
    Math.Scaled(Math.MulDivCeil(amount, feeBps, Math.BPS))
  }

  datatype IssueQuote = IssueQuote(required: seq<int>, feeTokens: int)
  datatype RedeemQuote = RedeemQuote(payout: seq<int>, feeTokens: int)

  /** What issuing `amount` costs, the pending fee applied first. */
  function QuoteIssue(s: Snapshot, amount: int): IssueQuote
    requires Complete(s)
  {
    var units := UnitsAt(s, s.supply + s.pendingFee);
    var fee := FeeTokens(amount, s.account.params.issueFeeBps);
    IssueQuote(seq(|units|, i requires 0 <= i < |units| => Math.UnitsIn(units[i], amount + fee)), fee)
  }

  /** What redeeming `amount` pays, the pending fee applied first. */
  function QuoteRedeem(s: Snapshot, amount: int): RedeemQuote
    requires Complete(s)
  {
    var units := UnitsAt(s, s.supply + s.pendingFee);
    var fee := FeeTokens(amount, s.account.params.redeemFeeBps);
    RedeemQuote(seq(|units|, i requires 0 <= i < |units| => Math.UnitsOut(units[i], amount - fee)), fee)
  }

  /** Upper bounds an issue instruction carries: each cost plus slippage plus one. */
  function MaxIn(s: Snapshot, amount: int, slippageBps: nat): seq<int>
    requires Complete(s)
  {
    var required := QuoteIssue(s, amount).required;
    seq(|required|, i requires 0 <= i < |required| =>
      required[i] + Math.Scaled(Math.MulDivFloor(required[i], slippageBps, Math.BPS)) + 1)
  }

  /** Lower bounds a redeem instruction carries: each payout less slippage. */
  function MinOut(s: Snapshot, amount: int, slippageBps: nat): seq<int>
    requires Complete(s)
  {
    var payout := QuoteRedeem(s, amount).payout;
    seq(|payout|, i requires 0 <= i < |payout| =>
      payout[i] - Math.Scaled(Math.MulDivFloor(payout[i], slippageBps, Math.BPS)))
  }

  datatype Leg = Leg(mint: Key, balance: nat, target: int, sellable: int, buyable: int)

  /** One row of the auction view: excess over target, and room below cap. */
  function AuctionLeg(s: Snapshot, i: nat): Leg
    requires Complete(s) && i < |s.balances|
  {
    var c, balance := s.account.components[i], s.balances[i];
    var target := Math.Scaled(Math.MulDivFloor(c.targetUnits, s.supply, Math.UNIT_SCALE));
    var cap := target + Math.Scaled(Math.MulDivFloor(target, s.account.params.maxPremiumBps, Math.BPS));
    Leg(c.mint, balance, target,
        if balance > target then balance - target else 0,
        if cap > balance then cap - balance else 0)
  }

  /** The premium of an open auction; None before it opens and after it closes. */
  function AuctionPremium(s: Snapshot, now: int): Option<int> {
    var r := s.account.rebalance;
    if r.active && r.startTs <= now <= r.endTs
    then Math.PremiumAt(r.startPremiumBps, r.endPremiumBps, r.startTs, r.endTs, now)
    else None
  }

  /** Sum of the slot values that the client shows, in 1e-9 USD. */
  function NavAtReferencePrices(s: Snapshot): int
    requires Complete(s)
  {
    ReferenceNavFrom(s, 0, 0)
  }

  function ReferenceNavFrom(s: Snapshot, i: nat, total: int): int
    requires Complete(s) && i <= |s.balances|
    decreases |s.balances| - i
  {
    if i == |s.balances| then total
    else
      var c := s.account.components[i];
      ReferenceNavFrom(s, i + 1, total + Math.ValueE9(s.balances[i], c.decimals, c.refPriceE9))
  }
}
