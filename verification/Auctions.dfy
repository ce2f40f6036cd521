/** What a rebalancing auction can do to the fund: the value it can lose, the balances it moves
    between, and how often it can move them. */
module Auctions {
  import opened Words
  import opened Division
  import opened FixedPoint
  import opened Kernel
  import opened Sums
  import opened Accounts
  import opened Tokens
  import opened Handlers
  import opened Effects
  import opened Runs
  import opened Frames
  import opened Invariant

  // ---------------------------------------------------------------------------------------------
  // Value at reference prices
  // ---------------------------------------------------------------------------------------------

  /** What a balance counts for in NAV, in 1e-9 USD, rounded down. */
  function SlotValue(c: Component, balance: nat): nat {
    FloorBounds(balance * c.refPriceE9, Pow10(c.decimals));
    balance * c.refPriceE9 / Pow10(c.decimals)
  }

  function Values(cs: seq<Component>, balances: seq<uint64>): (vs: seq<nat>)
    requires |cs| == |balances|
    ensures |vs| == |cs| && forall i :: 0 <= i < |cs| ==> vs[i] == SlotValue(cs[i], balances[i])
  {
    seq(|cs|, i requires 0 <= i < |cs| => SlotValue(cs[i], balances[i]))
  }

  /** Net asset value at the prices in the table, in 1e-9 USD. */
  function NavE9(w: World): nat {
    Sum(Values(w.index.components, w.vaults))
  }

  /** The scale of every component's decimals fits 128 bits. */
  ghost predicate ScalesFit(cs: seq<Component>) {
    forall i :: 0 <= i < |cs| ==> Pow10(cs[i].decimals) <= U128_MAX
  }

  /** The table can be valued at these balances: every scale and the sum of the values fit 128 bits, and
      the sum cut to micro-dollars fits 64. */
  ghost predicate NavFits(cs: seq<Component>, balances: seq<uint64>)
    requires |cs| == |balances|
  {
    ScalesFit(cs) && Sum(Values(cs, balances)) <= U128_MAX && Sum(Values(cs, balances)) / 1_000 <= U64_MAX
  }

  lemma {:induction false} NavFromValue(cs: seq<Component>, balances: seq<uint64>, i: nat, total: uint128)
    requires |balances| == |cs| && i <= |cs|
    ensures NavFrom(cs, balances, i, total).Ok?
       <==> ScalesFit(cs[i..]) && total + Sum(Values(cs, balances)[i..]) <= U128_MAX
    ensures NavFrom(cs, balances, i, total)
         == if ScalesFit(cs[i..]) && total + Sum(Values(cs, balances)[i..]) <= U128_MAX
           then Ok(total + Sum(Values(cs, balances)[i..])) else Err(MathOverflow)
    decreases |cs| - i
  {
    if i == |cs| {
    } else {
      ValueE9Value(balances[i], cs[i].decimals, cs[i].refPriceE9);
      SumStep(Values(cs, balances), i);
      assert cs[i..][0] == cs[i] && cs[i..][1..] == cs[i + 1..];
      ScalesFitStep(cs[i..]);
      if Pow10(cs[i].decimals) <= U128_MAX && total + SlotValue(cs[i], balances[i]) <= U128_MAX {
        NavFromValue(cs, balances, i + 1, total + SlotValue(cs[i], balances[i]));
      }
    }
  }

  lemma ScalesFitStep(cs: seq<Component>)
    requires cs != []
    ensures ScalesFit(cs) <==> Pow10(cs[0].decimals) <= U128_MAX && ScalesFit(cs[1..])
  {
    if Pow10(cs[0].decimals) <= U128_MAX && ScalesFit(cs[1..]) {
      forall i | 0 <= i < |cs| ensures Pow10(cs[i].decimals) <= U128_MAX {
        if i > 0 {
          assert cs[i] == cs[1..][i - 1];
        }
      }
    }
    if ScalesFit(cs) {
      forall i | 0 <= i < |cs[1..]| ensures Pow10(cs[1..][i].decimals) <= U128_MAX {
        assert cs[1..][i] == cs[i + 1];
      }
    }
  }

  /** The program values the table exactly when it fits, at the sum of its parts cut to micro-dollars. */
  lemma NavE6Exactly(cs: seq<Component>, balances: seq<uint64>)
    requires |balances| == |cs|
    ensures NavE6(cs, balances)
         == if NavFits(cs, balances) then Ok(Sum(Values(cs, balances)) / 1_000) else Err(MathOverflow)
  {
    NavFromValue(cs, balances, 0, 0);
    assert Values(cs, balances)[0..] == Values(cs, balances) && cs[0..] == cs;
  }

  lemma NavE6Value(cs: seq<Component>, balances: seq<uint64>)
    requires |balances| == |cs| && NavE6(cs, balances).Ok?
    ensures NavE6(cs, balances).value == Sum(Values(cs, balances)) / 1_000
  {
    NavE6Exactly(cs, balances);
  }

  // ---------------------------------------------------------------------------------------------
  // The price of a bid
  // ---------------------------------------------------------------------------------------------

  /** What a bidder owes for `valueOut` at `premium`, rounded up. */
  function ValueIn(valueOut: nat, premium: int): nat
    requires premium <= BPS
  {
    CeilWithin(valueOut * (BPS - premium), BPS);
    CeilDiv(valueOut * (BPS - premium), BPS)
  }

  /** Payment in base units of the bought component. */
  function PaymentFor(valueIn: nat, buy: Component): nat
    requires buy.refPriceE9 > 0
  {
    CeilWithin(valueIn * Pow10(buy.decimals), buy.refPriceE9);
    CeilDiv(valueIn * Pow10(buy.decimals), buy.refPriceE9)
  }

  /** What a bidder pays for `sellAmount` at `premium`. */
  function PriceOf(sell: Component, buy: Component, sellAmount: nat, premium: int): nat
    requires premium <= BPS && buy.refPriceE9 > 0
  {
    PaymentFor(ValueIn(SlotValue(sell, sellAmount), premium), buy)
  }

  /** There is a price: the bought component has one, the discount is no more than the whole, and the two
      scales, the two products and the payment fit their words. */
  predicate PriceFits(sell: Component, buy: Component, sellAmount: nat, premium: int) {
    && premium <= BPS && buy.refPriceE9 > 0
    && Pow10(sell.decimals) <= U128_MAX && Pow10(buy.decimals) <= U128_MAX
    && var value := SlotValue(sell, sellAmount);
       && value * (BPS - premium) <= U128_MAX
       && ValueIn(value, premium) * Pow10(buy.decimals) <= U128_MAX
       && PriceOf(sell, buy, sellAmount, premium) <= U64_MAX
  }

  /** The program prices a bid exactly when the price fits, at the value taken, marked by the premium and
      converted, each step rounded up. */
  lemma BidPaymentExactly(sell: Component, buy: Component, sellAmount: uint64, premium: int32)
    ensures BidPayment(sell, buy, sellAmount, premium).Ok? <==> PriceFits(sell, buy, sellAmount, premium)
    ensures BidPayment(sell, buy, sellAmount, premium).Ok? ==>
      BidPayment(sell, buy, sellAmount, premium).value == PriceOf(sell, buy, sellAmount, premium)
  {
    ValueE9Value(sellAmount, sell.decimals, sell.refPriceE9);
    if Pow10(sell.decimals) <= U128_MAX && premium <= BPS {
      var valueOut := SlotValue(sell, sellAmount);
      assert ValueE9(sellAmount, sell.decimals, sell.refPriceE9) == Ok(valueOut);
      MarkedPrice(valueOut, premium, buy);
    }
  }

  lemma MarkedPrice(valueOut: uint128, premium: int32, buy: Component)
    requires premium <= BPS
    ensures BPS - premium <= U128_MAX
    ensures MulDivCeil(valueOut, BPS - premium, BPS)
         == if valueOut * (BPS - premium) > U128_MAX then Err(MathOverflow) else Ok(ValueIn(valueOut, premium))
    ensures valueOut * (BPS - premium) <= U128_MAX ==>
      var valueIn := ValueIn(valueOut, premium);
      AmountFromValueCeil(valueIn, buy.decimals, buy.refPriceE9).Ok? <==>
        && buy.refPriceE9 > 0 && Pow10(buy.decimals) <= U128_MAX
        && valueIn * Pow10(buy.decimals) <= U128_MAX && PaymentFor(valueIn, buy) <= U64_MAX
    ensures valueOut * (BPS - premium) <= U128_MAX ==>
      var r := AmountFromValueCeil(ValueIn(valueOut, premium), buy.decimals, buy.refPriceE9);
      r.Ok? ==> r.value == PaymentFor(ValueIn(valueOut, premium), buy)
  {
    if valueOut * (BPS - premium) <= U128_MAX {
      AmountFromValueCeilValue(ValueIn(valueOut, premium), buy.decimals, buy.refPriceE9);
    }
  }

  lemma BidPaymentValue(sell: Component, buy: Component, sellAmount: uint64, premium: int32)
    requires BidPayment(sell, buy, sellAmount, premium).Ok?
    ensures premium <= BPS && buy.refPriceE9 > 0
    ensures BidPayment(sell, buy, sellAmount, premium).value
      == PaymentFor(ValueIn(SlotValue(sell, sellAmount), premium), buy)
  {
    BidPaymentExactly(sell, buy, sellAmount, premium);
  }

  /** For the same amount sold, a higher premium never costs the bidder more. */
  lemma PaymentFallsWithPremium(sell: Component, buy: Component, sellAmount: uint64, premium: int32, premium': int32)
    requires premium <= premium'
    requires BidPayment(sell, buy, sellAmount, premium).Ok? && BidPayment(sell, buy, sellAmount, premium').Ok?
    ensures BidPayment(sell, buy, sellAmount, premium').value <= BidPayment(sell, buy, sellAmount, premium).value
  {
    BidPaymentValue(sell, buy, sellAmount, premium);
    BidPaymentValue(sell, buy, sellAmount, premium');
    PaymentOrder(SlotValue(sell, sellAmount), premium, premium', buy);
  }

  lemma PaymentOrder(valueOut: nat, premium: int, premium': int, buy: Component)
    requires premium <= premium' <= BPS && buy.refPriceE9 > 0
    ensures PaymentFor(ValueIn(valueOut, premium'), buy) <= PaymentFor(ValueIn(valueOut, premium), buy)
  {
    MulMonotone(BPS - premium', BPS - premium, valueOut);
    CeilMonotone(valueOut * (BPS - premium'), valueOut * (BPS - premium), BPS);
    var low, high := ValueIn(valueOut, premium'), ValueIn(valueOut, premium);
    MulMonotone(low, high, Pow10(buy.decimals));
    CeilMonotone(low * Pow10(buy.decimals), high * Pow10(buy.decimals), buy.refPriceE9);
  }

  /** A bid can be priced exactly while a live fund's auction is between opening and closing and its
      premium has not passed the index's ceiling. */
  lemma BidOpensExactly(w: World)
    requires AuctionSound(w.index, w.clock)
    ensures var r := w.index.rebalance;
      BidPremium(w).Ok? <==>
        && w.index.status.Live? && r.active && r.startTs <= w.clock <= r.endTs
        && Decayed(r.endPremiumBps - r.startPremiumBps, w.clock - r.startTs, r.endTs - r.startTs)
             <= w.index.params.maxPremiumBps - r.startPremiumBps
  {
    var r := w.index.rebalance;
    if r.active {
      PremiumStaysInBand(r.startPremiumBps, r.endPremiumBps, r.startTs, r.endTs, w.clock);
    }
  }

  /** How far a premium has gone by `elapsed` of `span` seconds. */
  function Decayed(delta: int, elapsed: int, span: int): int {
    if span > 0 then TruncDiv(delta * elapsed, span) else 0
  }

  /** The price of a running auction only falls: at a later moment of the same auction the same bid
      costs no more. */
  lemma DutchPriceOnlyFalls(w: World, later: World, s: nat, b: nat, sellAmount: uint64)
    requires AuctionSound(w.index, w.clock) && s < |w.vaults| && b < |w.vaults|
    requires later.index.rebalance == w.index.rebalance && SamePlan(later.index.components, w.index.components)
    requires w.clock <= later.clock
    requires BidPremium(w).Ok? && BidPremium(later).Ok?
    requires BidPayment(w.index.components[s], w.index.components[b], sellAmount, BidPremium(w).value).Ok?
    requires BidPayment(later.index.components[s], later.index.components[b], sellAmount, BidPremium(later).value).Ok?
    ensures BidPayment(later.index.components[s], later.index.components[b], sellAmount, BidPremium(later).value).value
         <= BidPayment(w.index.components[s], w.index.components[b], sellAmount, BidPremium(w).value).value
  {
    var r := w.index.rebalance;
    PremiumNeverFalls(r.startPremiumBps, r.endPremiumBps, r.startTs, r.endTs, w.clock, later.clock);
    var p, p' := BidPremium(w).value, BidPremium(later).value;
    var sell, buy := w.index.components[s], w.index.components[b];
    assert BidPayment(later.index.components[s], later.index.components[b], sellAmount, p')
      == BidPayment(sell, buy, sellAmount, p');
    PaymentFallsWithPremium(sell, buy, sellAmount, p, p');
  }

  // ---------------------------------------------------------------------------------------------
  // What a bid can cost the fund
  // ---------------------------------------------------------------------------------------------

  /** The most a bid may take from NAV, in 1e-9 USD: its discount, and one unit of rounding. At a
      strictly negative premium a sale worth anything takes nothing. */
  function Allowance(valueOut: nat, premium: int): int {
    if premium >= 0 then 1 + valueOut * premium / BPS
    else if valueOut > 0 then 0
    else 1
  }

  lemma ValueInCovers(valueOut: nat, premium: int)
    requires premium <= BPS
    ensures valueOut + 1 <= ValueIn(valueOut, premium) + Allowance(valueOut, premium)
  {
    var v := valueOut;
    assert v * (BPS - premium) == v * BPS - v * premium;
    if premium >= 0 {
      FloorBounds(v * premium, BPS);
    } else if v > 0 {
      assert v * premium < 0;
    }
  }

  /** A vault that gives up `x` loses at most the value of `x` and one unit. */
  lemma SaleCost(c: Component, balance: nat, x: nat)
    requires x <= balance
    ensures SlotValue(c, balance) <= SlotValue(c, balance - x) + SlotValue(c, x) + 1
  {
    var p, d := c.refPriceE9, Pow10(c.decimals);
    FloorBounds((balance - x) * p, d);
    FloorBounds(x * p, d);
    SumOfFloors((balance - x) * p, x * p, d);
    assert (balance - x) * p + x * p == balance * p;
  }

  lemma SumOfFloors(n: nat, m: nat, d: nat)
    requires d > 0
    ensures (n + m) / d <= n / d + m / d + 1
  {
    FloorBounds(n, d);
    FloorBounds(m, d);
    assert (n / d + m / d + 2) * d == n / d * d + m / d * d + 2 * d;
    FloorBelow(n / d + m / d + 2, n + m, d);
  }

  /** A vault that takes in the payment for `valueIn` gains at least `valueIn`. */
  lemma PurchaseGain(c: Component, balance: nat, valueIn: nat)
    requires c.refPriceE9 > 0
    ensures SlotValue(c, balance) + valueIn <= SlotValue(c, balance + PaymentFor(valueIn, c))
  {
    var p, d, y := c.refPriceE9, Pow10(c.decimals), PaymentFor(valueIn, c);
    PurchaseCore(balance, p, d, y, valueIn);
  }

  lemma PurchaseCore(balance: nat, p: nat, d: nat, y: nat, v: nat)
    requires d > 0 && v * d <= y * p
    ensures balance * p / d + v <= (balance + y) * p / d
  {
    FloorBounds(balance * p, d);
    assert (balance * p / d + v) * d == balance * p / d * d + v * d;
    assert (balance + y) * p == balance * p + y * p;
    FloorAtLeast(balance * p / d + v, (balance + y) * p, d);
  }

  /** Value a bid takes out of the fund. */
  function BidValueOut(w: World, step: Step): nat
    requires step.DoBid? && step.sell < |w.vaults|
  {
    SlotValue(w.index.components[step.sell], step.sellAmount)
  }

  /** What an accepted bid may take from NAV; any other step takes nothing. */
  function BidAllowance(w: World, step: Step): int {
    if step.DoBid? && Apply(w, step).Ok? && step.sell < |w.vaults| && BidPremium(w).Ok?
    then Allowance(BidValueOut(w, step), BidPremium(w).value)
    else 0
  }

  /** What the fund will be worth once it has sold `x` out of slot `s` and taken `y` into slot `b`. */
  function NavAfter(w: World, s: nat, b: nat, x: nat, y: nat): int
    requires s < |w.vaults| && b < |w.vaults| && x <= w.vaults[s]
  {
    var sold, bought := w.index.components[s], w.index.components[b];
    NavE9(w) - (SlotValue(sold, w.vaults[s]) - SlotValue(sold, w.vaults[s] - x))
             + (SlotValue(bought, w.vaults[b] + y) - SlotValue(bought, w.vaults[b]))
  }

  lemma TradedNav(w: World, w': World, s: nat, b: nat, x: nat, y: nat)
    requires s < |w.vaults| && b < |w.vaults| && s != b && x <= w.vaults[s] && w.vaults[b] + y <= U64_MAX
    requires SamePlan(w'.index.components, w.index.components)
    requires w'.vaults == w.vaults[b := w.vaults[b] + y][s := w.vaults[s] - x]
    ensures NavE9(w') == NavAfter(w, s, b, x, y)
  {
    var vs: seq<nat>, vs': seq<nat> := Values(w.index.components, w.vaults), Values(w'.index.components, w'.vaults);
    var paid: seq<nat> := vs[b := vs'[b]];
    assert vs' == paid[s := vs'[s]];
    SumUpdate(vs, b, vs'[b]);
    SumUpdate(paid, s, vs'[s]);
  }

  lemma LegsNav(w: World, w': World, s: nat, b: nat, x: nat, y: nat, premium: int)
    requires s < |w.vaults| && b < |w.vaults| && s != b && x <= w.vaults[s] && w.vaults[b] + y <= U64_MAX
    requires SamePlan(w'.index.components, w.index.components)
    requires w'.vaults == w.vaults[b := w.vaults[b] + y][s := w.vaults[s] - x]
    requires premium <= BPS && w.index.components[b].refPriceE9 > 0
    requires y == PaymentFor(ValueIn(SlotValue(w.index.components[s], x), premium), w.index.components[b])
    ensures NavE9(w) <= NavE9(w') + Allowance(SlotValue(w.index.components[s], x), premium)
  {
    var cs, valueOut := w.index.components, SlotValue(w.index.components[s], x);
    TradedNav(w, w', s, b, x, y);
    SaleCost(cs[s], w.vaults[s], x);
    PurchaseGain(cs[b], w.vaults[b], ValueIn(valueOut, premium));
    ValueInCovers(valueOut, premium);
  }

  lemma InStepKeepsPlan(cs: seq<Component>, w': World)
    requires InStep(cs, w')
    ensures SamePlan(w'.index.components, cs)
  {
    forall i | 0 <= i < |cs| ensures w'.index.components[i] == cs[i].(units := w'.index.components[i].units) {
      assert Resynced(cs[i], w'.index.components[i], w'.vaults[i], w'.supply);
    }
  }

  /** An accepted bid has passed every stage. */
  lemma BidIsStaged(w: World, step: Step, w': World) returns (premium: int32, buyAmount: uint64)
    requires step.DoBid? && Apply(w, step) == Ok(w')
    ensures step.sell < |w.vaults| && step.buy < |w.vaults| && step.sell != step.buy && w.supply > 0
    ensures BidPremium(w) == Ok(premium)
    ensures BidLegs(w, step.sell, step.buy, step.sellAmount, step.maxBuyAmount, premium) == Ok(buyAmount)
    ensures FillBid(w, step.bidder, step.to, step.sell, step.buy, step.sellAmount, buyAmount) == Ok(w')
  {
    premium := BidPremium(w).value;
    buyAmount := BidLegs(w, step.sell, step.buy, step.sellAmount, step.maxBuyAmount, premium).value;
  }

  /** What a bidder is charged once the leg guards have passed. */
  lemma LegsPrice(w: World, s: nat, b: nat, sellAmount: uint64, maxBuyAmount: uint64, premium: int32, buyAmount: uint64)
    requires s < |w.vaults| && b < |w.vaults|
    requires BidLegs(w, s, b, sellAmount, maxBuyAmount, premium) == Ok(buyAmount)
    ensures premium <= BPS && w.index.components[b].refPriceE9 > 0
    ensures buyAmount
      == PaymentFor(ValueIn(SlotValue(w.index.components[s], sellAmount), premium), w.index.components[b])
  {
    BidLegsFacts(w, s, b, sellAmount, maxBuyAmount, premium);
    BidPaymentValue(w.index.components[s], w.index.components[b], sellAmount, premium);
  }

  /** What an accepted bid has gone through: its premium, its payment, and the world it left. */
  lemma BidFills(w: World, step: Step, w': World) returns (premium: int32, buyAmount: uint64)
    requires step.DoBid? && Apply(w, step) == Ok(w')
    ensures step.sell < |w.vaults| && step.buy < |w.vaults| && step.sell != step.buy
    ensures BidPremium(w) == Ok(premium) && premium <= BPS && w.index.components[step.buy].refPriceE9 > 0
    ensures buyAmount == PaymentFor(ValueIn(SlotValue(w.index.components[step.sell], step.sellAmount), premium),
                                    w.index.components[step.buy])
    ensures step.sellAmount <= w.vaults[step.sell] && w.vaults[step.buy] + buyAmount <= U64_MAX
    ensures w'.vaults
      == w.vaults[step.buy := w.vaults[step.buy] + buyAmount][step.sell := w.vaults[step.sell] - step.sellAmount]
    ensures SamePlan(w'.index.components, w.index.components)
    ensures NavE6(w.index.components, w'.vaults).Ok?
    ensures w.index.rebalance.navFloorE6 <= NavE6(w.index.components, w'.vaults).value
  {
    premium, buyAmount := BidIsStaged(w, step, w');
    LegsPrice(w, step.sell, step.buy, step.sellAmount, step.maxBuyAmount, premium, buyAmount);
    FillBidEffect(w, step.bidder, step.to, step.sell, step.buy, step.sellAmount, buyAmount, w');
    InStepKeepsPlan(w.index.components, w');
  }

  /** Who trades in a bid: the bidder pays the bought component, the recipient gets the sold one, and
      every other account, index tokens included, stands. */
  lemma BidTrades(w: World, step: Step, w': World, a: Account)
    requires step.DoBid? && Apply(w, step) == Ok(w') && Distinct(w.index.components)
    ensures step.sell < |w.vaults| == |w'.vaults| && step.buy < |w.vaults|
    ensures w'.vaults[step.sell] <= w.vaults[step.sell] && w.vaults[step.buy] <= w'.vaults[step.buy]
    ensures Balance(w'.wallets, a) as int - Balance(w.wallets, a) ==
      if a == ComponentAccount(w, step.bidder, step.buy) then w.vaults[step.buy] as int - w'.vaults[step.buy]
      else if a == ComponentAccount(w, step.to, step.sell) then w.vaults[step.sell] as int - w'.vaults[step.sell]
      else 0
  {
    var premium, buyAmount := BidIsStaged(w, step, w');
    FillBidEffect(w, step.bidder, step.to, step.sell, step.buy, step.sellAmount, buyAmount, w');
    FillAccounts(w, step.bidder, step.to, step.sell, step.buy, step.sellAmount, buyAmount, w', a);
  }

  lemma FillAccounts(w: World, bidder: Key, to: Key, s: nat, b: nat, sellAmount: uint64, buyAmount: uint64, w': World,
                     a: Account)
    requires s < |w.vaults| && b < |w.vaults| && s != b && Distinct(w.index.components)
    requires FillBid(w, bidder, to, s, b, sellAmount, buyAmount) == Ok(w')
    ensures Balance(w'.wallets, a) == Balance(w.wallets, a) as int +
      if a == ComponentAccount(w, bidder, b) then -(buyAmount as int)
      else if a == ComponentAccount(w, to, s) then sellAmount as int
      else 0
  {
    assert w.index.components[s].mint != w.index.components[b].mint;
    assert ComponentAccount(w, bidder, b) != ComponentAccount(w, to, s);
    var paid := TransferFromUser(w, bidder, b, buyAmount).value;
    assert ComponentAccount(paid, to, s) == ComponentAccount(w, to, s);
    var filled := TransferFromVault(paid, s, to, sellAmount).value;
    SyncUnitsEffect(filled);
  }

  lemma FloorStands(w: World, w': World)
    requires SamePlan(w'.index.components, w.index.components) && |w.vaults| == |w'.vaults|
    requires NavE6(w.index.components, w'.vaults).Ok?
    requires w.index.rebalance.navFloorE6 <= NavE6(w.index.components, w'.vaults).value
    ensures w.index.rebalance.navFloorE6 * 1_000 <= NavE9(w')
  {
    NavE6Value(w.index.components, w'.vaults);
    assert Values(w.index.components, w'.vaults) == Values(w'.index.components, w'.vaults);
    FloorBounds(NavE9(w'), 1_000);
  }

  lemma AllowanceOfBid(w: World, step: Step, premium: int32)
    requires step.DoBid? && Apply(w, step).Ok? && step.sell < |w.vaults| && BidPremium(w) == Ok(premium)
    ensures BidAllowance(w, step) == Allowance(SlotValue(w.index.components[step.sell], step.sellAmount), premium)
  {
  }

  /** An accepted bid takes at most its allowance from NAV despite four roundings, and leaves NAV at
      or above the committed floor. */
  lemma BidNavIsBounded(w: World, step: Step)
    requires step.DoBid? && Apply(w, step).Ok?
    ensures NavE9(w) <= NavE9(Next(w, step)) + BidAllowance(w, step)
    ensures w.index.rebalance.navFloorE6 * 1_000 <= NavE9(Next(w, step))
  {
    var w' := Next(w, step);
    var premium := FilledNav(w, step, w');
    AllowanceOfBid(w, step, premium);
  }

  lemma FilledNav(w: World, step: Step, w': World) returns (premium: int32)
    requires step.DoBid? && Apply(w, step) == Ok(w')
    ensures step.sell < |w.vaults| && BidPremium(w) == Ok(premium)
    ensures NavE9(w) <= NavE9(w') + Allowance(SlotValue(w.index.components[step.sell], step.sellAmount), premium)
    ensures w.index.rebalance.navFloorE6 * 1_000 <= NavE9(w')
  {
    var buyAmount: uint64;
    premium, buyAmount := BidFills(w, step, w');
    LegsNav(w, w', step.sell, step.buy, step.sellAmount, buyAmount, premium);
    FloorStands(w, w');
  }

  /** Steps that neither redeem nor reprice. */
  predicate KeepsValue(step: Step) {
    !step.DoRedeem? && !step.DoPropose?
  }

  lemma RaisedVaultsKeepNav(w: World, w': World)
    requires |w'.vaults| == |w.vaults|
    requires forall i :: 0 <= i < |w.vaults| ==> w.vaults[i] <= w'.vaults[i]
    requires forall i :: 0 <= i < |w.vaults| ==>
      && w'.index.components[i].refPriceE9 == w.index.components[i].refPriceE9
      && w'.index.components[i].decimals == w.index.components[i].decimals
    ensures NavE9(w) <= NavE9(w')
  {
    var vs, vs' := Values(w.index.components, w.vaults), Values(w'.index.components, w'.vaults);
    forall i | 0 <= i < |vs| ensures vs[i] <= vs'[i] {
      HigherBalanceIsWorthMore(w.index.components[i], w.vaults[i], w'.vaults[i]);
    }
    SumMonotone(vs, vs');
  }

  lemma HigherBalanceIsWorthMore(c: Component, balance: nat, balance': nat)
    requires balance <= balance'
    ensures SlotValue(c, balance) <= SlotValue(c, balance')
  {
    MulMonotone(balance, balance', c.refPriceE9);
    FloorMonotone(balance * c.refPriceE9, balance' * c.refPriceE9, Pow10(c.decimals));
  }

  lemma OtherStepsKeepNav(w: World, step: Step)
    requires w.index.status.Sealed() && KeepsValue(step) && !(step.DoBid? && Apply(w, step).Ok?)
    ensures NavE9(w) <= NavE9(Next(w, step))
  {
    TableFrame(w, step);
    if Apply(w, step).Ok? {
      if step.DoEnd? {
        EndFrame(w, step);
      }
      forall i | 0 <= i < |w.vaults|
        ensures |Next(w, step).vaults| == |w.vaults| && w.vaults[i] <= Next(w, step).vaults[i] {
        VaultFrame(w, step, i);
      }
      RaisedVaultsKeepNav(w, Next(w, step));
    }
  }

  /** The allowances of the bids among the first `k` steps. */
  ghost function Allowances(worlds: seq<World>, steps: seq<Step>, k: nat): int
    requires |worlds| == |steps| + 1 && k <= |steps|
  {
    if k == 0 then 0 else Allowances(worlds, steps, k - 1) + BidAllowance(worlds[k - 1], steps[k - 1])
  }

  /** Over any run without redemptions and new proposals, NAV falls by at most the sum of what its
      bids are allowed. */
  lemma {:induction false} RunNavIsBounded(worlds: seq<World>, steps: seq<Step>, k: nat)
    requires Run(worlds, steps) && k <= |steps| && worlds[0].index.status.Sealed()
    requires forall j :: 0 <= j < k ==> KeepsValue(steps[j])
    ensures worlds[k].index.status.Sealed()
    ensures NavE9(worlds[0]) <= NavE9(worlds[k]) + Allowances(worlds, steps, k)
  {
    if k == 0 {
    } else {
      RunNavIsBounded(worlds, steps, k - 1);
      assert Follows(worlds, steps, k - 1);
      StepNavIsBounded(worlds[k - 1], steps[k - 1]);
    }
  }

  lemma StepNavIsBounded(w: World, step: Step)
    requires w.index.status.Sealed() && KeepsValue(step)
    ensures Next(w, step).index.status.Sealed()
    ensures NavE9(w) <= NavE9(Next(w, step)) + BidAllowance(w, step)
  {
    StatusFrame(w, step);
    if step.DoBid? && Apply(w, step).Ok? {
      BidNavIsBounded(w, step);
    } else {
      OtherStepsKeepNav(w, step);
    }
  }
}
