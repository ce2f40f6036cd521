/** Fills at prices other than the proposal's. Every loss the program bounds is counted at the prices
    the manager proposed; here a caller brings market prices instead. */
module Market {
  import opened Words
  import opened Division
  import opened FixedPoint
  import opened Accounts
  import opened Handlers
  import opened Runs
  import opened Auctions
  import opened Convergence

  /** At market prices `marketSold` and `marketBought` of a whole token, a fill of `x` for `y` brings the
      fund at least the share of one minus the premium of what it gives, up to an amount worth one
      nanodollar at the proposal's price. */
  predicate KeepsWorth(sold: Component, bought: Component, x: nat, y: nat, premium: int, marketSold: nat,
                       marketBought: nat)
  {
    var scaleSold, scaleBought := Pow10(sold.decimals), Pow10(bought.decimals);
    marketSold * (x * sold.refPriceE9 - scaleSold) * (BPS - premium) * scaleBought
      <= y * marketBought * sold.refPriceE9 * scaleSold * BPS
  }

  /** The market does not price the sold token above the bought one by more than the proposal does. */
  predicate MarketAgrees(sold: Component, bought: Component, marketSold: nat, marketBought: nat) {
    marketSold * bought.refPriceE9 <= marketBought * sold.refPriceE9
  }

  lemma GivenIsValued(left: int, valueOut: nat, scale: nat, q: nat, scale': nat, ms: nat)
    requires left <= valueOut * scale
    ensures ms * left * q * scale' <= ms * (valueOut * scale) * q * scale'
  {
    MulMonotone(left, valueOut * scale, ms);
    MulMonotone(ms * left, ms * (valueOut * scale), q);
    MulMonotone(ms * left * q, ms * (valueOut * scale) * q, scale');
  }

  lemma ValueIsOwed(valueOut: nat, scale: nat, q: nat, valueIn: nat, scale': nat, ms: nat)
    requires valueOut * q <= valueIn * BPS
    ensures ms * (valueOut * scale) * q * scale' <= ms * scale * BPS * (valueIn * scale')
  {
    assert ms * (valueOut * scale) * q * scale' == ms * scale * scale' * (valueOut * q);
    MulMonotone(valueOut * q, valueIn * BPS, ms * scale * scale');
    assert ms * scale * scale' * (valueIn * BPS) == ms * scale * BPS * (valueIn * scale');
  }

  lemma OwedIsPaid(paid: nat, scale: nat, pb: nat, y: nat, ms: nat, mb: nat, ps: nat)
    requires paid <= y * pb && ms * pb <= mb * ps
    ensures ms * scale * BPS * paid <= y * mb * ps * scale * BPS
  {
    MulMonotone(paid, y * pb, ms * scale * BPS);
    assert ms * scale * BPS * (y * pb) == scale * BPS * y * (ms * pb);
    MulMonotone(ms * pb, mb * ps, scale * BPS * y);
    assert scale * BPS * y * (mb * ps) == y * mb * ps * scale * BPS;
  }

  /** The roundings of a price, one after another, against a market that agrees with the proposal. */
  lemma ShareCore(left: int, valueOut: nat, scale: nat, q: nat, valueIn: nat, scale': nat, pb: nat, y: nat,
                  ms: nat, mb: nat, ps: nat)
    requires left <= valueOut * scale && valueOut * q <= valueIn * BPS && valueIn * scale' <= y * pb
    requires ms * pb <= mb * ps
    ensures ms * left * q * scale' <= y * mb * ps * scale * BPS
  {
    GivenIsValued(left, valueOut, scale, q, scale', ms);
    ValueIsOwed(valueOut, scale, q, valueIn, scale', ms);
    OwedIsPaid(valueIn * scale', scale, pb, y, ms, mb, ps);
  }

  /** If the market agrees with the proposal, a payment at the program's price keeps the share. */
  lemma PriceKeepsShare(sold: Component, bought: Component, x: nat, premium: int, marketSold: nat, marketBought: nat)
    requires premium <= BPS && bought.refPriceE9 > 0 && MarketAgrees(sold, bought, marketSold, marketBought)
    ensures KeepsWorth(sold, bought, x, PaymentFor(ValueIn(SlotValue(sold, x), premium), bought), premium, marketSold,
                       marketBought)
  {
    var valueOut := SlotValue(sold, x);
    FloorBounds(x * sold.refPriceE9, Pow10(sold.decimals));
    var valueIn := ValueIn(valueOut, premium);
    ShareCore(x * sold.refPriceE9 - Pow10(sold.decimals), valueOut, Pow10(sold.decimals), BPS - premium, valueIn,
              Pow10(bought.decimals), bought.refPriceE9, PaymentFor(valueIn, bought), marketSold, marketBought,
              sold.refPriceE9);
  }

  /** An amount that every rounding of a price leaves exact. */
  function RoundAmount(sold: Component, bought: Component, n: nat): nat {
    n * bought.refPriceE9 * BPS * Pow10(sold.decimals)
  }

  lemma ExactQuotient(n: nat, q: nat, d: nat)
    requires d > 0 && n == q * d
    ensures n / d == q && CeilDiv(n, d) == q
  {
    FloorAtLeast(q, n, d);
    assert (q + 1) * d == n + d;
    FloorBelow(q + 1, n, d);
    CeilAtMost(q, n, d);
    if q > 0 {
      assert (q - 1) * d == n - d;
      CeilAbove(q - 1, n, d);
    }
  }

  lemma RoundValue(sold: Component, bought: Component, n: nat)
    ensures SlotValue(sold, RoundAmount(sold, bought, n)) == n * bought.refPriceE9 * sold.refPriceE9 * BPS
  {
    var pb, ps, scale := bought.refPriceE9, sold.refPriceE9, Pow10(sold.decimals);
    assert n * pb * BPS * scale * ps == n * pb * ps * BPS * scale;
    ExactQuotient(RoundAmount(sold, bought, n) * ps, n * pb * ps * BPS, scale);
  }

  lemma RoundOwed(value: nat, premium: int)
    requires premium <= BPS
    ensures ValueIn(value * BPS, premium) == value * (BPS - premium)
  {
    assert value * BPS * (BPS - premium) == value * (BPS - premium) * BPS;
    ExactQuotient(value * BPS * (BPS - premium), value * (BPS - premium), BPS);
  }

  lemma RoundPayment(bought: Component, value: nat)
    requires bought.refPriceE9 > 0
    ensures PaymentFor(value * bought.refPriceE9, bought) == value * Pow10(bought.decimals)
  {
    var pb, scale := bought.refPriceE9, Pow10(bought.decimals);
    assert value * pb * scale == value * scale * pb;
    ExactQuotient(value * pb * scale, value * scale, pb);
  }

  lemma RoundPrice(sold: Component, bought: Component, n: nat, premium: int)
    requires premium <= BPS && bought.refPriceE9 > 0
    ensures PaymentFor(ValueIn(SlotValue(sold, RoundAmount(sold, bought, n)), premium), bought)
         == n * sold.refPriceE9 * (BPS - premium) * Pow10(bought.decimals)
  {
    var pb, ps, q := bought.refPriceE9, sold.refPriceE9, BPS - premium;
    RoundValue(sold, bought, n);
    RoundOwed(n * pb * ps, premium);
    assert n * pb * ps * q == n * ps * q * pb;
    RoundPayment(bought, n * ps * q);
  }

  lemma RoundShareFails(ds: nat, db: nat, pb: nat, ps: nat, q: nat, ms: nat, mb: nat, n: nat)
    requires ds > 0 && db > 0 && q > 0 && ps > 0 && n == ms + 1 && mb * ps < ms * pb
    ensures n * ps * q * db * mb * ps * ds * BPS < ms * (n * pb * BPS * ds * ps - ds) * q * db
  {
    var gap := ms * pb - mb * ps;
    var common := ds * q * db;
    assert ms < n * ps * BPS * gap by {
      MulMonotone(1, ps, n);
      MulMonotone(1, gap, n * ps * BPS);
    }
    assert ms * (n * pb * BPS * ds * ps - ds) * q * db == (ms * pb * (n * BPS * ps) - ms) * common;
    assert n * ps * q * db * mb * ps * ds * BPS == (mb * ps * (n * BPS * ps)) * common;
    assert ms * pb * (n * BPS * ps) == mb * ps * (n * BPS * ps) + gap * (n * BPS * ps);
    MulStrict(0, ds, q);
    MulStrict(0, ds * q, db);
    MulStrict(mb * ps * (n * BPS * ps), ms * pb * (n * BPS * ps) - ms, common);
  }

  /** A payment at the program's price keeps the share for every amount exactly when the market agrees
      with the proposal: otherwise large fills lose more than the premium, without limit. */
  lemma ShareKeptExactly(sold: Component, bought: Component, premium: int, marketSold: nat, marketBought: nat)
    requires premium < BPS && sold.refPriceE9 > 0 && bought.refPriceE9 > 0
    ensures (forall x: nat ::
              KeepsWorth(sold, bought, x, PaymentFor(ValueIn(SlotValue(sold, x), premium), bought), premium,
                         marketSold, marketBought))
       <==> MarketAgrees(sold, bought, marketSold, marketBought)
  {
    if MarketAgrees(sold, bought, marketSold, marketBought) {
      forall x: nat
        ensures KeepsWorth(sold, bought, x, PaymentFor(ValueIn(SlotValue(sold, x), premium), bought), premium,
                           marketSold, marketBought)
      {
        PriceKeepsShare(sold, bought, x, premium, marketSold, marketBought);
      }
    } else {
      var x := RoundAmount(sold, bought, marketSold + 1);
      RoundPrice(sold, bought, marketSold + 1, premium);
      RoundShareFails(Pow10(sold.decimals), Pow10(bought.decimals), bought.refPriceE9, sold.refPriceE9, BPS - premium,
                      marketSold, marketBought, marketSold + 1);
      assert !KeepsWorth(sold, bought, x, PaymentFor(ValueIn(SlotValue(sold, x), premium), bought), premium,
                         marketSold, marketBought);
    }
  }

  /** So an accepted bid, whatever the manager proposed, keeps its share at any market prices that agree
      with the proposal on the two tokens it trades; at a premium of zero or below, all of it. */
  lemma BidKeepsShareAtMarket(w: World, step: Step, w': World, marketSold: nat, marketBought: nat)
    requires step.DoBid? && Apply(w, step) == Ok(w')
    requires step.sell < |w.vaults| && step.buy < |w.vaults|
    requires MarketAgrees(w.index.components[step.sell], w.index.components[step.buy], marketSold, marketBought)
    ensures BidPremium(w).Ok?
    ensures KeepsWorth(w.index.components[step.sell], w.index.components[step.buy], step.sellAmount, Paid(w, step),
                       BidPremium(w).value, marketSold, marketBought)
  {
    PaidFor(w, step, w');
    PriceKeepsShare(w.index.components[step.sell], w.index.components[step.buy], step.sellAmount, BidPremium(w).value,
                    marketSold, marketBought);
  }
}
