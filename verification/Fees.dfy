/** The streaming fee over whole runs: never more than one accrual would charge, never the same
    second twice, never at a rate that was not in force. */
module Fees {
  import opened Words
  import opened Division
  import opened FixedPoint
  import opened Kernel
  import opened Accounts
  import opened Tokens
  import opened Handlers
  import opened Effects
  import opened Runs
  import opened Frames
  import opened Invariant

  // ---------------------------------------------------------------------------------------------
  // Poking
  // ---------------------------------------------------------------------------------------------

  /** Rate times time between the fee clock and `until`, in units of the fee denominator. */
  function BilledRate(w: World, until: int): int {
    w.index.params.streamingFeeBps * (until - w.index.lastFeeAccrual)
  }

  /** The fee owed as a plain quotient, the cases of no supply, no rate and no time included. */
  lemma OwedFormula(w: World)
    requires w.index.lastFeeAccrual <= w.clock && BilledRate(w, w.clock) < FEE_DENOMINATOR
    requires FeeOwed(w).Ok?
    ensures 0 <= BilledRate(w, w.clock)
    ensures FeeOwed(w).value == w.supply * BilledRate(w, w.clock) / (FEE_DENOMINATOR - BilledRate(w, w.clock))
  {
    var f, dt := w.index.params.streamingFeeBps, w.clock - w.index.lastFeeAccrual;
    if dt <= I64_MAX {
      FeeFormula(w.supply, f, dt);
    } else {
      LongWaitIsFree(f, dt);
      FeeFormula(w.supply, f, I64_MAX);
    }
  }

  lemma FeeFormula(supply: uint64, feeBps: uint16, dt: int64)
    requires 0 <= dt && feeBps * dt < FEE_DENOMINATOR
    requires StreamingFeeTokens(supply, feeBps, dt).Ok?
    ensures 0 <= feeBps * dt
    ensures StreamingFeeTokens(supply, feeBps, dt).value == supply * (feeBps * dt) / (FEE_DENOMINATOR - feeBps * dt)
  {
    var num := feeBps * dt;
    if supply == 0 || feeBps == 0 || dt == 0 {
      assert supply * num == 0;
    }
  }

  /** A wait longer than the clock can count is billable only at a rate of zero. */
  lemma LongWaitIsFree(f: nat, dt: int)
    requires dt > I64_MAX && f * dt < FEE_DENOMINATOR
    ensures f == 0
  {
    assert f >= 1 ==> f * dt >= dt;
  }

  /** A fee leaves holders at least one minus the billed rate of the supply it leaves. */
  lemma FeeStep(s: nat, num: nat)
    requires num < FEE_DENOMINATOR
    ensures (s + s * num / (FEE_DENOMINATOR - num)) * (FEE_DENOMINATOR - num) <= s * FEE_DENOMINATOR
  {
    var rest, m := FEE_DENOMINATOR - num, s * num / (FEE_DENOMINATOR - num);
    FloorBounds(s * num, rest);
    assert (s + m) * rest == s * rest + m * rest;
    assert s * rest == s * FEE_DENOMINATOR - s * num;
  }

  /** Fees compound: keeping one minus n after keeping one minus b keeps at least one minus b and n. */
  lemma CompoundStep(s0: nat, s: nat, s': nat, b: nat, n: nat, den: nat)
    requires den > 0 && b + n <= den
    requires s * (den - b) <= s0 * den
    requires s' * (den - n) <= s * den
    ensures s' * (den - b - n) <= s0 * den
  {
    KeptParts(den, b, n);
    CompoundCore(s0, s, s', den - n, den - b, den - b - n, den);
  }

  lemma KeptParts(den: nat, b: nat, n: nat)
    ensures den * (den - b - n) <= (den - n) * (den - b)
  {
    assert (den - n) * (den - b) == den * den - den * b - n * den + n * b;
    assert den * (den - b - n) == den * den - den * b - n * den;
  }

  lemma CompoundCore(s0: nat, s: nat, s': nat, p: nat, q: nat, x: nat, den: nat)
    requires den > 0 && den * x <= p * q
    requires s * q <= s0 * den && s' * p <= s * den
    ensures s' * x <= s0 * den
  {
    MulMonotone(s' * p, s * den, q);
    Swap(s, den, q);
    MulMonotone(s * q, s0 * den, den);
    ScaledTwice(s', p, q, x, den);
    CancelMul(s' * x, s0 * den, den);
  }

  lemma ScaledTwice(s: nat, p: nat, q: nat, x: nat, den: nat)
    requires den * x <= p * q
    ensures s * x * den <= s * p * q
  {
    MulMonotone(den * x, p * q, s);
    assert s * (den * x) == s * x * den;
    assert s * (p * q) == s * p * q;
  }

  /** Steps in which nobody enters, leaves or burns and the rate stands. */
  predicate Passive(step: Step) {
    !step.DoIssue? && !step.DoRedeem? && !step.Burn? && !step.DoSetParams?
  }

  /** An accrual moves the fee clock to the present and mints exactly what is owed. */
  lemma AccrueStep(w: World, step: Step)
    requires step.DoAccrue? && Apply(w, step).Ok?
    ensures FeeOwed(w).Ok? && Next(w, step).supply == w.supply + FeeOwed(w).value
    ensures Next(w, step).index.lastFeeAccrual == w.clock
  {
    EntryFrame(w, step);
    SettledEffect(w);
  }

  /** A passive step that is no accrual leaves supply, rate and fee clock alone. */
  lemma PassiveFrame(w: World, step: Step)
    requires w.index.status.Sealed() && Passive(step)
    ensures Next(w, step).index.params == w.index.params
    ensures !step.DoAccrue? ==>
      Next(w, step).supply == w.supply && Next(w, step).index.lastFeeAccrual == w.index.lastFeeAccrual
  {
    if !step.DoInit? {
      ParamsFrame(w, step);
    }
    if !step.DoAccrue? {
      SupplyFrame(w, step);
      if Apply(w, step).Ok? {
        match step
        case DoBid(_, _, _, _, _, _) => BidFrame(w, step);
        case DoPropose(_, _, _, _) => ProposeFrame(w, step);
        case DoEnd(_) => EndFrame(w, step);
        case _ =>
      }
    }
  }

  /** Holders of `w` together keep at least one minus rate times time of the supply of `v`. */
  ghost predicate KeepsShare(w: World, v: World) {
    && w.index.lastFeeAccrual <= v.index.lastFeeAccrual
    && v.supply * (FEE_DENOMINATOR - BilledRate(w, v.index.lastFeeAccrual)) <= w.supply * FEE_DENOMINATOR
  }

  lemma AccrualKeepsShare(w: World, v: World, v': World)
    requires v.index.params == w.index.params && v.index.lastFeeAccrual <= v.clock
    requires BilledRate(w, v.clock) < FEE_DENOMINATOR && KeepsShare(w, v)
    requires FeeOwed(v).Ok? && v'.supply == v.supply + FeeOwed(v).value && v'.index.lastFeeAccrual == v.clock
    ensures KeepsShare(w, v')
  {
    var f := w.index.params.streamingFeeBps;
    var gone, n := BilledRate(w, v.index.lastFeeAccrual), BilledRate(v, v.clock);
    RateSplits(f, w.index.lastFeeAccrual, v.index.lastFeeAccrual, v.clock);
    OwedFormula(v);
    FeeStep(v.supply, n);
    CompoundStep(w.supply, v.supply, v'.supply, gone, n, FEE_DENOMINATOR);
  }

  lemma RateSplits(f: nat, a: int, b: int, c: int)
    requires a <= b <= c
    ensures f * (c - a) == f * (b - a) + f * (c - b)
    ensures 0 <= f * (b - a) <= f * (c - a)
    ensures 0 <= f * (c - b)
  {
  }

  lemma PassiveStepKeepsShare(w: World, v: World, step: Step)
    requires ClockSound(v) && v.index.status.Sealed() && Passive(step)
    requires v.index.params == w.index.params && KeepsShare(w, v)
    requires BilledRate(w, v.clock) < FEE_DENOMINATOR
    ensures KeepsShare(w, Next(v, step))
  {
    PassiveFrame(v, step);
    if step.DoAccrue? && Apply(v, step).Ok? {
      AccrueStep(v, step);
      AccrualKeepsShare(w, v, Next(v, step));
    }
  }

  /** Over any run in which nobody enters, leaves or burns and the rate stands, holders together keep
      at least one minus rate times time of the supply, however often the fee is accrued. */
  lemma {:induction false} DilutionIsBounded(worlds: seq<World>, steps: seq<Step>, k: nat)
    requires Run(worlds, steps) && ClockSound(worlds[0]) && worlds[0].index.status.Sealed() && k <= |steps|
    requires forall j :: 0 <= j < k ==> Passive(steps[j])
    requires BilledRate(worlds[0], worlds[k].clock) < FEE_DENOMINATOR
    ensures ClockSound(worlds[k]) && worlds[k].index.status.Sealed()
    ensures worlds[k].index.params == worlds[0].index.params && KeepsShare(worlds[0], worlds[k])
  {
    if k == 0 {
    } else {
      var w, v, step := worlds[0], worlds[k - 1], steps[k - 1];
      assert Follows(worlds, steps, k - 1);
      ClockNeverFalls(worlds, steps, 0, k - 1);
      ClockFrame(v, step);
      RateSplits(w.index.params.streamingFeeBps, w.index.lastFeeAccrual, v.clock, worlds[k].clock);
      DilutionIsBounded(worlds, steps, k - 1);
      PassiveStepDetails(w, v, step);
    }
  }

  lemma PassiveStepDetails(w: World, v: World, step: Step)
    requires ClockSound(v) && v.index.status.Sealed() && Passive(step)
    requires v.index.params == w.index.params && KeepsShare(w, v)
    requires BilledRate(w, v.clock) < FEE_DENOMINATOR
    ensures var v' := Next(v, step);
      && ClockSound(v') && v'.index.status.Sealed() && v'.index.params == w.index.params && KeepsShare(w, v')
  {
    ClockKept(v, step);
    StatusFrame(v, step);
    PassiveFrame(v, step);
    PassiveStepKeepsShare(w, v, step);
  }

  /** So splitting a period into any schedule of accruals never mints more than the one accrual `once`
      over the whole of it would. */
  lemma PokingNeverOvercharges(worlds: seq<World>, steps: seq<Step>, k: nat, once: uint64)
    requires Run(worlds, steps) && ClockSound(worlds[0]) && worlds[0].index.status.Sealed() && k <= |steps|
    requires forall j :: 0 <= j < k ==> Passive(steps[j])
    requires BilledRate(worlds[0], worlds[k].clock) < FEE_DENOMINATOR
    requires FeeOwed(worlds[0].(clock := worlds[k].clock)) == Ok(once)
    ensures worlds[k].supply <= worlds[0].supply + once
  {
    var w, v := worlds[0], worlds[k];
    ClockNeverFalls(worlds, steps, 0, k);
    DilutionIsBounded(worlds, steps, k);
    OwedFormula(w.(clock := v.clock));
    RateSplits(w.index.params.streamingFeeBps, w.index.lastFeeAccrual, v.index.lastFeeAccrual, v.clock);
    var num := BilledRate(w, v.clock);
    MulMonotone(FEE_DENOMINATOR - num, FEE_DENOMINATOR - BilledRate(w, v.index.lastFeeAccrual), v.supply);
    SplitWithinWhole(w.supply, v.supply, num, once);
  }

  lemma SplitWithinWhole(s: nat, s': nat, num: nat, once: nat)
    requires num < FEE_DENOMINATOR
    requires s' * (FEE_DENOMINATOR - num) <= s * FEE_DENOMINATOR
    requires once == s * num / (FEE_DENOMINATOR - num)
    ensures s' <= s + once
  {
    assert (s' - s) * (FEE_DENOMINATOR - num) == s' * (FEE_DENOMINATOR - num) - s * FEE_DENOMINATOR + s * num;
    FloorAtLeast(s' - s, s * num, FEE_DENOMINATOR - num);
  }

  lemma {:induction false} ClockNeverFalls(worlds: seq<World>, steps: seq<Step>, j: nat, k: nat)
    requires Run(worlds, steps) && j <= k <= |steps|
    ensures worlds[j].clock <= worlds[k].clock
  {
    if j == k {
    } else {
      ClockNeverFalls(worlds, steps, j, k - 1);
      assert Follows(worlds, steps, k - 1);
      ClockFrame(worlds[k - 1], steps[k - 1]);
    }
  }

  // ---------------------------------------------------------------------------------------------
  // Billing
  // ---------------------------------------------------------------------------------------------

  /** A stretch of time a fee was charged for, and the rate it was charged at. */
  datatype Period = Period(from: int, until: int, rate: nat)

  /** What a step bills: the time since the fee clock, at the rate in force. */
  function Bill(w: World, step: Step): Option<Period> {
    if (step.DoIssue? || step.DoRedeem? || step.DoAccrue?) && Apply(w, step).Ok? && w.index.lastFeeAccrual < w.clock
    then Some(Period(w.index.lastFeeAccrual, w.clock, w.index.params.streamingFeeBps))
    else None
  }

  /** A step by which the program itself changes the supply or the streaming rate. */
  predicate Touches(w: World, step: Step) {
    && step.OfProgram()
    && (|| Next(w, step).supply != w.supply
        || Next(w, step).index.params.streamingFeeBps != w.index.params.streamingFeeBps)
  }

  /** Once sealed, a step that bills, or that touches supply or rate, leaves the fee clock at the
      present; and so does the sealing itself. */
  lemma TouchSettlesClock(w: World, step: Step)
    requires Sound(w) && Next(w, step).index.status.Sealed()
    requires Touches(w, step) || Bill(w, step).Some? || !w.index.status.Sealed()
    ensures Next(w, step).index.lastFeeAccrual == w.clock
  {
    if w.index.status.Sealed() {
      if step.DoIssue? || step.DoRedeem? || step.DoAccrue? {
        if Apply(w, step).Ok? {
          EntryFrame(w, step);
        }
      } else {
        SupplyFrame(w, step);
        if !step.DoSetParams? && !step.DoInit? {
          ParamsFrame(w, step);
        }
      }
    } else {
      StatusFrame(w, step);
    }
  }

  /** Since `v` the fee clock has not run backwards, and if it still stands behind `v` the rate is the
      one of `v`. */
  ghost predicate RateStands(v: World, u: World) {
    && u.index.status.Sealed()
    && v.clock <= u.clock
    && v.index.lastFeeAccrual <= u.index.lastFeeAccrual
    && (u.index.lastFeeAccrual < v.clock ==> u.index.params.streamingFeeBps == v.index.params.streamingFeeBps)
  }

  lemma RateStandsStep(v: World, u: World, step: Step)
    requires Sound(u) && RateStands(v, u)
    ensures RateStands(v, Next(u, step))
  {
    StatusFrame(u, step);
    ClockFrame(u, step);
    if Touches(u, step) {
      TouchSettlesClock(u, step);
    } else if !step.OfProgram() {
      ParamsFrame(u, step);
    }
  }

  lemma {:induction false} RateStandsBehindClock(worlds: seq<World>, steps: seq<Step>, j: nat, k: nat)
    requires Run(worlds, steps) && Sound(worlds[0]) && j <= k <= |steps| && worlds[j].index.status.Sealed()
    requires ClockSound(worlds[j])
    ensures RateStands(worlds[j], worlds[k])
  {
    if j == k {
    } else {
      RateStandsBehindClock(worlds, steps, j, k - 1);
      RateStandsOn(worlds, steps, j, k - 1);
    }
  }

  lemma RateStandsOn(worlds: seq<World>, steps: seq<Step>, j: nat, k: nat)
    requires Run(worlds, steps) && Sound(worlds[0]) && j <= k < |steps| && RateStands(worlds[j], worlds[k])
    ensures RateStands(worlds[j], worlds[k + 1])
  {
    SoundAlways(worlds, steps, k);
    assert Follows(worlds, steps, k);
    RateStandsStep(worlds[j], worlds[k], steps[k]);
  }

  /** Nothing before the sealing is ever billed. */
  ghost predicate Unbilled(v: World, u: World) {
    && v.clock <= u.clock
    && (u.index.status.Sealed() ==> v.clock <= u.index.lastFeeAccrual)
  }

  lemma UnbilledStep(v: World, u: World, step: Step)
    requires Sound(u) && Unbilled(v, u)
    ensures Unbilled(v, Next(u, step))
  {
    ClockFrame(u, step);
    if !u.index.status.Sealed() && Next(u, step).index.status.Sealed() {
      TouchSettlesClock(u, step);
    }
  }

  /** The fee clock of a sealed world is never behind a world in which the index was not sealed. */
  lemma {:induction false} SealingSettlesClock(worlds: seq<World>, steps: seq<Step>, j: nat, k: nat)
    requires Run(worlds, steps) && Sound(worlds[0]) && j <= k <= |steps| && !worlds[j].index.status.Sealed()
    ensures Unbilled(worlds[j], worlds[k])
  {
    if j == k {
    } else {
      SealingSettlesClock(worlds, steps, j, k - 1);
      UnbilledOn(worlds, steps, j, k - 1);
    }
  }

  lemma UnbilledOn(worlds: seq<World>, steps: seq<Step>, j: nat, k: nat)
    requires Run(worlds, steps) && Sound(worlds[0]) && j <= k < |steps| && Unbilled(worlds[j], worlds[k])
    ensures Unbilled(worlds[j], worlds[k + 1])
  {
    SoundAlways(worlds, steps, k);
    assert Follows(worlds, steps, k);
    UnbilledStep(worlds[j], worlds[k], steps[k]);
  }

  /** A period that begins after every period billed by `step` in `v` and after what the program
      changed there, and has the rate of `v` if `v` lies inside it. */
  ghost predicate BilledApart(v: World, step: Step, period: Period) {
    && (Bill(v, step).Some? ==> Bill(v, step).value.until <= period.from)
    && (Touches(v, step) ==> v.clock <= period.from)
    && (period.from < v.clock ==> v.index.status.Sealed() && v.index.params.streamingFeeBps == period.rate)
  }

  lemma SealedBilledApart(v: World, step: Step, u: World, period: Period)
    requires Sound(v) && v.index.status.Sealed()
    requires RateStands(v, u) && RateStands(Next(v, step), u)
    requires period.from == u.index.lastFeeAccrual && period.rate == u.index.params.streamingFeeBps
    ensures BilledApart(v, step, period)
  {
    StatusFrame(v, step);
    if Touches(v, step) || Bill(v, step).Some? {
      TouchSettlesClock(v, step);
    }
  }

  lemma UnsealedBilledApart(v: World, step: Step, u: World, period: Period)
    requires !v.index.status.Sealed() && u.index.status.Sealed() && Unbilled(v, u)
    requires period.from == u.index.lastFeeAccrual
    ensures BilledApart(v, step, period)
  {
    if Bill(v, step).Some? {
      EntryFrame(v, step);
    }
  }

  lemma StandsAround(worlds: seq<World>, steps: seq<Step>, j: nat, k: nat)
    requires Run(worlds, steps) && Sound(worlds[0]) && j < k < |steps| && worlds[j].index.status.Sealed()
    ensures Sound(worlds[j]) && worlds[j + 1] == Next(worlds[j], steps[j])
    ensures RateStands(worlds[j], worlds[k]) && RateStands(worlds[j + 1], worlds[k])
  {
    SoundAlways(worlds, steps, j);
    SoundAlways(worlds, steps, j + 1);
    assert Follows(worlds, steps, j);
    StatusFrame(worlds[j], steps[j]);
    RateStandsBehindClock(worlds, steps, j, k);
    RateStandsBehindClock(worlds, steps, j + 1, k);
  }

  lemma PeriodApart(worlds: seq<World>, steps: seq<Step>, j: nat, k: nat, period: Period)
    requires Run(worlds, steps) && Sound(worlds[0]) && j < k < |steps|
    requires worlds[k].index.status.Sealed() && period.from == worlds[k].index.lastFeeAccrual
    requires period.rate == worlds[k].index.params.streamingFeeBps
    ensures BilledApart(worlds[j], steps[j], period)
  {
    if worlds[j].index.status.Sealed() {
      StandsAround(worlds, steps, j, k);
      SealedBilledApart(worlds[j], steps[j], worlds[k], period);
    } else {
      SealingSettlesClock(worlds, steps, j, k);
      UnsealedBilledApart(worlds[j], steps[j], worlds[k], period);
    }
  }

  /** Every second is billed at most once, at a rate that was in force, on a supply the program left
      alone: a period billed by step `k` begins after every period billed before it and after every
      earlier change the program made to supply or rate, and each earlier world inside it is sealed
      and has its rate. */
  lemma EverySecondBilledOnce(worlds: seq<World>, steps: seq<Step>, j: nat, k: nat)
    requires Run(worlds, steps) && Sound(worlds[0]) && j < k < |steps|
    requires Bill(worlds[k], steps[k]).Some?
    ensures BilledApart(worlds[j], steps[j], Bill(worlds[k], steps[k]).value)
  {
    EntryFrame(worlds[k], steps[k]);
    PeriodApart(worlds, steps, j, k, Bill(worlds[k], steps[k]).value);
  }

  /** Changing the rate settles nothing: the time since the last accrual goes unbilled for good. */
  lemma SetParamsForgoesFee(w: World, caller: Key, params: Params)
    requires w.index.status.Sealed() && SetParams(w, caller, params).Ok?
    ensures var w' := SetParams(w, caller, params).value;
      w'.supply == w.supply && w'.wallets == w.wallets && FeeOwed(w') == Ok(0)
  {
  }

  /** Less than one base unit is owed. */
  predicate OwesNothing(w: World) {
    w.supply == 0 || w.supply * BilledRate(w, w.clock) < FEE_DENOMINATOR - BilledRate(w, w.clock)
  }

  /** A fee that can be accrued on a supply leaves the holders something. */
  lemma BilledRateIsBelowOne(w: World)
    requires w.index.lastFeeAccrual <= w.clock && FeeOwed(w).Ok? && w.supply > 0
    ensures BilledRate(w, w.clock) < FEE_DENOMINATOR
  {
    var f, dt := w.index.params.streamingFeeBps, w.clock - w.index.lastFeeAccrual;
    assert f == 0 ==> f * dt == 0;
    assert f >= 1 ==> f * I64_MAX >= I64_MAX;
  }

  lemma NothingOwedExactly(w: World)
    requires w.index.lastFeeAccrual <= w.clock && FeeOwed(w).Ok?
    ensures FeeOwed(w) == Ok(0) <==> OwesNothing(w)
  {
    if w.supply > 0 {
      BilledRateIsBelowOne(w);
      OwedFormula(w);
      FloorIsZeroExactly(w.supply * BilledRate(w, w.clock), FEE_DENOMINATOR - BilledRate(w, w.clock));
    }
  }

  lemma FloorIsZeroExactly(n: nat, d: nat)
    requires d > 0
    ensures n / d == 0 <==> n < d
  {
    FloorBounds(n, d);
    if n < d {
      FloorBelow(1, n, d);
    } else {
      FloorAtLeast(1, n, d);
    }
  }

  /** The fund stands where settling at the old rate first would have left it exactly when supply, old
      rate and the time since the last accrual come to less than one base unit of fee. */
  lemma OldRateAppliesExactly(w: World, caller: Key, params: Params, accrued: World, w': World)
    requires ClockSound(w) && w.index.status.Sealed()
    requires Accrue(w) == Ok(accrued) && SetParams(w, caller, params) == Ok(w')
    ensures w'.supply == accrued.supply <==> OwesNothing(w)
  {
    AccrueEffect(w);
    NothingOwedExactly(w);
  }

  /** A fund that charges one per cent a year and has not been touched for a year. */
  function UntouchedFund(): World {
    World(Index(Live, 1, 0, 0, 0, 0, Params(100, 0, 0, 0, 300), [Component(1, 10, 10, 0, 0)], NO_REBALANCE),
          [10], UNIT_SCALE, map[Account(7, IndexMint) := UNIT_SCALE], SECONDS_PER_YEAR)
  }

  /** There the change of rate forgoes 10101010 base units that the old rate had earned. */
  lemma OldRateCanBeForgone(params: Params, w': World)
    requires SetParams(UntouchedFund(), 1, params) == Ok(w')
    ensures Sound(UntouchedFund()) && FeeOwed(UntouchedFund()) == Ok(10_101_010)
    ensures w'.supply == UntouchedFund().supply && FeeOwed(w') == Ok(0)
  {
    var num := 100 * SECONDS_PER_YEAR;
    assert UNIT_SCALE * num / (FEE_DENOMINATOR - num) == 10_101_010;
    assert MulDivFloor(UNIT_SCALE, num, FEE_DENOMINATOR - num) == Ok(10_101_010);
    TotalUpdate(map[], Account(7, IndexMint), UNIT_SCALE, IndexMint);
  }
}
