/** Steps of the fund and of everyone around it, and the worlds a run of steps goes through. */
module Runs {
  import opened Words
  import opened Accounts
  import opened Tokens
  import opened Handlers

  datatype Step =
    // Instructions of the program.
    | DoInit(governor: Key, manager: Key, feeRecipient: Key, params: Params)
    | DoAddComponent(caller: Key, mint: Key, decimals: uint8, units: uint64)
    | DoSeal(caller: Key)
    | DoIssue(user: Key, to: Key, amount: uint64, maxIn: seq<uint64>)
    | DoRedeem(user: Key, to: Key, amount: uint64, minOut: seq<uint64>)
    | DoAccrue
    | DoPropose(caller: Key, targets: seq<uint64>, prices: seq<uint64>, auction: AuctionParams)
    | DoBid(bidder: Key, to: Key, sell: uint8, buy: uint8, sellAmount: uint64, maxBuyAmount: uint64)
    | DoEnd(caller: Key)
    | DoSetParams(caller: Key, params: Params)
    | DoSetAuthority(caller: Key, role: uint8, authority: Key)
    | DoSetPaused(caller: Key, paused: bool)
    // What the token program lets anyone do without asking, and time.
    | Donate(from: Key, slot: nat, amount: uint64)
    | Burn(holder: Key, amount: uint64)
    | Send(sender: Account, to: Key, amount: uint64)
    | Wait(seconds: nat)
  {
    /** A step taken by an instruction of the program. */
    predicate OfProgram() {
      !Donate? && !Burn? && !Send? && !Wait?
    }
  }

  /** A transfer between two accounts outside the fund. */
  function SendTokens(w: World, from: Account, to: Key, amount: uint64): Result<World> {
    var debited :- Debit(w.wallets, from, amount);
    var credited :- Credit(debited, Account(to, from.mint), amount);
    Ok(w.(wallets := credited))
  }

  function Apply(w: World, step: Step): Result<World> {
    match step
    case DoInit(governor, manager, feeRecipient, params) => InitIndex(w, governor, manager, feeRecipient, params)
    case DoAddComponent(caller, mint, decimals, units) => AddComponent(w, caller, mint, decimals, units)
    case DoSeal(caller) => SealIndex(w, caller)
    case DoIssue(user, to, amount, maxIn) => Issue(w, user, to, amount, maxIn)
    case DoRedeem(user, to, amount, minOut) => Redeem(w, user, to, amount, minOut)
    case DoAccrue => AccrueFees(w)
    case DoPropose(caller, targets, prices, auction) => ProposeRebalance(w, caller, targets, prices, auction)
    case DoBid(bidder, to, sell, buy, sellAmount, maxBuyAmount) =>
      Bid(w, bidder, to, sell, buy, sellAmount, maxBuyAmount)
    case DoEnd(caller) => EndRebalance(w, caller)
    case DoSetParams(caller, params) => SetParams(w, caller, params)
    case DoSetAuthority(caller, role, authority) => SetAuthority(w, caller, role, authority)
    case DoSetPaused(caller, paused) => SetPaused(w, caller, paused)
    case Donate(from, slot, amount) =>
      if slot < |w.vaults| then TransferFromUser(w, from, slot, amount) else Err(UnknownComponent)
    case Burn(holder, amount) => BurnIndexTokens(w, holder, amount)
    case Send(sender, to, amount) => SendTokens(w, sender, to, amount)
    case Wait(seconds) => if w.clock + seconds > I64_MAX then Err(MathOverflow) else Ok(w.(clock := w.clock + seconds))
  }

  /** A step that fails changes nothing. */
  function Next(w: World, step: Step): World {
    var r := Apply(w, step);
    if r.Ok? then r.value else w
  }

  /** World `k + 1` of a run is what step `k` makes of world `k`. */
  ghost predicate Follows(worlds: seq<World>, steps: seq<Step>, k: nat)
    requires k < |steps| && |worlds| == |steps| + 1
  {
    worlds[k + 1] == Next(worlds[k], steps[k])
  }

  /** The worlds a schedule of steps goes through. */
  ghost predicate Run(worlds: seq<World>, steps: seq<Step>) {
    && |worlds| == |steps| + 1
    && forall k :: 0 <= k < |steps| ==> Follows(worlds, steps, k)
  }

  /** Every world and every schedule of steps has its run. */
  lemma {:induction false} EveryScheduleRuns(w: World, steps: seq<Step>) returns (worlds: seq<World>)
    ensures Run(worlds, steps) && worlds[0] == w
    decreases |steps|
  {
    if steps == [] {
      worlds := [w];
    } else {
      var rest := EveryScheduleRuns(Next(w, steps[0]), steps[1..]);
      worlds := [w] + rest;
      forall k | 0 <= k < |steps| ensures Follows(worlds, steps, k) {
        if k > 0 {
          assert Follows(rest, steps[1..], k - 1);
        }
      }
    }
  }

  /** A chain before the index is created. */
  ghost predicate Genesis(w: World) {
    && w.index == NO_INDEX
    && w.supply == Total(w.wallets, IndexMint)
  }
}
