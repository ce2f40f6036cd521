/** Who can change what: roles, parameters, the pause switch and the component table. */
module Governance {
  import opened Words
  import opened Accounts
  import opened Handlers
  import opened Runs
  import opened Frames

  /** The three keys the index answers to. */
  function Roles(idx: Index): (Key, Key, Key) {
    (idx.governor, idx.manager, idx.feeRecipient)
  }

  /** The roles after `authority` is written into slot `role`. */
  function Reassigned(roles: (Key, Key, Key), role: uint8, authority: Key): (Key, Key, Key) {
    if role == 0 then (authority, roles.1, roles.2)
    else if role == 1 then (roles.0, authority, roles.2)
    else (roles.0, roles.1, authority)
  }

  /** An act that takes the governor's key: new parameters, a new role, or lifting a pause. */
  predicate GovernorActs(step: Step, governor: Key) {
    || (step.DoSetParams? && step.caller == governor)
    || (step.DoSetAuthority? && step.caller == governor)
    || (step.DoSetPaused? && !step.paused && step.caller == governor)
  }

  /** Roles move one at a time and only by the governor of the moment; nothing else in any step moves
      them. */
  lemma RolesMoveByGovernor(w: World, step: Step)
    requires !w.index.status.Absent?
    ensures Roles(Next(w, step).index) ==
      if step.DoSetAuthority? && step.caller == w.index.governor && step.role <= 2
      then Reassigned(Roles(w.index), step.role, step.authority)
      else Roles(w.index)
  {
    if Apply(w, step).Ok? {
      match step
      case DoIssue(_, _, _, _) => EntryFrame(w, step);
      case DoRedeem(_, _, _, _) => EntryFrame(w, step);
      case DoAccrue => EntryFrame(w, step);
      case DoBid(_, _, _, _, _, _) => BidFrame(w, step);
      case DoPropose(_, _, _, _) => ProposeFrame(w, step);
      case DoEnd(_) => EndFrame(w, step);
      case _ =>
    }
  }

  /** Parameters move only by the governor, and only to values inside the caps. */
  lemma ParamsMoveByGovernor(w: World, step: Step)
    requires !w.index.status.Absent?
    ensures Next(w, step).index.params ==
      if step.DoSetParams? && step.caller == w.index.governor && CheckFees(step.params).Ok?
      then step.params else w.index.params
  {
    if !step.DoInit? && !step.DoSetParams? {
      ParamsFrame(w, step);
    }
  }

  /** What each step makes of the status. */
  function StatusAfter(w: World, step: Step): Status {
    match step
    case DoSeal(caller) =>
      if w.index.status.Bootstrapping? && caller == w.index.manager && w.index.components != [] then Live
        else w.index.status
    case DoSetPaused(caller, paused) =>
      if w.index.status.Bootstrapping? then Bootstrapping
      else if paused && caller in {w.index.governor, w.index.manager} then Status.Paused
      else if !paused && caller == w.index.governor then Live
      else w.index.status
    case _ => w.index.status
  }

  /** An index opens only when its manager seals a table with something in it; governor and manager
      may each pause it, the governor alone may resume it, and nothing else moves the status. */
  lemma StatusMoves(w: World, step: Step)
    requires !w.index.status.Absent?
    ensures Next(w, step).index.status == StatusAfter(w, step)
  {
    StatusFrame(w, step);
  }

  /** While an index is paused nobody enters it, bids on it or proposes for it. */
  lemma PauseStopsEntry(w: World, step: Step)
    requires w.index.status.Paused? && (step.DoIssue? || step.DoBid? || step.DoPropose?)
    ensures Apply(w, step).Err? && Next(w, step) == w
  {
  }

  /** As long as the governor does not act, a paused index stays paused under the same roles and
      parameters, and every issue, bid and proposal fails. */
  lemma {:induction false} PauseHolds(worlds: seq<World>, steps: seq<Step>, k: nat)
    requires Run(worlds, steps) && k <= |steps| && worlds[0].index.status.Paused?
    requires forall j :: 0 <= j < |steps| ==> !GovernorActs(steps[j], worlds[0].index.governor)
    ensures worlds[k].index.status.Paused?
    ensures Roles(worlds[k].index) == Roles(worlds[0].index) && worlds[k].index.params == worlds[0].index.params
    ensures k < |steps| && (steps[k].DoIssue? || steps[k].DoBid? || steps[k].DoPropose?) ==> worlds[k + 1] == worlds[k]
  {
    if k > 0 {
      PauseHolds(worlds, steps, k - 1);
      assert Follows(worlds, steps, k - 1);
      RolesMoveByGovernor(worlds[k - 1], steps[k - 1]);
      ParamsMoveByGovernor(worlds[k - 1], steps[k - 1]);
      StatusMoves(worlds[k - 1], steps[k - 1]);
    }
    if k < |steps| {
      assert Follows(worlds, steps, k);
      if steps[k].DoIssue? || steps[k].DoBid? || steps[k].DoPropose? {
        PauseStopsEntry(worlds[k], steps[k]);
      }
    }
  }

  /** The table grows by one fresh slot at a time, only while the index is being set up and only by
      its manager; each new vault starts empty. */
  lemma TableGrowsByManager(w: World, step: Step)
    requires w.index.status.Bootstrapping? && |Next(w, step).vaults| != |w.vaults|
    ensures step.DoAddComponent? && step.caller == w.index.manager && step.units > 0 && |w.vaults| < MAX_COMPONENTS
    ensures forall i :: 0 <= i < |w.vaults| ==> w.index.components[i].mint != step.mint
    ensures Next(w, step).vaults == w.vaults + [0]
    ensures Next(w, step).index.components
      == w.index.components + [Component(step.mint, step.units, step.units, 0, step.decimals)]
  {
    if !step.DoAddComponent? {
      TableFrame(w, step);
      assert false;
    }
  }
}
