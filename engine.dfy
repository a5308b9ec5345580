/**
 * The auction commands of `AuctionManager` in app.js as functions from one
 * `AuctionState` to the next, the initial state built by `startAuction`, and
 * the invariant that every team keeps a non-negative budget and a roster
 * within capacity under any interleaving of bid, assign, skip and undo.
 */
module Engine {
  import opened Wrappers
  import opened AuctionData
  import opened Roles

  /** The bid amount: the input, or the opening minimum when the field is empty, raised to at least the opening minimum. */
  function Amount(s: AuctionState, input: Option<int>): int {
    var opening := OpeningMin(s.settings);
    var asked := input.GetOr(opening);
    if asked < opening then opening else asked
  }

  /** The smallest acceptable next bid: one step over the leading bid, or the opening minimum. */
  function MinNextBid(s: AuctionState): int {
    if s.highest.Some? then s.highest.value.amount + Step(s.settings) else OpeningMin(s.settings)
  }

  /** The checks of `placeBid`, in the order the code makes them; success yields the new leading bid. */
  function ValidateBid(s: AuctionState, teamId: int, input: Option<int>): Result<Bid, Rejection> {
    if s.currentIndex >= |s.queue| then Failure(NoCurrentPlayer)
    else
      var amount := Amount(s, input);
      match FindTeam(s.teams, teamId)
      case None => Failure(UnknownTeam)
      case Some(k) =>
        var team := s.teams[k];
        if |team.roster| >= Capacity(s.settings) then Failure(RosterFull)
        else if amount > team.budgetLeft then Failure(OverBudget)
        else if IsRoleConflict(s.settings.enforceRoles, s.queue[s.currentIndex], team.roster) then Failure(RoleConflict)
        else if amount < MinNextBid(s) then Failure(BelowMinimum(MinNextBid(s)))
        else if s.highest.Some? && (amount - s.highest.value.amount) % Step(s.settings) != 0 then Failure(OffStep(Step(s.settings)))
        else Success(Bid(teamId, amount))
  }

  /** `placeBid`: on success, push the previous leading bid and make the new bid the leading one. */
  function PlaceBid(s: AuctionState, teamId: int, input: Option<int>): AuctionState {
    match ValidateBid(s, teamId, input)
    case Failure(_) => s
    case Success(b) => s.(history := s.history + [BidPlaced(s.highest)], highest := Some(b))
  }

  /** The guards of `assignPlayer`; success yields the position of the winning team. */
  function CheckAssign(s: AuctionState): Result<nat, Rejection> {
    if s.currentIndex >= |s.queue| then Failure(NoCurrentPlayer)
    else if s.highest.None? then Failure(NoBid)
    else match FindTeam(s.teams, s.highest.value.teamId)
      case None => Failure(UnknownTeam)
      case Some(k) => Success(k)
  }

  /** `assignPlayer`: charge the leading team, give it the player at that price, move on. */
  function Assign(s: AuctionState): AuctionState {
    match CheckAssign(s)
    case Failure(_) => s
    case Success(k) =>
      var b := s.highest.value;
      var p := s.queue[s.currentIndex];
      var team := s.teams[k];
      s.(teams := s.teams[k := team.(budgetLeft := team.budgetLeft - b.amount,
                                      roster := team.roster + [p.(cost := Some(b.amount))])],
         history := s.history + [Assigned(b.teamId, b.amount, p, s.currentIndex)],
         currentIndex := s.currentIndex + 1,
         highest := None)
  }

  /** `nextPlayer`: put the current player aside as unsold and move on. */
  function Skip(s: AuctionState): AuctionState {
    if s.currentIndex >= |s.queue| then s
    else
      var p := s.queue[s.currentIndex];
      s.(history := s.history + [Skipped(s.currentIndex, p, s.highest)],
         unsoldCollector := s.unsoldCollector + [p],
         currentIndex := s.currentIndex + 1,
         highest := None)
  }

  /** `undo`: pop the last history entry and invert it. */
  function Undo(s: AuctionState): (r: AuctionState)
    ensures |s.history| == 0 ==> r == s
    ensures |s.history| > 0 ==> r.history == s.history[..|s.history| - 1]
    ensures r.queue == s.queue && r.settings == s.settings
  {
    if |s.history| == 0 then s
    else
      var rest := s.history[..|s.history| - 1];
      match s.history[|s.history| - 1]
      case BidPlaced(prev) => s.(history := rest, highest := prev)
      case Assigned(teamId, amount, _, index) =>
        var teams := match FindTeam(s.teams, teamId)
          case None => s.teams
          case Some(k) => s.teams[k := s.teams[k].(budgetLeft := s.teams[k].budgetLeft + amount,
                                                    roster := Pop(s.teams[k].roster))];
        s.(history := rest, teams := teams, currentIndex := index, highest := None)
      case Skipped(index, _, prev) =>
        s.(history := rest, unsoldCollector := Pop(s.unsoldCollector), currentIndex := index, highest := prev)
  }

  /** What each command reports. */
  function BidOutcome(s: AuctionState, teamId: int, input: Option<int>): Outcome {
    match ValidateBid(s, teamId, input)
    case Failure(e) => Rejected(e)
    case Success(_) => Done
  }

  function AssignOutcome(s: AuctionState): Outcome {
    match CheckAssign(s)
    case Failure(e) => Rejected(e)
    case Success(_) => Done
  }

  function SkipOutcome(s: AuctionState): Outcome {
    if s.currentIndex >= |s.queue| then Rejected(NoCurrentPlayer) else Done
  }

  function UndoOutcome(s: AuctionState): Outcome {
    if |s.history| == 0 then Rejected(EmptyHistory) else Done
  }

  // ----- Initial state -----

  /** The team list `startAuction` builds: id = index, budget at least 1 (1000 when the field is empty), no players yet. */
  function InitialTeams(names: seq<string>, budgets: seq<Option<int>>, leaders: seq<string>): seq<Team>
    requires |budgets| == |names|
  {
    seq(|names|, i requires 0 <= i < |names| =>
      var asked := budgets[i].GetOr(1000);
      Team(i, names[i], if i < |leaders| then Some(leaders[i]) else None,
           if asked < 1 then 1 else asked, []))
  }

  /** The auction part of the state `startAuction` installs; `openingMin` and `bidStep` are not set there. */
  function InitialState(names: seq<string>, budgets: seq<Option<int>>, leaders: seq<string>,
                        queue: seq<Player>, enforceRoles: bool): AuctionState
    requires |budgets| == |names|
  {
    AuctionState(InitialTeams(names, budgets, leaders), queue, 0, None, [], [],
                 Settings(enforceRoles, 5, 0, 0))
  }

  // ----- The invariant -----

  /** A leading bid that `assignPlayer` can commit without breaking the budget or the capacity. */
  ghost predicate BidAffordable(s: AuctionState, b: Bid) {
    0 <= b.teamId < |s.teams| &&
    b.amount <= s.teams[b.teamId].budgetLeft &&
    |s.teams[b.teamId].roster| < Capacity(s.settings)
  }

  /** The facts that hold in every observable state. */
  ghost predicate Good(s: AuctionState) {
    IdsAreIndices(s.teams) &&
    (forall i :: 0 <= i < |s.teams| ==>
       s.teams[i].budgetLeft >= 0 && |s.teams[i].roster| <= Capacity(s.settings)) &&
    s.currentIndex <= |s.queue| &&
    (s.highest.Some? ==> BidAffordable(s, s.highest.value))
  }

  /** Good now, and Good again after undoing any number of history entries. */
  ghost predicate Consistent(s: AuctionState)
    decreases |s.history|
  {
    Good(s) && (|s.history| > 0 ==> Consistent(Undo(s)))
  }

  // ----- What each command does -----

  /**
   * `placeBid` either changes nothing, or pushes exactly one bid entry holding
   * the previous leading bid and makes the new bid the leading one, leaving
   * teams, cursor, queue and unsold collector as they were.
   */
  lemma PlaceBidEffect(s: AuctionState, teamId: int, input: Option<int>)
    ensures ValidateBid(s, teamId, input).Failure? ==> PlaceBid(s, teamId, input) == s
    ensures ValidateBid(s, teamId, input).Success? ==>
      var s' := PlaceBid(s, teamId, input);
      s'.history == s.history + [BidPlaced(s.highest)] &&
      s'.highest == Some(Bid(teamId, Amount(s, input))) &&
      s'.teams == s.teams && s'.queue == s.queue && s'.currentIndex == s.currentIndex &&
      s'.unsoldCollector == s.unsoldCollector && s'.settings == s.settings
  {
  }

  /**
   * On the team list `startAuction` builds, a bid is accepted exactly when
   * there is a current player, the team exists and has room, the amount is
   * within its budget, the player does not conflict on roles, the amount
   * reaches the minimum next bid and, when a bid leads, is a whole number of
   * steps above it.
   */
  lemma BidAcceptedIff(s: AuctionState, teamId: int, input: Option<int>)
    requires IdsAreIndices(s.teams)
    ensures ValidateBid(s, teamId, input).Success? <==>
      var amount := Amount(s, input);
      s.currentIndex < |s.queue| && 0 <= teamId < |s.teams| &&
      |s.teams[teamId].roster| < Capacity(s.settings) &&
      amount <= s.teams[teamId].budgetLeft &&
      !IsRoleConflict(s.settings.enforceRoles, s.queue[s.currentIndex], s.teams[teamId].roster) &&
      amount >= MinNextBid(s) &&
      (s.highest.Some? ==> (amount - s.highest.value.amount) % Step(s.settings) == 0)
  {
    FindTeamByIndex(s.teams, teamId);
  }

  /** An accepted bid is at least the opening minimum, and with a leading bid at least one step over it. */
  lemma AcceptedBidIsLegal(s: AuctionState, teamId: int, input: Option<int>)
    requires ValidateBid(s, teamId, input).Success?
    ensures var b := ValidateBid(s, teamId, input).value;
      b.teamId == teamId && b.amount >= OpeningMin(s.settings) &&
      (s.highest.Some? ==> b.amount >= s.highest.value.amount + Step(s.settings) &&
                           (b.amount - s.highest.value.amount) % Step(s.settings) == 0)
  {
  }

  /**
   * Concrete bids with both settings at 5: without a leading bid
   * the minimum is 5; over a leading bid of 20 the minimum is 25, 24 is too
   * low, 25 is accepted and 27 is refused as off-step.
   */
  lemma BidLegalityExamples(s: AuctionState, teamId: int, leader: int)
    requires Step(s.settings) == 5 && OpeningMin(s.settings) == 5
    requires s.currentIndex < |s.queue| && IdsAreIndices(s.teams) && 0 <= teamId < |s.teams|
    requires |s.teams[teamId].roster| < Capacity(s.settings) && s.teams[teamId].budgetLeft >= 27
    requires !IsRoleConflict(s.settings.enforceRoles, s.queue[s.currentIndex], s.teams[teamId].roster)
    ensures s.highest.None? ==> MinNextBid(s) == 5 && ValidateBid(s, teamId, None) == Success(Bid(teamId, 5))
    ensures s.highest == Some(Bid(leader, 20)) ==>
      MinNextBid(s) == 25 &&
      ValidateBid(s, teamId, Some(24)) == Failure(BelowMinimum(25)) &&
      ValidateBid(s, teamId, Some(25)) == Success(Bid(teamId, 25)) &&
      ValidateBid(s, teamId, Some(27)) == Failure(OffStep(5))
  {
    FindTeamByIndex(s.teams, teamId);
  }

  /**
   * `assignPlayer` on a good state with a current player and a leading bid:
   * only the winning team changes, and of it only its budget, which drops by
   * the amount, and its roster, which the player joins at that cost; an assign entry records team,
   * amount, player and old cursor; the cursor advances and the bid is cleared;
   * the queue, the unsold collector and the settings stay as they were.
   */
  lemma AssignEffect(s: AuctionState)
    requires Good(s) && s.currentIndex < |s.queue| && s.highest.Some?
    ensures var b := s.highest.value; var p := s.queue[s.currentIndex]; var s' := Assign(s);
      |s'.teams| == |s.teams| &&
      (forall j :: 0 <= j < |s.teams| && j != b.teamId ==> s'.teams[j] == s.teams[j]) &&
      s'.teams[b.teamId] == s.teams[b.teamId].(budgetLeft := s.teams[b.teamId].budgetLeft - b.amount,
                                                 roster := s.teams[b.teamId].roster + [p.(cost := Some(b.amount))]) &&
      s'.history == s.history + [Assigned(b.teamId, b.amount, p, s.currentIndex)] &&
      s'.currentIndex == s.currentIndex + 1 && s'.highest.None? &&
      s'.queue == s.queue && s'.unsoldCollector == s.unsoldCollector && s'.settings == s.settings
  {
    FindTeamByIndex(s.teams, s.highest.value.teamId);
  }

  /** `assignPlayer` does nothing without a current player or without a leading bid. */
  lemma AssignNeedsPlayerAndBid(s: AuctionState)
    requires s.currentIndex >= |s.queue| || s.highest.None?
    ensures Assign(s) == s && AssignOutcome(s).Rejected?
  {
  }

  /**
   * `nextPlayer` with a current player: a skip entry holds the old cursor and
   * leading bid, the player joins the unsold collector, the cursor advances,
   * the bid is cleared and the teams and settings are untouched. Without one,
   * nothing changes.
   */
  lemma SkipEffect(s: AuctionState)
    ensures s.currentIndex >= |s.queue| ==> Skip(s) == s
    ensures s.currentIndex < |s.queue| ==>
      var p := s.queue[s.currentIndex]; var s' := Skip(s);
      s'.history == s.history + [Skipped(s.currentIndex, p, s.highest)] &&
      s'.unsoldCollector == s.unsoldCollector + [p] &&
      s'.currentIndex == s.currentIndex + 1 && s'.highest.None? &&
      s'.teams == s.teams && s'.queue == s.queue && s'.settings == s.settings
  {
  }

  // ----- Each command is undone by `undo` -----

  /** Undoing an accepted bid restores the state exactly. */
  lemma UndoPlaceBid(s: AuctionState, teamId: int, input: Option<int>)
    requires ValidateBid(s, teamId, input).Success?
    ensures Undo(PlaceBid(s, teamId, input)) == s
  {
    var s' := PlaceBid(s, teamId, input);
    assert s'.history[..|s'.history| - 1] == s.history;
  }

  /** Undoing a skip restores the state exactly, the leading bid included. */
  lemma UndoSkip(s: AuctionState)
    requires s.currentIndex < |s.queue|
    ensures Undo(Skip(s)) == s
  {
    var s' := Skip(s);
    assert s'.history[..|s'.history| - 1] == s.history;
    assert Pop(s'.unsoldCollector) == s.unsoldCollector;
  }

  /** Undoing an assignment refunds the team and takes the player back, but leaves no leading bid. */
  lemma UndoAssign(s: AuctionState)
    requires CheckAssign(s).Success?
    ensures Undo(Assign(s)) == s.(highest := None)
  {
    var k := CheckAssign(s).value;
    var s' := Assign(s);
    assert s'.history[..|s'.history| - 1] == s.history;
    FindTeamSameIds(s'.teams, s.teams, s.highest.value.teamId);
    var t := s.teams[k];
    assert Pop(s'.teams[k].roster) == t.roster;
    assert s'.teams[k].(budgetLeft := s'.teams[k].budgetLeft + s.highest.value.amount,
                        roster := Pop(s'.teams[k].roster)) == t;
    assert s'.teams[k := t] == s.teams;
  }

  /** Undo on an empty history changes nothing. */
  lemma UndoEmpty(s: AuctionState)
    requires |s.history| == 0
    ensures Undo(s) == s && UndoOutcome(s) == Rejected(EmptyHistory)
  {
  }

  // ----- The invariant is kept -----

  /** Every undo step sets `highest` itself, so the leading bid before the undo does not matter. */
  lemma UndoIgnoresHighest(s: AuctionState, h: Option<Bid>)
    requires |s.history| > 0
    ensures Undo(s.(highest := h)) == Undo(s)
  {
    var s' := s.(highest := h);
    match s.history[|s.history| - 1]
    case BidPlaced(_) =>
    case Assigned(_, _, _, _) =>
      assert Undo(s').teams == Undo(s).teams;
    case Skipped(_, _, _) =>
  }

  /** Dropping the leading bid keeps the state consistent: every undo step overwrites `highest`. */
  lemma ClearHighestKeepsConsistent(s: AuctionState)
    requires Consistent(s)
    ensures Consistent(s.(highest := None))
  {
    var s' := s.(highest := None);
    assert Good(s');
    if |s.history| > 0 {
      UndoIgnoresHighest(s, None);
      assert Consistent(Undo(s));
    }
  }

  /** An accepted bid is affordable and has room, and undoing it gives back the old state. */
  lemma PlaceBidKeepsConsistent(s: AuctionState, teamId: int, input: Option<int>)
    requires Consistent(s)
    ensures Consistent(PlaceBid(s, teamId, input))
  {
    if ValidateBid(s, teamId, input).Success? {
      FindTeamByIndex(s.teams, teamId);
      UndoPlaceBid(s, teamId, input);
    }
  }

  /** Committing an affordable bid that has room keeps budgets non-negative and rosters within capacity. */
  lemma AssignKeepsConsistent(s: AuctionState)
    requires Consistent(s)
    ensures Consistent(Assign(s))
  {
    if CheckAssign(s).Success? {
      FindTeamByIndex(s.teams, s.highest.value.teamId);
      UndoAssign(s);
      ClearHighestKeepsConsistent(s);
      var s' := Assign(s);
      assert IdsAreIndices(s'.teams);
    }
  }

  /** A skip leaves the teams as they were, and undoing it gives back the old state. */
  lemma SkipKeepsConsistent(s: AuctionState)
    requires Consistent(s)
    ensures Consistent(Skip(s))
  {
    if s.currentIndex < |s.queue| {
      UndoSkip(s);
    }
  }

  /** The invariant already covers the state undo gives back. */
  lemma UndoKeepsConsistent(s: AuctionState)
    requires Consistent(s)
    ensures Consistent(Undo(s))
  {
  }

  /** The state `startAuction` installs is consistent. */
  lemma InitialConsistent(names: seq<string>, budgets: seq<Option<int>>, leaders: seq<string>,
                          queue: seq<Player>, enforceRoles: bool)
    requires |budgets| == |names|
    ensures Consistent(InitialState(names, budgets, leaders, queue, enforceRoles))
  {
    var s := InitialState(names, budgets, leaders, queue, enforceRoles);
    assert Good(s);
  }

  // ----- Any interleaving of commands -----

  datatype Command =
    | PlaceBidCmd(teamId: int, input: Option<int>)
    | AssignCmd
    | SkipCmd
    | UndoCmd

  function Apply(s: AuctionState, c: Command): AuctionState {
    match c
    case PlaceBidCmd(teamId, input) => PlaceBid(s, teamId, input)
    case AssignCmd => Assign(s)
    case SkipCmd => Skip(s)
    case UndoCmd => Undo(s)
  }

  /** The state after running the commands one after another. */
  function Run(s: AuctionState, cmds: seq<Command>): AuctionState
    decreases |cmds|
  {
    if |cmds| == 0 then s else Run(Apply(s, cmds[0]), cmds[1..])
  }

  lemma {:induction false} RunKeepsConsistent(s: AuctionState, cmds: seq<Command>)
    requires Consistent(s)
    ensures Consistent(Run(s, cmds))
    decreases |cmds|
  {
    if |cmds| > 0 {
      match cmds[0] {
        case PlaceBidCmd(teamId, input) => PlaceBidKeepsConsistent(s, teamId, input);
        case AssignCmd => AssignKeepsConsistent(s);
        case SkipCmd => SkipKeepsConsistent(s);
        case UndoCmd => UndoKeepsConsistent(s);
      }
      RunKeepsConsistent(Apply(s, cmds[0]), cmds[1..]);
    }
  }

  /** No command writes the settings, so a run ends with the settings it started with. */
  lemma {:induction false} RunKeepsSettings(s: AuctionState, cmds: seq<Command>)
    ensures Run(s, cmds).settings == s.settings
    decreases |cmds|
  {
    if |cmds| > 0 {
      RunKeepsSettings(Apply(s, cmds[0]), cmds[1..]);
    }
  }

  /**
   * From the state `startAuction` installs, after any sequence of bids,
   * assignments, skips and undos, every team has a non-negative budget and
   * at most `rosterSize` players, and the cursor is within the queue; the
   * settings are still the ones `startAuction` chose, so that is five players.
   */
  lemma AuctionIsSafe(names: seq<string>, budgets: seq<Option<int>>, leaders: seq<string>,
                      queue: seq<Player>, enforceRoles: bool, cmds: seq<Command>)
    requires |budgets| == |names|
    ensures var s := Run(InitialState(names, budgets, leaders, queue, enforceRoles), cmds);
      (forall i :: 0 <= i < |s.teams| ==>
         s.teams[i].budgetLeft >= 0 && |s.teams[i].roster| <= Capacity(s.settings)) &&
      s.currentIndex <= |s.queue| &&
      s.settings == Settings(enforceRoles, 5, 0, 0) && Capacity(s.settings) == 5
  {
    InitialConsistent(names, budgets, leaders, queue, enforceRoles);
    RunKeepsConsistent(InitialState(names, budgets, leaders, queue, enforceRoles), cmds);
    RunKeepsSettings(InitialState(names, budgets, leaders, queue, enforceRoles), cmds);
  }

  /**
   * A short draft: team 1 bids 10 on the first player and is assigned it,
   * paying 10 for one roster place with the cursor at 1; the second player is
   * then skipped and becomes the only unsold player.
   */
  lemma DraftScenario(names: seq<string>, budgets: seq<Option<int>>, leaders: seq<string>,
                      first: Player, second: Player)
    requires |names| == |budgets| == 2 && budgets[1] == Some(100)
    ensures var s0 := InitialState(names, budgets, leaders, [first, second], false);
      var s2 := Run(s0, [PlaceBidCmd(1, Some(10)), AssignCmd]);
      var s3 := Apply(s2, SkipCmd);
      s2.teams[1].budgetLeft == 90 && |s2.teams[1].roster| == 1 && s2.currentIndex == 1 &&
      s3.unsoldCollector == [second] && s3.currentIndex == 2
  {
    var s0 := InitialState(names, budgets, leaders, [first, second], false);
    assert ValidateBid(s0, 1, Some(10)) == Success(Bid(1, 10)) by {
      FindTeamByIndex(s0.teams, 1);
    }
    var s1 := Apply(s0, PlaceBidCmd(1, Some(10)));
    assert s1.highest == Some(Bid(1, 10));
    assert CheckAssign(s1) == Success(1) by {
      FindTeamByIndex(s1.teams, 1);
    }
    var s2 := Apply(s1, AssignCmd);
    assert Run(s0, [PlaceBidCmd(1, Some(10)), AssignCmd]) == s2 by {
      assert [PlaceBidCmd(1, Some(10)), AssignCmd][1..] == [AssignCmd];
      assert Run(s1, [AssignCmd]) == Run(s2, []);
    }
  }
}
