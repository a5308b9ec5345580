/**
 * `AuctionManager` of app.js with the `state` record it mutates, as a class:
 * each command updates the fields in place, and its contract says that the
 * new state is what the matching function of module Engine computes from the
 * old one. `Valid()` is the invariant Engine proves every command keeps, so
 * that budgets stay non-negative and rosters within `rosterSize`.
 */
module Auction {
  import opened Wrappers
  import opened AuctionData
  import opened Roles
  import opened Engine
  import opened Setup
  import opened Shuffling

  class AuctionManager {
    var teams: seq<Team>
    var queue: seq<Player>
    var currentIndex: nat
    var highest: Option<Bid>
    var history: seq<Entry>
    var unsoldCollector: seq<Player>
    var enforceRoles: bool
    var rosterSize: int
    var bidStep: int
    var openingMin: int

    /** The fields, as one value. */
    ghost function State(): AuctionState
      reads this
    {
      AuctionState(teams, queue, currentIndex, highest, history, unsoldCollector,
                   Settings(enforceRoles, rosterSize, bidStep, openingMin))
    }

    ghost predicate Valid()
      reads this
    {
      Consistent(State())
    }

    /**
     * `startAuction`, after its checks: teams numbered from 0, the non-leader
     * players as the queue (shuffled with `picks` when `randomizeOrder`),
     * nothing bid, assigned or skipped yet, five roster places per team.
     */
    constructor Start(names: seq<string>, budgets: seq<Option<int>>, leaders: seq<string>,
                      players: seq<Player>, enforceRoles: bool, randomizeOrder: bool, picks: seq<nat>)
      requires |budgets| == |names|
      requires randomizeOrder ==> ValidPicks(picks, |NonLeaders(players, leaders)|)
      ensures Valid()
      ensures State() == InitialState(names, budgets, leaders, queue, enforceRoles)
      ensures multiset(queue) == multiset(NonLeaders(players, leaders))
      ensures !randomizeOrder ==> queue == NonLeaders(players, leaders)
    {
      var filtered := NonLeaders(players, leaders);
      var order := filtered;
      if randomizeOrder {
        order := Shuffle(filtered, picks);
      }
      this.enforceRoles := enforceRoles;
      rosterSize := 5;
      bidStep := 0;
      openingMin := 0;
      teams := InitialTeams(names, budgets, leaders);
      queue := order;
      currentIndex := 0;
      highest := None;
      history := [];
      unsoldCollector := [];
      InitialConsistent(names, budgets, leaders, order, enforceRoles);
    }

    /** `placeBid` with the selected team and the amount field (None when empty). */
    method PlaceBid(teamId: int, input: Option<int>) returns (outcome: Outcome)
      requires Valid()
      modifies this
      ensures Valid()
      ensures State() == Engine.PlaceBid(old(State()), teamId, input)
      ensures outcome == BidOutcome(old(State()), teamId, input)
    {
      ghost var s0 := State();
      if currentIndex >= |queue| {
        return Rejected(NoCurrentPlayer);
      }
      var currentPlayer := queue[currentIndex];
      var opening := OrDefault(openingMin, 5);
      var asked := input.GetOr(opening);
      var amount := if asked < opening then opening else asked;
      assert amount == Amount(s0, input);
      var found := FindTeam(teams, teamId);
      if found.None? {
        return Rejected(UnknownTeam);
      }
      var team := teams[found.value];
      assert s0.teams[found.value] == team;
      if |team.roster| >= OrDefault(rosterSize, 5) {
        return Rejected(RosterFull);
      }
      if amount > team.budgetLeft {
        return Rejected(OverBudget);
      }
      if IsRoleConflict(enforceRoles, currentPlayer, team.roster) {
        return Rejected(RoleConflict);
      }
      var step := OrDefault(bidStep, 5);
      var minNextBid := if highest.Some? then highest.value.amount + step else opening;
      if amount < minNextBid {
        return Rejected(BelowMinimum(minNextBid));
      }
      if highest.Some? && (amount - highest.value.amount) % step != 0 {
        return Rejected(OffStep(step));
      }
      assert ValidateBid(s0, teamId, input) == Success(Bid(teamId, amount));
      history := history + [BidPlaced(highest)];
      highest := Some(Bid(teamId, amount));
      outcome := Done;
      assert State() == Engine.PlaceBid(s0, teamId, input);
      PlaceBidKeepsConsistent(s0, teamId, input);
    }

    /** `assignPlayer`: sell the current player to the leading bidder. */
    method AssignPlayer() returns (outcome: Outcome)
      requires Valid()
      modifies this
      ensures Valid()
      ensures State() == Assign(old(State()))
      ensures outcome == AssignOutcome(old(State()))
    {
      ghost var s0 := State();
      if currentIndex >= |queue| {
        return Rejected(NoCurrentPlayer);
      }
      var currentPlayer := queue[currentIndex];
      if highest.None? {
        return Rejected(NoBid);
      }
      var teamId, amount := highest.value.teamId, highest.value.amount;
      var found := FindTeam(teams, teamId);
      if found.None? {
        return Rejected(UnknownTeam);
      }
      var k := found.value;
      assert CheckAssign(s0) == Success(k);
      var team := teams[k];
      teams := teams[k := team.(budgetLeft := team.budgetLeft - amount,
                                roster := team.roster + [currentPlayer.(cost := Some(amount))])];
      history := history + [Assigned(teamId, amount, currentPlayer, currentIndex)];
      currentIndex := currentIndex + 1;
      highest := None;
      outcome := Done;
      assert State() == Assign(s0);
      AssignKeepsConsistent(s0);
    }

    /** `nextPlayer`: skip the current player into the unsold collector. */
    method NextPlayer() returns (outcome: Outcome)
      requires Valid()
      modifies this
      ensures Valid()
      ensures State() == Skip(old(State()))
      ensures outcome == SkipOutcome(old(State()))
    {
      ghost var s0 := State();
      if currentIndex >= |queue| {
        return Rejected(NoCurrentPlayer);
      }
      var currentPlayer := queue[currentIndex];
      history := history + [Skipped(currentIndex, currentPlayer, highest)];
      unsoldCollector := unsoldCollector + [currentPlayer];
      currentIndex := currentIndex + 1;
      highest := None;
      outcome := Done;
      assert State() == Skip(s0);
      SkipKeepsConsistent(s0);
    }

    /** `undo`: pop the last history entry and invert it. */
    method Undo() returns (outcome: Outcome)
      requires Valid()
      modifies this
      ensures Valid()
      ensures State() == Engine.Undo(old(State()))
      ensures outcome == UndoOutcome(old(State()))
    {
      ghost var s0 := State();
      if |history| == 0 {
        return Rejected(EmptyHistory);
      }
      var lastAction := history[|history| - 1];
      history := history[..|history| - 1];
      match lastAction {
        case BidPlaced(prevHighest) =>
          highest := prevHighest;
        case Assigned(teamId, amount, _, index) =>
          var found := FindTeam(teams, teamId);
          if found.Some? {
            var k := found.value;
            var team := teams[k];
            teams := teams[k := team.(budgetLeft := team.budgetLeft + amount, roster := Pop(team.roster))];
          }
          currentIndex := index;
          highest := None;
          assert State() == Engine.Undo(s0);
        case Skipped(index, _, prevHighest) =>
          unsoldCollector := Pop(unsoldCollector);
          currentIndex := index;
          highest := prevHighest;
      }
      outcome := Done;
      UndoKeepsConsistent(s0);
    }
  }
}
