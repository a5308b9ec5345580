/**
 * The records of the auction state built by `startAuction` in app.js and
 * mutated by `AuctionManager`: players (nominees), teams, the leading bid,
 * the tagged history entries, and the settings that `placeBid` reads.
 */
module AuctionData {
  import opened Wrappers

  /**
   * A player card. `roles` is the array of selected roles (absent on legacy
   * records), `role` the legacy single role (the first selected one, or null).
   * `cost` is attached when the player is sold to a team.
   */
  datatype Player = Player(
    name: string,
    roles: Option<seq<string>>,
    role: Option<string>,
    tier: Option<string>,
    image: Option<string>,
    description: string,
    cost: Option<int>)

  /** A team: `id` is its position at draft start, `budgetLeft` what it may still spend. */
  datatype Team = Team(
    id: int,
    name: string,
    leader: Option<string>,
    budgetLeft: int,
    roster: seq<Player>)

  /** The leading bid `state.highest` on the current player. */
  datatype Bid = Bid(teamId: int, amount: int)

  /** One entry of `state.history`, tagged by its `type` field. */
  datatype Entry =
    | BidPlaced(prevHighest: Option<Bid>)
    | Assigned(teamId: int, amount: int, player: Player, index: nat)
    | Skipped(index: nat, player: Player, prevHighest: Option<Bid>)

  /**
   * The settings `placeBid` reads. A numeric setting of 0 stands for a field
   * that is absent from the state: JavaScript `x || 5` treats both alike.
   */
  datatype Settings = Settings(
    enforceRoles: bool,
    rosterSize: int,
    bidStep: int,
    openingMin: int)

  /** The part of the global `state` record that the auction commands read or write. */
  datatype AuctionState = AuctionState(
    teams: seq<Team>,
    queue: seq<Player>,
    currentIndex: nat,
    highest: Option<Bid>,
    history: seq<Entry>,
    unsoldCollector: seq<Player>,
    settings: Settings)

  /** Why a command left the state untouched (the source shows an alert or silently returns). */
  datatype Rejection =
    | NoCurrentPlayer
    | UnknownTeam
    | RosterFull
    | OverBudget
    | RoleConflict
    | BelowMinimum(minimum: int)
    | OffStep(step: int)
    | NoBid
    | EmptyHistory

  /** What a command reports to its caller. */
  datatype Outcome = Done | Rejected(reason: Rejection)

  /** JavaScript `v || fallback` on a number, with 0 standing for an absent field. */
  function OrDefault(v: int, fallback: int): int {
    if v == 0 then fallback else v
  }

  function Capacity(st: Settings): int { OrDefault(st.rosterSize, 5) }
  function Step(st: Settings): int { OrDefault(st.bidStep, 5) }
  function OpeningMin(st: Settings): int { OrDefault(st.openingMin, 5) }

  /** `array.pop()` on the value level: drops the last element, no-op on an empty array. */
  function Pop<T>(s: seq<T>): seq<T> {
    if |s| == 0 then s else s[..|s| - 1]
  }

  /**
   * `teams.find(t => t.id === id)`, as the position of the first team with
   * that id, or None when no team has it.
   */
  function FindTeam(teams: seq<Team>, id: int): (r: Option<nat>)
    ensures r.Some? ==> r.value < |teams| && teams[r.value].id == id
    ensures r.Some? ==> forall j :: 0 <= j < r.value ==> teams[j].id != id
    ensures r.None? ==> forall j :: 0 <= j < |teams| ==> teams[j].id != id
  {
    if |teams| == 0 then None
    else if teams[0].id == id then Some(0)
    else match FindTeam(teams[1..], id)
      case None => None
      case Some(k) => Some(k + 1)
  }

  /** The shape `startAuction` gives the team list: each team's id is its index. */
  ghost predicate IdsAreIndices(teams: seq<Team>) {
    forall i :: 0 <= i < |teams| ==> teams[i].id == i
  }

  /** With ids equal to indices, the `find` lookup is plain indexing. */
  lemma FindTeamByIndex(teams: seq<Team>, id: int)
    requires IdsAreIndices(teams)
    ensures FindTeam(teams, id) == if 0 <= id < |teams| then Some(id) else None
  {
    var r := FindTeam(teams, id);
    if 0 <= id < |teams| {
      assert teams[id].id == id;
      assert r.Some?;
      assert teams[r.value].id == r.value;
    }
  }

  /** Two team lists with the same ids pointwise resolve every id to the same position. */
  lemma FindTeamSameIds(a: seq<Team>, b: seq<Team>, id: int)
    requires |a| == |b|
    requires forall i :: 0 <= i < |a| ==> a[i].id == b[i].id
    ensures FindTeam(a, id) == FindTeam(b, id)
  {
    var ra, rb := FindTeam(a, id), FindTeam(b, id);
    if ra.Some? && rb.Some? {
      assert !(ra.value < rb.value) && !(rb.value < ra.value);
    }
  }
}
