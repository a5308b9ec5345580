/**
 * The role-conflict predicate `AuctionManager._isRoleConflict` of app.js:
 * under role enforcement, a player conflicts with a team when every role the
 * player can play is already used by someone on the team's roster.
 */
module Roles {
  import opened Wrappers
  import opened AuctionData

  /** `CONSTANTS.ROLES`: the roles a legacy single `role` must be one of. */
  const ROLES: seq<string> := ["Top", "Jungle", "Mid", "ADC", "Support"]

  /** JavaScript truthiness of an optional string: present and not empty. */
  predicate Truthy(o: Option<string>) {
    o.Some? && o.value != ""
  }

  /**
   * The roles the candidate player can fill: its `roles` array when that is
   * non-empty, otherwise its legacy `role` when that is one of ROLES,
   * otherwise none.
   */
  function PlayerRoles(p: Player): seq<string> {
    if p.roles.Some? && |p.roles.value| > 0 then p.roles.value
    else if Truthy(p.role) && p.role.value in ROLES then [p.role.value]
    else []
  }

  /** The roles one roster member adds to the used-role set: its truthy `role` and every entry of its `roles` array. */
  function MemberRoles(p: Player): set<string> {
    (if Truthy(p.role) then {p.role.value} else {})
    + (if p.roles.Some? then set r | r in p.roles.value else {})
  }

  /** The `usedRoles` set built by the `forEach` over the roster. */
  function UsedRoles(roster: seq<Player>): set<string> {
    if |roster| == 0 then {} else UsedRoles(roster[..|roster| - 1]) + MemberRoles(roster[|roster| - 1])
  }

  /** `_isRoleConflict(player, team)`: no role of the player is still free on the team. */
  predicate IsRoleConflict(enforceRoles: bool, player: Player, roster: seq<Player>) {
    if !enforceRoles then false
    else
      var wanted := PlayerRoles(player);
      if |wanted| == 0 then false
      else
        var used := UsedRoles(roster);
        !(exists i :: 0 <= i < |wanted| && wanted[i] !in used)
  }

  /** Some member of the roster carries role r. */
  predicate CarriedBy(r: string, roster: seq<Player>) {
    exists k :: 0 <= k < |roster| && r in MemberRoles(roster[k])
  }

  /** A role is used exactly when some roster member carries it. */
  lemma {:induction false} UsedRolesMembers(roster: seq<Player>, r: string)
    ensures r in UsedRoles(roster) <==> CarriedBy(r, roster)
  {
    if |roster| > 0 {
      var init := roster[..|roster| - 1];
      UsedRolesMembers(init, r);
      if r in UsedRoles(init) {
        var k :| 0 <= k < |init| && r in MemberRoles(init[k]);
        assert roster[k] == init[k];
      }
      if CarriedBy(r, roster) {
        var k :| 0 <= k < |roster| && r in MemberRoles(roster[k]);
        if k < |init| {
          assert init[k] == roster[k];
        }
      }
    }
  }

  /**
   * A conflict holds exactly when roles are enforced, the player has at
   * least one role, and each of its roles is carried by some roster member.
   */
  lemma RoleConflictIff(enforceRoles: bool, player: Player, roster: seq<Player>)
    ensures IsRoleConflict(enforceRoles, player, roster) <==>
      enforceRoles && |PlayerRoles(player)| > 0 &&
      forall i :: 0 <= i < |PlayerRoles(player)| ==> CarriedBy(PlayerRoles(player)[i], roster)
  {
    var wanted := PlayerRoles(player);
    var used := UsedRoles(roster);
    forall i | 0 <= i < |wanted|
      ensures wanted[i] in used <==> CarriedBy(wanted[i], roster)
    {
      UsedRolesMembers(roster, wanted[i]);
    }
    if enforceRoles && |wanted| > 0 {
      assert IsRoleConflict(enforceRoles, player, roster) <==> forall i :: 0 <= i < |wanted| ==> wanted[i] in used;
    }
  }

  /** A player without any usable role never conflicts, whatever the roster. */
  lemma NoRolesNoConflict(enforceRoles: bool, player: Player, roster: seq<Player>)
    requires |PlayerRoles(player)| == 0
    ensures !IsRoleConflict(enforceRoles, player, roster)
  {
  }

  /** A player with a role that nobody on the roster carries never conflicts. */
  lemma FreeRoleNoConflict(enforceRoles: bool, player: Player, roster: seq<Player>, i: nat)
    requires i < |PlayerRoles(player)|
    requires !CarriedBy(PlayerRoles(player)[i], roster)
    ensures !IsRoleConflict(enforceRoles, player, roster)
  {
    UsedRolesMembers(roster, PlayerRoles(player)[i]);
  }

  /** A card as `collectPlayersFromCards` builds it: `role` is the first of `roles`. */
  function Card(name: string, roles: seq<string>): Player {
    Player(name, Some(roles), if |roles| > 0 then Some(roles[0]) else None, None, None, "", None)
  }

  /**
   * With enforcement on, a player whose only role is Mid conflicts with a
   * roster that already has a Mid; a Mid/Support player does not, because
   * Support is still free.
   */
  lemma MidScenarios(mate: string, candidate: string)
    ensures IsRoleConflict(true, Card(candidate, ["Mid"]), [Card(mate, ["Mid"])])
    ensures !IsRoleConflict(true, Card(candidate, ["Mid", "Support"]), [Card(mate, ["Mid"])])
  {
    var roster := [Card(mate, ["Mid"])];
    assert UsedRoles(roster) == {"Mid"} by {
      assert roster[..0] == [];
    }
    assert PlayerRoles(Card(candidate, ["Mid", "Support"]))[1] == "Support";
  }
}
