/**
 * The parts of `startAuction` in app.js that decide the draft's shape before
 * the state is installed: how many teams there are, whether the cards are
 * usable, and which players go into the queue (everyone but the leaders).
 */
module Setup {
  import opened Wrappers
  import opened AuctionData

  datatype SetupError = NoPlayers | LeaderCountMismatch(needed: nat, chosen: nat)

  /**
   * `Math.max(1, Math.ceil(totalPlayers / 5))`, with 20 when the field is
   * empty: one team per five players, at least one team.
   */
  function TeamCount(total: Option<int>): (n: nat)
    ensures n >= 1
    ensures var t := total.GetOr(20); t > 0 ==> 5 * (n - 1) < t <= 5 * n
    ensures total.GetOr(20) <= 0 ==> n == 1
  {
    var t := total.GetOr(20);
    var q := (t + 4) / 5;
    if q < 1 then 1 else q
  }

  /**
   * The two refusals of `startAuction`: no player cards, or a number of
   * leaders different from the number of teams. On success, the team count.
   */
  function CheckSetup(total: Option<int>, players: seq<Player>, leaders: seq<string>): (r: Result<nat, SetupError>)
    ensures r.Success? <==> |players| > 0 && |leaders| == TeamCount(total)
    ensures r.Success? ==> r.value == |leaders| && r.value >= 1
    ensures |players| == 0 ==> r == Failure(NoPlayers)
    ensures r.Failure? && |players| > 0 ==> r.error == LeaderCountMismatch(TeamCount(total), |leaders|)
  {
    if |players| == 0 then Failure(NoPlayers)
    else if |leaders| != TeamCount(total) then Failure(LeaderCountMismatch(TeamCount(total), |leaders|))
    else Success(|leaders|)
  }

  /** `players.filter(p => !leaderSet.has(p.name))`: the auction queue before any shuffle. */
  function NonLeaders(players: seq<Player>, leaders: seq<string>): seq<Player> {
    if |players| == 0 then []
    else
      if players[0].name in leaders then NonLeaders(players[1..], leaders)
      else [players[0]] + NonLeaders(players[1..], leaders)
  }

  /** The queue holds no leader, and every non-leader card as often as the players do. */
  lemma {:induction false} NonLeadersCounts(players: seq<Player>, leaders: seq<string>)
    ensures var r := NonLeaders(players, leaders);
      (forall i :: 0 <= i < |r| ==> r[i].name !in leaders) &&
      (forall p :: p in players && p.name !in leaders ==> p in r) &&
      (forall p :: multiset(r)[p] == (if p.name in leaders then 0 else multiset(players)[p]))
  {
    if |players| > 0 {
      assert players == [players[0]] + players[1..];
      NonLeadersCounts(players[1..], leaders);
    }
  }

  /** The filter works piece by piece, so the queue keeps the players' order. */
  lemma {:induction false} NonLeadersConcat(a: seq<Player>, b: seq<Player>, leaders: seq<string>)
    ensures NonLeaders(a + b, leaders) == NonLeaders(a, leaders) + NonLeaders(b, leaders)
  {
    if |a| == 0 {
      assert a + b == b;
    } else {
      var ab := a + b;
      assert ab[0] == a[0] && ab[1..] == a[1..] + b;
      NonLeadersConcat(a[1..], b, leaders);
      if a[0].name !in leaders {
        assert NonLeaders(ab, leaders) == [a[0]] + NonLeaders(a[1..] + b, leaders);
        assert NonLeaders(a, leaders) == [a[0]] + NonLeaders(a[1..], leaders);
      }
    }
  }
}
