# Team auction engine, modelled in Dafny

This project models the auction engine of the team-auction web app (`app.js`):
the `AuctionManager` commands that run a live player draft over the shared
`state` record, the initial state that `startAuction` installs, and the two
pure helpers the engine and its display rely on, `Utils.escapeHtml` and
`Utils.shuffle`.

A draft offers the players of `queue` one at a time, at `currentIndex`. Teams
bid with `placeBid`; the leading bid is `highest`. `assignPlayer` sells the
current player to the leading team, charging its `budgetLeft` and appending the
player, with its `cost`, to the team's `roster`. `nextPlayer` skips the player
into `unsoldCollector`. Every successful command pushes a tagged entry
(`bid`, `assign`, `skip`) on `history`, and `undo` pops the last entry and
inverts it.

Files:

- `wrappers.dfy` (module `Wrappers`): `Option` for `null` fields and `Result` for checks that may refuse.
- `model.dfy` (module `AuctionData`): players, teams, bids, history entries, settings, the state value, rejection reasons, and the `teams.find` lookup.
- `roles.dfy` (module `Roles`): `_isRoleConflict` and the used-role set.
- `engine.dfy` (module `Engine`): each command as a function from state to state, the initial state, and the invariant with its proofs.
- `manager.dfy` (module `Auction`): class `AuctionManager`, whose fields are the state and whose methods update them in place. Each method's contract says that the new state is the `Engine` function of the old one, and that `Valid()` is kept.
- `setup.dfy` (module `Setup`): the checks and the player filter of `startAuction`.
- `shuffle.dfy` (module `Shuffling`): `Utils.shuffle`, with the random indices passed in.
- `escape.dfy` (module `Html`): `Utils.escapeHtml`.

The central result is `Engine.AuctionIsSafe`. Start from the state that
`startAuction` installs and run any sequence of bids, assignments, skips and
undos. Every team then has `budgetLeft >= 0` and at most `rosterSize` players,
and the cursor stays within the queue. The invariant behind it is
`Engine.Consistent`. It holds when the current state is good, and the state
that `undo` would restore is consistent in turn, down to the bottom of the
history. A good state is one where budgets are non-negative, rosters are within
capacity, and any leading bid is one its team can pay and has room for. Every
accepted command can be undone back to the state before it. For `assign` this
holds up to the cleared leading bid. So each command keeps the invariant.

Settings follow the code's `x || 5` reading. `openingMin`, `bidStep` and
`rosterSize` fall back to 5 when absent or 0, and an absent setting is stored
as 0. `startAuction` sets `rosterSize` to 5 and never sets `openingMin` or
`bidStep`, so both take the default of 5.

Facts about the code that shape the model:

- The code checks role conflict (app.js:449) before the minimum next bid and the step (app.js:455-467).
- Undoing an assignment leaves no leading bid (app.js:565). So undo right after an assignment restores everything except `highest`, which becomes null; `Engine.UndoAssign` states exactly that.
- The capacity check counts roster entries only (app.js:438). It does not count a team's leader.
- A player with no role at all never conflicts (app.js:486).
- The code has no re-auction rounds and no random fallback assignment. Only the unused fields `round` and `reauctionMax` hint at them.

## Model

| member | source | states |
|---|---|---|
| `AuctionData.FindTeam` | app.js:434 | returns the position of the first team whose id is the requested one, or None exactly when no team has that id |
| `AuctionData.FindTeamByIndex` | app.js:610-616 | on the team list `startAuction` builds (id = position), looking up an id yields that position when it is in range and None otherwise |
| `Roles.IsRoleConflict` | app.js:479-497 | `_isRoleConflict` itself; its meaning is stated by `Roles.RoleConflictIff`, `Roles.NoRolesNoConflict`, `Roles.FreeRoleNoConflict` and `Roles.MidScenarios` |
| `Roles.UsedRolesMembers` | app.js:488-494 | a role is in the used-role set exactly when some roster member carries it, as its truthy `role` or in its `roles` array |
| `Roles.RoleConflictIff` | app.js:479-497 | a conflict holds exactly when roles are enforced, the player has at least one usable role (its `roles`, else a legal legacy `role`), and every such role is carried by some roster member |
| `Roles.NoRolesNoConflict` | app.js:486 | a player without any usable role never conflicts, whatever the roster and the setting |
| `Roles.FreeRoleNoConflict` | app.js:496 | if one of the player's roles is carried by nobody on the roster, there is no conflict |
| `Roles.MidScenarios` | app.js:479-497 | with enforcement on, a Mid player conflicts with a roster that has a Mid, and a Mid/Support player does not |
| `Engine.PlaceBid` | app.js:424-474 | `placeBid` as a state function; what it does is stated by `Engine.PlaceBidEffect`, `Engine.BidAcceptedIff` and `Engine.AcceptedBidIsLegal`, and its inverse by `Engine.UndoPlaceBid` |
| `Engine.PlaceBidEffect` | app.js:424-474 | a refused bid leaves the whole state unchanged; an accepted bid pushes exactly one bid entry holding the previous leading bid, sets `highest` to the team and clamped amount, and leaves teams, queue, cursor, unsold collector and settings as they were |
| `Engine.BidAcceptedIff` | app.js:425-467 | on ids = positions, a bid is accepted exactly when there is a current player, the team exists, its roster has room, the amount is within its budget, there is no role conflict, the amount reaches the minimum next bid, and, when a bid leads, the difference to it is a multiple of the step |
| `Engine.AcceptedBidIsLegal` | app.js:455-467 | an accepted bid is for the bidding team, at least the opening minimum, and when a bid leads, at least one step above it and a whole number of steps above it |
| `Engine.BidLegalityExamples` | app.js:455-467 | with both settings at 5: with no leading bid the minimum is 5 and an empty amount field bids 5; over a leading 20 the minimum is 25, 24 is refused as too low, 25 is accepted and 27 is refused as off-step |
| `Engine.Assign` | app.js:500-528 | `assignPlayer` as a state function; what it does is stated by `Engine.AssignEffect` and `Engine.AssignNeedsPlayerAndBid`, and its inverse by `Engine.UndoAssign` |
| `Engine.AssignEffect` | app.js:509-525 | on a good state with a current player and a leading bid, assigning changes only the winning team, and of it only its budget, which drops by the amount, and its roster, which the player joins with that cost; an assign entry records team, amount, player and old cursor; the cursor advances by one and the bid is cleared; queue, unsold collector and settings are unchanged |
| `Engine.AssignNeedsPlayerAndBid` | app.js:501-507 | without a current player or without a leading bid, assigning changes nothing and reports a rejection |
| `Engine.Skip` | app.js:530-546 | `nextPlayer` as a state function; what it does is stated by `Engine.SkipEffect`, and its inverse by `Engine.UndoSkip` |
| `Engine.SkipEffect` | app.js:530-543 | without a current player nothing changes; otherwise a skip entry holds the old cursor and leading bid, the player joins the unsold collector, the cursor advances, the bid is cleared, and the teams and settings are untouched |
| `Engine.Undo` | app.js:548-572 | on an empty history the state is unchanged; otherwise exactly the last history entry is removed; the queue and the settings are never touched |
| `Engine.UndoEmpty` | app.js:549 | undo on an empty history changes nothing and reports the empty history |
| `Engine.UndoPlaceBid` | app.js:554-556 | undo right after an accepted bid restores the exact previous state |
| `Engine.UndoAssign` | app.js:558-566 | undo right after an assignment refunds the team, removes the player from its roster and restores the cursor, giving the previous state with no leading bid |
| `Engine.UndoSkip` | app.js:568-572 | undo right after a skip restores the exact previous state, including the cursor, the unsold collector and the leading bid |
| `Engine.UndoIgnoresHighest` | app.js:553-572 | undo gives the same state whatever the leading bid was before it: each kind of entry sets `highest` itself |
| `Engine.ClearHighestKeepsConsistent` | app.js:565 | clearing the leading bid keeps the invariant, because every undo step sets `highest` itself |
| `Engine.PlaceBidKeepsConsistent` | app.js:438-446 | a bid, accepted or not, keeps the invariant: an accepted bid is affordable and has room, and undoing it returns to the old state |
| `Engine.AssignKeepsConsistent` | app.js:509-514 | an assignment keeps the invariant: the leading bid was affordable and had room, so the budget stays non-negative and the roster within capacity |
| `Engine.SkipKeepsConsistent` | app.js:530-543 | a skip keeps the invariant |
| `Engine.UndoKeepsConsistent` | app.js:548-572 | an undo keeps the invariant |
| `Engine.InitialState` | app.js:601-624 | the auction part of the state `startAuction` installs; `Engine.InitialConsistent` states that it satisfies the invariant and `Engine.AuctionIsSafe` what follows from it |
| `Engine.InitialConsistent` | app.js:601-624 | the state `startAuction` installs (budgets at least 1, empty rosters, no bid, empty history) satisfies the invariant |
| `Engine.RunKeepsConsistent` | app.js:424-577 | any sequence of bids, assignments, skips and undos from a consistent state ends in a consistent state |
| `Engine.RunKeepsSettings` | app.js:424-577 | no command writes the settings, so any run ends with the settings it started with |
| `Engine.AuctionIsSafe` | app.js:438-446 | from the initial state, after any sequence of commands, every team has a non-negative budget and at most `rosterSize` players, the cursor is within the queue, and the settings are still those `startAuction` chose (app.js:603-604), so a roster holds at most five players |
| `Engine.DraftScenario` | app.js:424-546 | team 1 bids 10 on the first player and is assigned it: its budget goes from 100 to 90, its roster holds one player and the cursor is 1; skipping the second player then makes it the only unsold player with the cursor at 2 |
| `Auction.AuctionManager.Start` | app.js:601-624 | the fields start as the initial state: teams numbered from 0, the queue a permutation of the non-leader players (that exact list without shuffling), and the invariant holds |
| `Auction.AuctionManager.PlaceBid` | app.js:424-474 | updates the fields in place to the `Engine.PlaceBid` state, reports the first failing check, and keeps the invariant |
| `Auction.AuctionManager.AssignPlayer` | app.js:500-528 | updates the fields in place to the `Engine.Assign` state, reports why it refused if it did, and keeps the invariant |
| `Auction.AuctionManager.NextPlayer` | app.js:530-546 | updates the fields in place to the `Engine.Skip` state and keeps the invariant |
| `Auction.AuctionManager.Undo` | app.js:548-577 | pops the last entry, inverts it on the fields as `Engine.Undo` does, and keeps the invariant |
| `Setup.TeamCount` | app.js:580 | at least one team; for a positive player count exactly as many teams of five as hold that many players, and for a count of zero or less exactly one team (20 players when the field is empty) |
| `Setup.CheckSetup` | app.js:580-583 | the draft starts exactly when there are player cards and the number of leaders equals the team count; no player cards gives the no-players error, and otherwise a refusal names the two differing counts |
| `Setup.NonLeaders` | app.js:596-597 | `players.filter(...)` itself; its contents are stated by `Setup.NonLeadersCounts` and its order by `Setup.NonLeadersConcat` |
| `Setup.NonLeadersCounts` | app.js:596-597 | the queue holds no leader, and each non-leader card occurs in it exactly as often as among the players |
| `Setup.NonLeadersConcat` | app.js:597 | filtering a concatenation is concatenating the filtered parts, so the queue keeps the players' order |
| `Shuffling.Shuffle` | app.js:56-63 | for any random indices within 0..i, the result is a permutation of the input; when every index is i itself, it is the input unchanged |
| `Html.EscapeHtml` | app.js:47-54 | `Utils.escapeHtml` itself; its properties are stated by `Html.EscapeHtmlIsPerChar`, `Html.EscapeHtmlNoMarkup`, `Html.EscapeHtmlEntities` and `Html.EscapeHtmlRoundTrip` |
| `Html.ReplaceAll` | app.js:49-53 | after replacing every occurrence of a character by text that does not contain it, the character no longer occurs |
| `Html.EscapeHtmlIsPerChar` | app.js:47-54 | the five passes equal one pass that replaces each character by its own escape: no later pass touches an entity an earlier pass produced |
| `Html.EscapeHtmlNoMarkup` | app.js:47-54 | the output contains none of `<`, `>`, `"` and `'` |
| `Html.EscapeHtmlEntities` | app.js:47-54 | every `&` in the output starts one of `&amp;`, `&lt;`, `&gt;`, `&quot;`, `&#039;`, because `&` is replaced first |
| `Html.EscapeHtmlRoundTrip` | app.js:47-54 | decoding the five entities in the output gives back the input exactly: escaping loses nothing |

## Left out

- Reading the team and amount from the page: they are the parameters of the commands. An empty amount field is `None`.
- Alerts: the text of an alert becomes the `Rejection` value a command returns. The checks that return without an alert (no current player, unknown team) are rejections too.
- `updateAuctionUI`, `renderTeamNames`, `buildPlayerCardsUI`, `collectPlayersFromCards` and the visibility toggles: presentation only. Team names therefore come in as a parameter of `Start`.
- `DataManager.saveState` and `loadState`: localStorage and JSON are foreign I/O.
- `exportToCSV` and `exportToJSON`: file download plumbing and timestamps.
- `SoundManager`, `TimerManager`, `TimerSettings` and `Utils.debounce`: audio, timers and floating point, with no effect on the auction state.
- `handleImageFile`: asynchronous file reading.
- The `teamOrder` shuffle and the fields `started`, `randomizeOrder`, `randomizeTeamOrder`, `nominationMode`, `round`, `reauctionMax` and `leaders`: the commands never read them. `teamOrder` only orders the display; `nominationMode` toggles the display (app.js:347-353) and is exported (app.js:941); `started` only guards the exports; `randomizeOrder` is only exported; `randomizeTeamOrder`, `round`, `reauctionMax` and `leaders` are never read.
- Re-auction rounds, the random fallback assignment and leader-aware capacity: the code does not implement them.
- Numbers are integers. `NaN` from a non-numeric field and fractional amounts are not modelled.
- `Html.EscapeHtml`: takes a string. The `String(str)` coercion of non-string arguments is not modelled.
- Team records are values in a sequence rather than shared objects. The state never holds two references to the same team, so nothing observable depends on the difference.
- `Shuffling.Shuffle`: the random source becomes an input sequence of indices. Only the permutation property is proved, not uniformity.
- `Roles.IsRoleConflict`: a player's `roles` is taken to be an array whenever present. Legacy records with a non-array `roles` value are not modelled.
