# BadmintonMaster backend core, in Dafny

This project models three pieces of the BadmintonMaster tournament backend:

- The **round-robin match generator** of a group (`MatchGenerator`):
  - It keeps a per-team stats table: streak, total and opponent set.
  - It repeatedly picks one available pair of teams that have not met and where neither has played twice in a row.
  - When no pair is available, it resets every streak.
  - At the end it Fisher–Yates shuffles the list of match shells.
- The **umpire and score handlers** of the match controller (`MatchController`). These are a transition system over one stored match record and its list of games:
  - claiming the match as umpire;
  - recording a game together with a declared result, checked against the point totals;
  - adding a game.
- The **date-stamping middleware** (`DateHandler`):
  - It turns a `toISOString` timestamp into SQLite text.
  - It writes `dateCreated`/`dateModified`/`dateDeleted` into the request body according to the HTTP method.

`Models` holds the shared records: the match record field for field, teams, groups and games, plus the `MatchStatus` codes. `PairCount` proves that there are `n * (n - 1) / 2` index pairs `i < j`. That count is what the generator's loop runs to.

Modelling choices:

- **Randomness.** `Math.random` becomes a nondeterministic choice (`:|`) of an index in range. This covers both the pair pick and the shuffle's swap partner.
- **Stats table.** It is a `map` from team id to a `TeamMatchCount` value, and the loop reassigns it.
- **`findAvailablePairs`.** It returns index pairs `(i, j)` into `teams`, where the source returns the two team objects at those indices.
- **The generation loop.** It sits in its own method, `BuildSchedule`. `GenerateMatches` calls it and then shuffles.
- **Ghost outputs of `GenerateMatches`.** The method also returns, as ghost values, the pre-shuffle order and the points where streaks were reset. The fatigue rule can only be stated about that order.
- **The match controller.** A `MatchStore` object holds one match record and its games. Each handler is a method that returns the HTTP status code.
- **Middleware input.** The middleware takes the `toISOString` text of "now" as an input.

The model follows the code, which behaves as follows:

- Generated match shells leave `result` unset. They are not created as `PENDING`.
- `assignUmpire` sets `IN_PROGRESS` whenever no umpire is set yet, whatever the current result.
- Score entry is the single `updateMatchScore` check of a declared result against summed points. There is no point-by-point score engine.
- The shuffle is always applied.
- The "at most two in a row" rule holds only between streak resets. A reset happens only when the round finds no available pair.

## Model

| member | source | states |
|---|---|---|
| PairCount.AllPairsSize | backend/src/services/match-generator.service.ts:46-48 | there are exactly `n*(n-1)/2` index pairs `i < j` among `n` teams, the number of matches the loop must emit |
| MatchGenerator.NewMatch | backend/src/services/match-generator.service.ts:66-71 | a generated shell carries the group's format and group id and the two teams' ids, and sets no other optional field |
| MatchGenerator.InitTeamStats | backend/src/services/match-generator.service.ts:36-44 | every team id maps to a zeroed record with its own id and an empty opponent set, and no other key is present |
| MatchGenerator.InitialInv | backend/src/services/match-generator.service.ts:36-48 | the freshly initialised table satisfies the loop invariant with nothing emitted |
| MatchGenerator.CanTeamsPlay | backend/src/services/match-generator.service.ts:112-124 | two teams can play exactly when the second is not among the first's opponents and neither has a streak of 2 or more |
| MatchGenerator.FindAvailablePairs | backend/src/services/match-generator.service.ts:93-110 | the result holds exactly the pairs `i < j` whose stats pass `canTeamsPlay`, each in range, in increasing index order |
| MatchGenerator.AvailableIffFresh | backend/src/services/match-generator.service.ts:112-124 | during generation `canTeamsPlay` holds for `i < j` exactly when the pair has not been played and neither team's run since the last reset is 2 or more |
| MatchGenerator.PlayableIsUnplayed | backend/src/services/match-generator.service.ts:112-116 | a pair that passes `canTeamsPlay` has not been played in either order, and neither team is in the other's opponent set |
| MatchGenerator.UpdateTeamStats | backend/src/services/match-generator.service.ts:126-141 | for two ids, each record gains the other as opponent and one match on both counters; with one id, that record gains two of each; every other record is unchanged; the keys are the same |
| MatchGenerator.ResetOthers | backend/src/services/match-generator.service.ts:78-86 | the streak of every team in the list other than the two players is set to 0; all other records and every other field stay as they were |
| MatchGenerator.ResetConsecutive | backend/src/services/match-generator.service.ts:52-58 | every record's streak is 0 and nothing else changes |
| MatchGenerator.EmitEffectOfUpdates | backend/src/services/match-generator.service.ts:75-86 | together, the two updates after a match give both players `Played` records and reset everyone else's streak |
| MatchGenerator.EmitKeepsOpponents | backend/src/services/match-generator.service.ts:131-132 | after a match, each team's opponent set still holds exactly the teams it has been paired with |
| MatchGenerator.EmitKeepsCounters | backend/src/services/match-generator.service.ts:135-140 | after a match, every team's `totalMatches` equals the size of its opponent set and its number of matches so far, and `consecutiveMatches` equals its current run since the last reset |
| MatchGenerator.EmitKeepsNoRepeat | backend/src/services/match-generator.service.ts:61-73 | appending the picked pair's match never repeats an unordered pairing already in the list |
| MatchGenerator.AppendKeepsNoThree | backend/src/services/match-generator.service.ts:79-86 | appending a match of two teams whose runs are below 2 keeps "no team in three consecutive matches without a reset in between" |
| MatchGenerator.EmitInv | backend/src/services/match-generator.service.ts:61-86 | one round that emits a match preserves the whole loop invariant: no repeated pairing, the counters agree with the emitted list and opponent sets, and the fatigue rule |
| MatchGenerator.ResetInv | backend/src/services/match-generator.service.ts:52-58 | a reset in a round where no pair can play preserves the loop invariant, records the reset point, and leaves every streak at 0 |
| MatchGenerator.ResetStep | backend/src/services/match-generator.service.ts:50-58 | a round with no available pair resets every streak, keeps the loop invariant, and the recorded reset is forced; before it some streak was not 0 |
| MatchGenerator.EmitStep | backend/src/services/match-generator.service.ts:61-86 | a round that emits the picked pair's match keeps the loop invariant and keeps every recorded reset forced |
| MatchGenerator.EmptyRoundBlocked | backend/src/services/match-generator.service.ts:50-58 | when no pair can play, at least two matches follow the last reset, no reset was recorded between the last two, and every pair still without its match has a team that played both of them |
| MatchGenerator.EmptyRoundSpan | backend/src/services/match-generator.service.ts:50-58 | when no pair can play, at least two matches follow the last reset |
| MatchGenerator.EmptyRoundTired | backend/src/services/match-generator.service.ts:112-124 | when no pair can play, every pair without its match has a team that played the last two matches |
| MatchGenerator.BlockedPair | backend/src/services/match-generator.service.ts:112-124 | an unplayed pair that fails `canTeamsPlay` has a team in both of the last two matches, with both after the last reset |
| MatchGenerator.ResetsForcedAdd | backend/src/services/match-generator.service.ts:50-58 | a reset recorded at the end of the list, in a round where every pair without its match has a tired team, is forced, and the earlier resets stay forced |
| MatchGenerator.ResetsForcedAppend | backend/src/services/match-generator.service.ts:61-73 | appending a match keeps every recorded reset forced |
| MatchGenerator.UnforcedResetRejected | backend/src/services/match-generator.service.ts:50-58 | for teams 1 to 4, the order 1-2, 1-3, 1-4 with a reset after the second match has no team three in a row between resets, but the reset is not forced (2 and 3 could still play), so the forced-reset condition excludes it |
| MatchGenerator.UnplayedPair | backend/src/services/match-generator.service.ts:48-50 | while fewer than `n*(n-1)/2` matches exist, some pair `i < j` has not been played |
| MatchGenerator.ResetUnblocks | backend/src/services/match-generator.service.ts:52-58 | once every streak is 0, any unplayed pair is available, so an empty round is followed by a match (the loop's termination measure) |
| MatchGenerator.CompleteSchedule | backend/src/services/match-generator.service.ts:48-50 | when the count is reached, every pair `i < j` has its match shell and every shell belongs to such a pair |
| MatchGenerator.ShellPairing | backend/src/services/match-generator.service.ts:66-71 | with distinct ids, two shells made for pairs `i < j` name the same two teams only if they are for the same pair |
| MatchGenerator.BuildSchedule | backend/src/services/match-generator.service.ts:46-87 | the loop terminates with exactly `n*(n-1)/2` shells, one per pair `i < j` and only those, no pairing repeated, and no team in three consecutive matches without a reset between them; every reset was forced: it was not right after another, and each pair still to play had a team that played both previous matches |
| MatchGenerator.ShuffleArray | backend/src/services/match-generator.service.ts:143-150 | the result has the input's length and is a permutation of it (same multiset); the input is a value and is not changed |
| MatchGenerator.PermutationKeepsPairings | backend/src/services/match-generator.service.ts:89-90 | shuffling keeps the set of shells and keeps "no pairing repeated" |
| MatchGenerator.GenerateMatches | backend/src/services/match-generator.service.ts:31-91 | returns `n*(n-1)/2` shells, empty when `n < 2`; each pair `i < j` appears and nothing else; each shell sets only format, group and the two team ids; no pairing is repeated; the result is a permutation of a generation order that obeys the fatigue rule between resets, where every reset was forced by a round with no available pair |
| MatchController.FoldTotals | backend/src/controllers/match.controller.ts:191-195 | the `reduce` from any accumulator adds each team's sum of scores, with missing scores as 0, to that accumulator |
| MatchController.Totals | backend/src/controllers/match.controller.ts:190-195 | the totals are the two reference sums over all games |
| MatchController.Contradicts | backend/src/controllers/match.controller.ts:198-199 | a result passes the check exactly when TEAM1_WINS comes with strictly more team 1 points and TEAM2_WINS with strictly more team 2 points; every other result passes |
| MatchController.WinnerFor | backend/src/controllers/match.controller.ts:204-207 | `team1Id` for TEAM1_WINS, `team2Id` for TEAM2_WINS, unset for any other result |
| MatchController.AcceptedResultAgrees | backend/src/controllers/match.controller.ts:197-214 | a result that passes the check, stored with its winner, names the winner it declares, and a declared win means strictly more points over all games |
| MatchController.MatchStore.AssignUmpire | backend/src/controllers/match.controller.ts:53-79 | a missing or empty id gives 400 with nothing changed; an already claimed match gives 200/false unchanged; otherwise exactly `umpireId` and `result := IN_PROGRESS` change and it returns 200/true; a set umpire is never replaced; games are untouched |
| MatchController.MatchStore.UpdateMatchScore | backend/src/controllers/match.controller.ts:152-214 | checks in order: an absent score or falsy result (including PENDING = 0) gives 400, a caller other than the umpire 403, a match not in progress 400, none appending a game; otherwise the game is appended; a result contradicting the totals gives 400 with the record unchanged; else 200 with exactly `result` and `winnerId` set; the umpire never changes |
| MatchController.MatchStore.AddGame | backend/src/controllers/match.controller.ts:230-264 | the same guards in the same order (400 / 403 / 400, nothing appended); otherwise exactly one game with the given scores is appended and it returns 201; the match record never changes |
| DateHandler.ReplaceFirst | backend/src/middleware/dateHandler.middleware.ts:4 | `String.replace` with a one-character pattern: no occurrence leaves the text unchanged, otherwise the length changes by one character for the replacement |
| DateHandler.ReplaceFirstAt | backend/src/middleware/dateHandler.middleware.ts:4 | only the first occurrence is replaced, and everything before and after it is kept |
| DateHandler.IsoShape | backend/src/middleware/dateHandler.middleware.ts:4 | in a `toISOString` text the only `T` is at index 10, and after replacing it the only `Z` is the last character |
| DateHandler.FormatDateToSQLite | backend/src/middleware/dateHandler.middleware.ts:3-5 | for `YYYY-MM-DDTHH:mm:ss.sssZ` the result is `YYYY-MM-DD HH:mm:ss.sss`, 23 characters |
| DateHandler.Request.HandleDates | backend/src/middleware/dateHandler.middleware.ts:7-19 | POST sets `dateCreated` and `dateModified` to the formatted time and `dateDeleted` to null; PUT and PATCH set only `dateModified`; DELETE sets only `dateDeleted`; any other method leaves the body as is; every written field gets the same timestamp |

## Left out

- `generateAndSaveGroupMatches` is not modelled. It is persistence: a `Promise.all` over database inserts.
- Database access is not modelled. A `MatchStore` holds the match record and its games in place of the database. `backend/src/services/match.service.ts` defines only `addMatch`, `getMatchById`, `getMatchesByGroupId`, `getMatchesByFormatId` and `getChildMatches`. The `updateMatch`, `addGame` and `getGamesByMatchId` the controller calls are not defined there and are not part of this model. The model assumes the following:
  - `getMatchById` returns the stored record.
  - `updateMatch` stores the spread record exactly as given.
  - `addGame` appends the game to the match's games.
  - `getGamesByMatchId` returns every stored game of the match, including the one just added.
- Each handler runs as one atomic step on the store, so concurrent requests are not modelled. In the code, every `await` lets another request run in between. Two concurrent `assignUmpire` calls can both read a match without an umpire (`getMatchById`, match.controller.ts:64). Both then return true, and the later `updateMatch` (:73) replaces the first umpire. `updateMatchScore` likewise writes back the record it read at :164 in its `updateMatch` at :210, possibly undoing a change made in between. So "a set umpire is never replaced" holds only for requests that do not overlap.
- Scores and `result` arrive as JSON values. They can be non-integer numbers or values of other types, but the model takes them as integers (or absent/null). Fractional scores, string scores that `+=` would concatenate, and the `NaN` those can produce in the totals are not modelled.
- Errors thrown by the service and their 404/500 mapping are not modelled. A database step that fails partway through a handler is not modelled either.
- The JSON bodies of the responses are not modelled, only the status codes and the `true`/`false` of `assignUmpire`.
- The authenticated `req.user.userId` becomes the `caller` parameter. Token checking is outside the model.
- `getMatchFormat` and `getMatchDetails` are left out: they only read other services.
- Game and match scoring rules (target score, best-of) are left out. No handler decides games. The only check is the declared result against summed points.
- Team fields other than `teamId` are left out, since nothing in the generator reads them.
- Request body values are limited to null, booleans, integers and strings. The middleware only writes strings and null.
- `new Date()` is not modelled. The clock is the `isoNow` input.
- `MatchGenerator.GenerateMatches`: requires distinct team ids. They are database keys. With a repeated id (ids `[1, 1, 2]`) the two teams share one stats record, and the source's loop never ends.
- `MatchGenerator.ShuffleArray`: no claim is made about the distribution of `Math.random`.
- `MatchGenerator.BuildSchedule`: each team's final number of matches (`n - 1`) is not stated. It follows from completeness and no repetition, but that counting argument is not carried out.
- `DateHandler.FormatDateToSQLite`: the exact result is stated only for the standard 24-character `toISOString` form (years 0 to 9999). For other text only the first-occurrence replacement laws of `ReplaceFirst` apply. The extended `±YYYYYY` years are not characterised.
