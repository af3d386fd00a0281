# Ten-Thousand scoreboard: the score-keeping engine

A model of the score-keeping core of a scoreboard for the dice game "10,000".
The application moves through three screens (`NEW`, `PLAYER_CREATION`,
`STARTED`). During player creation names are added to a roster, and the score
table gets one column per player. During play every turn writes one score into
the current round, and the turn passes to the next player. A new round opens
whenever the last player has played. Typed scores must be zero or a multiple
of 50 that is at least 350. A "miss" writes zero, and a miss after which
that player's column ends in three zeros writes −500 instead. Only the miss
button runs this test: a typed 0 that completes three zeros is not
penalised. Each player's total is a running sum over the rounds that is
clamped at zero after every round.

The model is one immutable game record (`App.Game`) with pure transition
functions:

- `Ledger`: the score table (`seq<seq<int>>`, one row per round) and cell-level helpers.
- `Validator`: the legal-score rule.
- `Totals`: the clamped left fold that gives the totals.
- `App`: phases, adding players, starting the game, and recording one turn (`UpdateScore`).
- `GamePlay`: submitting a typed score, editing a cell, the miss with its penalty, and the invariant of play.
- `Session`: the user actions each screen offers, one `Step` per action, and `Run` over a sequence of actions.

The miss is modelled as one composite transition computed from the pre-state.
Both score updates of the miss button run in the same render. They see the
same captured table and cursor. The in-place `+=` lands twice on the same cell,
through a row shared with the captured table, and the second table replaces
the first. So the active cell gains 0 or −500, the cursor moves on once, and
at most one round opens. `GamePlay.Miss` writes out this aliasing, and
`GamePlay.MissIsNotTwoUpdates` proves the result differs from two turns in a
row. In particular, the penalty does not make the turn skip the next player.

## Model

| member | source | states |
|---|---|---|
| App.AddPlayer | src/App.tsx:33-48 | An empty name changes nothing. Otherwise the name is appended last. An empty table becomes `[[0]]`; otherwise only the last round gains one trailing 0, and earlier rounds are untouched. Phase and cursor are unchanged. |
| App.AddPlayerKeepsSetupShape | src/App.tsx:33-48 | Throughout setup the table is empty exactly when the roster is; otherwise it is a single all-zero round with one cell per player. |
| App.StartGameMakesReady | src/App.tsx:50-53 | Starting with a non-empty roster enters `STARTED` with the cursor on the first player. It leaves a table ready for scoring. |
| App.UpdateScore | src/App.tsx:20-31 | Only cell (last round, cursor) changes, by the score. A new all-zero round opens exactly when the cursor is on the last player. The cursor becomes (c+1) mod n. The result is again ready for scoring. |
| App.UpdatesCountRounds | src/App.tsx:24-30 | After k turns the cursor is (c+k) mod n, and (c+k) div n rounds have been opened. |
| App.FreshStartRounds | src/App.tsx:24-30 | From a fresh start, k turns leave 1 + k div n rounds, and n turns bring the cursor back to 0. |
| Validator.ValidScoresAreTheLadder | src/GamePlay.tsx:34-36 | A score is legal iff it is 0 or one of 350, 400, 450, … (350 + 50k). |
| Validator.NegativeScoresAreInvalid | src/GamePlay.tsx:34-36 | No negative score is legal, the −500 penalty included. |
| Validator.ValidatorSamples | src/GamePlay.tsx:34-36 | 0, 350 and 400 are legal. 300, 375, −50 and −500 are not. |
| GamePlay.SubmitScore | src/GamePlay.tsx:38-45 | A blank or illegal entry leaves the game unchanged. A legal one performs exactly one score update. |
| GamePlay.SubmitKeepsPlayInv | src/GamePlay.tsx:38-45 | Submitting, accepted or not, keeps the invariant of play. |
| GamePlay.SubmitNeverRecordsPenalty | src/GamePlay.tsx:34-45 | A submission never writes the penalty. A table without penalty cells stays so, so −500 enters only through a miss. |
| GamePlay.ChangeScore | src/GamePlay.tsx:50-61 | A blank or illegal value is a no-op. Otherwise exactly cell (row, idx) takes the value. Every row keeps its length. |
| GamePlay.ChangeScoreKeepsLegalCells | src/GamePlay.tsx:52-61 | An edit can only write a legal score, so every cell stays legal or the penalty. |
| GamePlay.ChangeScoreIdempotent | src/GamePlay.tsx:59-61 | Repeating the same edit changes nothing more. |
| GamePlay.LastThreeScoresAreZero | src/GamePlay.tsx:75-79 | False with fewer than three rounds. Otherwise true iff the player's cells in the last three rounds are all 0. |
| GamePlay.Miss | src/GamePlay.tsx:65-69 | The two updates on one captured state net to a single update by 0 or −500. The cursor moves on once, and at most one round opens. |
| GamePlay.MissIsNotTwoUpdates | src/GamePlay.tsx:65-69 | With two or more players, two real turns in a row would leave the cursor elsewhere than the miss does. |
| GamePlay.MissRecordsZeroOrPenalty | src/GamePlay.tsx:65-69 | In play, the active cell ends at −500 when the column ends in three zeros, and at 0 otherwise. |
| GamePlay.MissKeepsPlayInv | src/GamePlay.tsx:65-69 | A miss keeps the invariant of play. |
| GamePlay.UpdateScoreKeepsLegalCells | src/App.tsx:21-22 | Writing a legal score or the penalty into an unplayed cell keeps every cell legal, and the cell then holds exactly that score. |
| GamePlay.UpdateScoreKeepsUnplayedZero | src/App.tsx:22-30 | After an update, every player from the new cursor on still has a zero cell in the last round. |
| GamePlay.UpdateScoreKeepsPlayInv | src/App.tsx:20-31 | An update keeps the invariant of play: the table is non-empty and rectangular, the cursor is in range, every cell is legal or the penalty, and unplayed cells are zero. |
| GamePlay.UpdateScoreTotals | src/App.tsx:24-27 | The round opened on a wrap does not change any total. |
| Totals.TotalScores | src/GamePlay.tsx:147-151 | One total per player, none negative, and an empty table gives all zeros. |
| Totals.TotalScoresByColumn | src/GamePlay.tsx:148-150 | A player's total is the clamped running total of that player's own column alone. |
| Totals.ColumnTotalOfNonNegative | src/GamePlay.tsx:149 | Without negative cells, the clamped total equals the plain sum. |
| Totals.ColumnTotalDominatesSum | src/GamePlay.tsx:149 | Clamping after every round never gives less than the plain sum, or than that sum clamped once at the end. |
| Totals.TotalScoresOfNonNegative | src/GamePlay.tsx:147-151 | If a player's cells are all non-negative, the total is the column sum. |
| Totals.AppendZeroRoundKeepsTotals | src/GamePlay.tsx:148-150 | Appending an all-zero round leaves every total unchanged. |
| Totals.PenaltySample | src/GamePlay.tsx:147-151 | `[[400,0],[-500,0],[0,400]]` gives `[0,400]`. |
| Totals.StepwiseIsNotEndFloor | src/GamePlay.tsx:149 | 400, −500, 300 totals 300. Clamping only at the end would give 200. |
| Session.Step | src/App.tsx:68-88 | Only actions the current screen shows have an effect. Each keeps the invariant and moves the phase forward by at most one step. The roster is frozen once play starts, and play starts with the cursor at 0 on one all-zero round. |
| Session.Run | src/App.tsx:14-18 | Along any sequence of actions the invariant holds, the phase never goes back, and a started game's roster never changes. |
| Session.InitialInv | src/App.tsx:14-18 | The first screen has no players, no rounds and the cursor at 0. |
| Session.ReachableStatesKeepInv | src/App.tsx:14-18 | Every state reachable from the first screen keeps the invariant. |
| Session.TripleMissScenario | src/GamePlay.tsx:65-79 | Two players, with A missing three rounds in a row. The third miss turns A's cell into −500, and B plays next. |

## Left out

- Player removal and undo are left out: the code has neither. The roster screen declares a remove callback, but the shell never passes one.
- Rendering is left out: tables, inputs, tooltips, lists, avatars, styling, animations, focus and scrolling. This includes the heading component and the emoji icon.
- Turning typed text into numbers is left out. The score field is `GamePlay.Entry`: `Blank` for an empty field, or an integer. NaN, fractions and other floating-point inputs are not modelled.
- Scores and totals are unbounded `int`s. In the code, the cells, the `+=` at src/App.tsx:22, the running sum at src/GamePlay.tsx:149 and the `%` at src/GamePlay.tsx:35 all work on JavaScript doubles, which hold integers exactly only up to 2^53 (a typed `1e20` passes the validator). The model does not cover this rounding, which no real game reaches.
- React state mechanics (batching, re-render timing) are left out. Only their net effect is kept, as described for the miss.
- The name being typed on the roster screen is a parameter of `App.AddPlayer`, not part of the state.
- `GamePlay.ChangeScore` is a pure, validated cell edit on the table and is not a `Session` action. The shell never passes the table setter to the play screen (src/App.tsx:83-88), so the setter call at src/GamePlay.tsx:62 fails. The in-place write just before it (src/GamePlay.tsx:60-61, a shallow copy sharing its rows) still reaches the shell's row, so an accepted edit does land in the game state and shows at the next render. That path is not modelled. `Session.Inv`'s clause that unplayed cells of the current round are zero holds only without it, since such an edit can write a non-zero value into an unplayed cell.
- src/GameState.tsx is not part of this model. `App.Phase` has the three values the shell uses.
- App.UpdateScore requires a table ready for scoring (at least one player, a rectangular non-empty table, the cursor in range). Outside that the code misbehaves in three ways, none of which a screen can reach. With an empty table, src/App.tsx:22 reads row `-1`, gets `undefined` and throws. With no players, src/App.tsx:30 sets the cursor to `1 % 0`, which is NaN. With ragged rows or a cursor past the end of a row, the `+=` produces a NaN cell.
- Totals.TotalScores requires a rectangular table. On ragged rows the code would produce NaN or shorter totals, which cannot arise from the transitions.
- The Start button is offered only when the roster is not empty. `Session.Enabled` carries this gate; the transition `App.StartGame` does not check it.
