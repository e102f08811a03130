# Arcade game logic in Dafny

This project models the logic of two browser mini-games and proves properties of that model.

**2048.** The canonical engine is `game2048.js`. `app.js` holds a near-identical second copy.
- `Lines` models the line collapse (`collapseLine`), the line comparison (`arraysEqual`) and the directional slide (`slideRow`). Each is a specification function plus a method that follows the source's loops.
- `Boards` models `moveBoard`, which slides every row or column of a size×size board in place. It also covers the stuck test `canMove`, the win test `boardHasTarget`, `getEmptyCells` and the random spawn `addRandomTile`.
- `Engine2048` holds the `state` object as a class `GameState` whose methods update its fields:
  - `startNewGame`, `handleMove`, `undoMove` and `keepPlaying`;
  - the capped undo stack (`pushUndo`);
  - `updateBestScore`;
  - `saveState`/`restoreState`, modelled as record transforms.

**Guess game.** This is a Wordle-style game in `guess-game.js`, also duplicated in `app.js`.
- `WordScore` models the two-pass, duplicate-safe scorer `evaluateGuess`. It works over arrays, with the nested loop and its `break`, and is proved equal to a reference function `Evaluation`.
- `GuessGame` models the attempt state machine over `wordLength`, `secretWord`, `currentAttempt` and `gameOver`: `startGame`, `handleGuess` and `handleWordLengthChange`.

**App.** `App` models the one difference in the modelled move logic between `app.js` and the canonical engine: a 2048 move is taken only while the active view is `"game2048"`. (`app.js` also starts or restores its game at page load instead of at activation; see "## Left out".)

Conventions:
- The board is a `seq<seq<int>>` field that the methods reassign. An empty cell is `0`.
- Directions are a four-value datatype. `Heading` maps a direction token the way `moveBoard` reads it:
  - `"left"` and `"right"` slide rows;
  - every other token slides columns, and only `"down"` reverses them, so an unknown token moves like `"up"`.
- Randomness becomes a nondeterministic choice, made with `:|`: any empty cell, and a value of 2 or 4.

Three behaviours of the code that are easy to miss, and that the model keeps:
- **Invalid directions.** Only an empty (falsy) token is rejected; any other unknown token moves like `"up"` (game2048.js:379, 162, 173-174).
- **Starter tiles.** `startNewGame` calls `addRandomTile` twice, so a board of side `n` gets `min(2, n*n)` tiles: one on a 1×1 board, none on a 0×0 board.
- **Guess length.** The scorer is stated for a guess at least as long as the secret, not one of equal length. On a freshly loaded page `secretWord` is `""` and `gameOver` is false, so `handleGuess` scores a valid guess against the empty secret. That guess gets no marks and uses up an attempt.

## Model

| member | source | states |
|---|---|---|
| Lines.CollapseLine | game2048.js:120-138 | The filter/merge/pad loop returns exactly the reference collapse `Collapsed(values)` (same code at app.js:354-372) |
| Lines.MergePass | game2048.js:124-133 | The skip-index merge loop builds the greedy single-pass merge and its gain |
| Lines.CollapsedPacked | game2048.js:120-138 | The output has the input's length; its tiles are the greedy merge of the input's tiles; every empty cell comes after every tile |
| Lines.CollapsedConserves | game2048.js:121-137 | The sum of the line is conserved |
| Lines.CollapsedTileCount | game2048.js:124-133 | The tile count drops by exactly the number of merges, and at most halves |
| Lines.CollapsedGain | game2048.js:124-133 | For non-negative tiles, `gained` lies between 0 and the line's sum, and is 0 exactly when nothing merged |
| Lines.CollapsedNoCascade | game2048.js:126-131 | `[2,2,2,2]` collapses to `[4,4,0,0]` with gain 8, not to `[8,0,0,0]` |
| Lines.CollapsedSkipsGaps | game2048.js:121-131 | `[2,0,2,4]` collapses to `[4,4,0,0]` with gain 4: the gap is removed before merging |
| Lines.CollapsedMergesOnce | game2048.js:126-131 | `[4,2,2]` collapses to `[4,4,0]` with gain 4: a merged tile does not merge again |
| Lines.CollapsedStill | game2048.js:120-138 | A line the collapse leaves unchanged earns nothing |
| Lines.CollapsedLeavesGap | game2048.js:120-138 | A line the collapse changes holds an empty cell, and in particular its last cell is empty |
| Lines.CollapsedFixed | game2048.js:120-138 | A full line with no equal neighbours is left unchanged |
| Lines.ArraysEqual | game2048.js:140-146 | Returns true exactly when the two lines are equal, and false exactly when some position differs |
| Lines.DifferIff | game2048.js:140-146 | The position-by-position difference test is equivalent to inequality of the lines |
| Lines.SlideRow | game2048.js:148-154 | Returns `Slid(row, reverse)`: reverse, collapse, reverse back, compare (same code at app.js:382-388) |
| Lines.SlidMovedIff | game2048.js:150-153 | `moved` is true exactly when the slid line differs from the input row |
| Lines.SlidStill | game2048.js:148-154 | A slide that reports no movement earns nothing |
| Lines.SlidLeavesGap | game2048.js:148-154 | A slide that moves leaves an empty cell in the line |
| Lines.SlidFixed | game2048.js:148-154 | A full line with no equal neighbours does not move in either direction |
| Lines.StuckLineShape | game2048.js:148-154 | A line that slides in neither direction is empty, or full with no equal neighbours: the converse of `SlidFixed` |
| Lines.SlidKeepsPowers | game2048.js:126-131 | A slide of a line whose tiles are powers of two (2, 4, 8, …) leaves only powers of two: a merge doubles a tile |
| Boards.Heading | game2048.js:162-174 | `"left"`/`"right"` pick the row branch; every other token picks the column branch; the line is reversed exactly for `"right"` and `"down"` |
| Boards.SlideRows | game2048.js:161-171 | After the row loop, every row is its slide, `moved` is true iff some row moved, and `gained` is the sum of the slides' gains |
| Boards.SlideColumns | game2048.js:172-189 | The same for the column loop, which reads each column, slides it and writes it back cell by cell |
| Boards.ReadColumn | game2048.js:176-179 | The inner loop reads exactly column `c`, top to bottom |
| Boards.WriteColumn | game2048.js:183-187 | Writing a column changes that column and no other cell |
| Engine2048.GameState.MoveBoard | game2048.js:156-192 | The board becomes `Moved(board, size, d).board`, and `moved`/`gained` are that outcome's (same code at app.js:390-426) |
| Boards.MovedShape | game2048.js:156-192 | A move keeps the board size×size |
| Boards.MovedIffChanged | game2048.js:156-192 | A move reports `moved` exactly when the board changed |
| Boards.MovedStill | game2048.js:156-192 | A move that reports no movement leaves the board unchanged and earns nothing |
| Boards.NoMoveIsStable | game2048.js:156-192 | Repeating a move that moved nothing again moves nothing |
| Boards.MovedLeavesGap | game2048.js:156-192 | A move that moves leaves an empty cell, so the spawn after it never returns null |
| Boards.CanMove | game2048.js:203-214 | True exactly when some cell is empty or equals its right or lower neighbour (same code at app.js:437-448) |
| Boards.StuckBoardCannotMove | game2048.js:203-214 | When `canMove` is false, no direction moves anything |
| Boards.MovableExamples | game2048.js:203-214 | `[[2,4],[4,2]]` is stuck and `[[2,2],[4,8]]` is not |
| Boards.MovableBoardMoves | game2048.js:203-214 | A board with at least one tile that `canMove` accepts moves in some direction: the converse of `StuckBoardCannotMove` |
| Boards.GameOverIffNoMove | game2048.js:203-214 | On a board with a tile, `canMove` is false exactly when no direction moves anything, so `isGameOver` (game2048.js:410) means no move is left |
| Boards.MovedKeepsPowers | game2048.js:156-192 | A move keeps every tile a power of two |
| Boards.BoardHasTarget | game2048.js:194-201 | True exactly when some cell is at least the target (same code at app.js:428-435) |
| Boards.GetEmptyCells | game2048.js:100-110 | Lists exactly the empty cells, in row-major order; the list is empty iff the board is full |
| Boards.AddRandomTile | game2048.js:112-118 | A full board gives null and stays unchanged; otherwise exactly one empty cell receives a 2 or a 4 and nothing else changes (same code at app.js:346-352) |
| Boards.SpawnedTiles | game2048.js:112-118 | A spawn adds exactly one tile and keeps a board of only 2s and 4s that way |
| Boards.SpawnedKeepsPowers | game2048.js:112-118 | A spawn keeps every tile a power of two, and a board of only 2s and 4s consists of powers of two |
| Engine2048.FreshBoard | game2048.js:96-98 | `createEmptyBoard(n)` is n×n, holds no tile, and has room exactly when n > 0 |
| Engine2048.Pushed | game2048.js:226-231 | After a push the stack holds `min(old length + 1, 20)` entries |
| Engine2048.PushThenPop | game2048.js:226-231 | The pushed snapshot is on top; below it is the old stack, minus its oldest entry when it was full |
| Engine2048.PushAllKeepsNewest | game2048.js:226-231 | Any run of pushes keeps exactly the newest 20 snapshots: eviction is first in, first out |
| Engine2048.PushTwentyFive | game2048.js:226-231 | Twenty-five pushes onto an empty stack keep the last twenty and drop the five oldest |
| Engine2048.PushedFits | game2048.js:226-231 | A push keeps the stack within its cap of 20 (game2048.js:3) and every snapshot's board n×n |
| Engine2048.GameState.constructor | game2048.js:23-33 | The initial `state` object: size 4, an empty board, scores 0, flags false, no undo entries and no spawn cells |
| Engine2048.GameState.Current | game2048.js:216-224 | The snapshot holds the board, the score and the three flags; the size, best score and spawn cells are not in it. `MoveThenUndo` proves an undo gives it back |
| Engine2048.GameState.PushUndo | game2048.js:226-231 | The stack becomes `Pushed(old stack, snapshot)` (same code at app.js:460-465) |
| Engine2048.GameState.UpdateBestScore | game2048.js:238-243 | `best` becomes `max(best, score)`, so it never decreases and ends at least `score` (same code at app.js:472-477) |
| Engine2048.WinCheckMonotone | game2048.js:403-406 | A win is never taken back; `hasWon` ends true iff it was true or a cell is at least 2048; `keepPlaying` only ever changes to false |
| Engine2048.StarterBoard | game2048.js:362-372 | An empty n×n board plus two spawns holds `min(2, n)` tiles (for a side n, the same as `min(2, n*n)`), all 2s or 4s; the reported spots are distinct cells of the board that hold tiles, one per tile |
| Engine2048.StarterSpawns | game2048.js:368-371 | The first spawn finds room on any non-empty board, and the second on boards from 2×2 up |
| Engine2048.StarterSpots | game2048.js:368-371 | The two starter spawns report exactly the cells they filled, and the second never lands on the first |
| Engine2048.Present | game2048.js:371 | `[spawnA, spawnB].filter(Boolean)` keeps exactly the spots that were filled |
| Engine2048.GameState.StartNewGame | game2048.js:362-376 | Size n, score 0, flags false, empty undo stack, best kept, `min(2, n)` starter tiles of 2 or 4, and `lastSpawnCells` lists exactly the distinct cells that hold them (same code at app.js:598-614) |
| Engine2048.GameState.HandleMove | game2048.js:378-421 | Ignored with no change when the token is empty, the game is inactive, over, or won and not continued. Otherwise it is accepted exactly when the board moves: score, best, undo push, win flags, one spawn and the stuck test. A move that moves nothing changes nothing |
| Engine2048.GameState.PlayMove | game2048.js:383-410 | Past the guards: no movement reports "no tiles moved" and changes nothing; a movement settles score, best, undo stack, flags, spawn and game over |
| Engine2048.GameState.MoveWithUndo | game2048.js:383-390 | Snapshot, move, and push the snapshot exactly when tiles moved |
| Engine2048.GameState.ScoreMove | game2048.js:397-406 | A positive gain is added to the score, best is refreshed, and the first 2048 tile sets `hasWon` and clears `keepPlaying` |
| Engine2048.GameState.SpawnAndCheck | game2048.js:408-410 | Exactly one tile is spawned into the moved board and recorded, and `isGameOver` becomes `!canMove` |
| Engine2048.GameState.SettleMove | game2048.js:397-410 | After a move that moved: the positive gain is added to the score, best is refreshed, the win check runs on the moved board, exactly one tile is spawned and recorded, and `isGameOver` becomes `!canMove` |
| Engine2048.MoveOutcomeFacts | game2048.js:383-410 | After a move the board is still n×n; a move that moved leaves room for the spawn; one that did not leaves the board and score alone |
| Engine2048.GameState.UndoMove | game2048.js:423-434 | No-op on an empty stack. Otherwise it pops exactly the newest snapshot and restores board, score and the three flags from it; best and size stay (same code at app.js:660-671) |
| Engine2048.GameState.MoveThenUndo | game2048.js:423-434 | A key press and then `undo`: an accepted move is taken back whole (board, score, flags), the undo stack is as before bar an entry evicted by the push, and best never drops; a refused move leaves the undo to pop the older snapshot |
| Engine2048.GameState.KeepPlaying | game2048.js:458-462 | Sets `keepPlaying` |
| Engine2048.GameState.SaveState | game2048.js:336-346 | Writes size, board, score and the three flags, all present |
| Engine2048.Restored | game2048.js:348-360 | A restored game has an n×n board for its restored size |
| Engine2048.GameState.RestoreState | game2048.js:348-360 | Takes each stored field or its default, keeps best, and clears the undo stack and spawn cells |
| Engine2048.SaveRestoreRoundTrip | game2048.js:336-360 | Saving then restoring gives back size, board, score and flags whenever the size is positive |
| Engine2048.RestoreDefaults | game2048.js:348-360 | An object with every field missing restores to size 4, an empty board, score 0 and false flags |
| Engine2048.SaveRestoreZeroSize | game2048.js:349-353 | A game saved with size 0 comes back as an empty 4×4 board |
| WordScore.FirstFree | guess-game.js:144-150 | Finds the leftmost secret position that is unconsumed and holds the letter, or reports that none is left |
| WordScore.EvaluateGuess | guess-game.js:126-154 | The two-pass array algorithm returns exactly `Evaluation(guess, secret)` (same code at app.js:192-222) |
| WordScore.MarkExact | guess-game.js:133-138 | The first loop marks exact matches Correct and consumes their own positions |
| WordScore.ScorePosition | guess-game.js:140-151 | One round of the second loop, with its inner search and `break`, is one step of the reference scan |
| WordScore.CorrectIffExact | guess-game.js:127-138 | One mark per secret position, and a position is Correct exactly when guess and secret agree there |
| WordScore.SecretScoresAllCorrect | guess-game.js:133-138 | Guessing the secret marks every position Correct |
| WordScore.PresentHasSource | guess-game.js:140-151 | A Present mark has a copy of its letter at another secret position that was not an exact match |
| WordScore.MarksWithinLetters | guess-game.js:131-148 | For every letter, the Correct and Present marks on it never outnumber its copies in the secret |
| WordScore.MissMeansExhausted | guess-game.js:140-151 | A position stays Miss only when every copy of its letter in the secret is already accounted for by other marks |
| WordScore.ScannedBalanced | guess-game.js:131-148 | Throughout the scan each letter is consumed in the secret exactly as often as it is marked in the guess |
| WordScore.DuplicateLetterExample | guess-game.js:126-154 | `LLAMA` against `ALOFT` gives Miss, Correct, Present, Miss, Miss |
| WordScore.SpeedEraseExample | guess-game.js:126-154 | `SPEED` against `ERASE` gives Present, Miss, Present, Present, Miss |
| GuessGame.CheckSecret | guess-game.js:95-111 | The secret is accepted exactly when it is a non-empty A–Z word of the selected length; empty and non-letter secrets are told apart |
| GuessGame.Game.constructor | guess-game.js:4-7 | Length 5, empty secret, attempt 0, game not over |
| GuessGame.Game.StartGame | guess-game.js:91-124 | A rejected secret changes nothing. An accepted one sets secret and length, attempt 0, and the game running (same code at app.js:153-190) |
| GuessGame.Game.HandleGuess | guess-game.js:156-209 | Nothing happens when the game is over. A wrong-length or non-letter guess uses no attempt. A valid guess is scored: a correct one ends the game without counting, and any other counts one attempt, the sixth ending the game. The counter never passes 6 (same code at app.js:224-286) |
| GuessGame.Game.HandleWordLengthChange | guess-game.js:211-228 | Sets the new length, clears the secret, sets attempt 0, ends the game, and reports whether a game was running (same code at app.js:288-305) |
| GuessGame.UnsetSecretScoresNothing | guess-game.js:156-172 | Before any secret is set, a valid guess is scored against `""`: no marks, and it never equals the secret |
| App.Arcade.Handle2048Move | app.js:616-658 | Ignored, with nothing changed, unless the 2048 view is active; otherwise the same guards, move, scoring, undo push, win check, spawn and stuck test as `handleMove` |
| App.Arcade.ShowView | app.js:84-96 | Records the view that is now active |

## Left out

- `stacker.js` is not part of this model. Its logic is floating-point pixel geometry driven by an animation loop.
- The view switching in `main.js` is left out, along with all DOM and rendering code. That includes `renderBoard`/`updateUI`, messages, overlays, confetti, board pulses, `createBoard`, and the animation-frame clearing of `lastSpawnCells`.
- Input translation is left out: the keyboard map, swipe deltas and buttons. A move is modelled from the direction token it produces.
- Storage I/O is left out: `localStorage`, `JSON.parse`/`JSON.stringify`, the stored best score and the theme. Save and restore are pure record transforms over an optional-field record. A parse failure counts as "absent", which is the caller's business.
- `handleNewGameRequest` is left out as a handler. When the board has no tile it calls `startNewGame(state.size)` at once. Otherwise it asks `window.confirm` and, on a yes, reads the size select with `parseInt`. The confirm and the select are browser I/O; every path ends in `Engine2048.GameState.StartNewGame`.
- `handleSizeChange` is left out as a handler. It is `startNewGame(parseInt(value))`, with the parse being browser input, which the model covers as `Engine2048.GameState.StartNewGame`.
- `restartFromOverlay` is `startNewGame(state.size)`, which is `Engine2048.GameState.StartNewGame` applied to the current size.
- `bootstrap` is left out: it loads the best score and the saved game from `localStorage`, and applies the stored theme, which `applyTheme` writes back to `localStorage` (game2048.js:505-525, 89). All of it is storage and DOM I/O.
- Moves and undo are modelled only on a started or restored game (`Engine2048.GameState.Valid`). The page object as first built has an empty board with size 4, and activation starts or restores a game before any key reaches `handleMove` or `undoMove` (game2048.js:527-548). In `app.js` the same step runs at page load, inside `bootstrap2048`: when a saved game exists, `window.confirm` chooses between `Engine2048.GameState.RestoreState` and `Engine2048.GameState.StartNewGame` on the current size (app.js:726-736); the confirm itself is browser I/O.
- The 0.9/0.1 spawn probabilities are not modelled. The spawn is any empty cell with either value.
- `trim`/`toUpperCase` normalisation and `parseInt` are not modelled. Guesses, secrets and lengths arrive already normalised and parsed.
- Engine2048.GameState.StartNewGame: requires a size of at least 0, because every caller passes the size select's value or the current `state.size`. The source itself would run a negative size as a game on an empty board, with no starter tiles.
- Engine2048.GameState.RestoreState: requires a usable stored game: a non-negative size, as `saveState` writes it, and a kept board that is size×size. The source checks neither; later moves assume the board's shape.
- Row aliasing is not modelled. Boards are values. `addRandomTile` writing into `state.board`'s row arrays becomes a board value that the caller assigns, and the deep copies of `snapshotState`/`cloneBoard` are implicit.
- JavaScript truthiness is modelled only where the code relies on it:
  - an empty direction token is rejected;
  - a size of 0 and missing fields fall back to their defaults;
  - `Boolean(...)` is modelled on optional booleans, as `Truthy`.
  - A stored score of `NaN` and non-boolean flags are not modelled.
- A restored board is not checked to hold only powers of two. `Boards.MovedKeepsPowers` and `Boards.SpawnedKeepsPowers` show that play from a new game keeps that shape.
- `Boards.MovableBoardMoves` needs a tile on the board: a board without tiles passes `canMove`, yet no direction moves it. A new game of side at least 1 and every accepted move place a tile (`Boards.SpawnedTiles`), so the boards of ordinary play have one.
- The null spawn after an accepted move (`spawn ? [spawn] : []`) is not modelled as a branch. `Boards.MovedLeavesGap` proves a move that moved leaves an empty cell, so that spawn always succeeds.
- `isActive` in `game2048.js` and `activeView` in `app.js` are inputs to the move handler. The activation code that sets them is not modelled, beyond `App.Arcade.ShowView`.
