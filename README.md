# Chaser game: a verified model of its state machine

The game in `Question/Game/game.js` works like this. A green target follows the mouse pointer over a canvas. A red chaser starts at (50, 50) and moves 2.5 units per animation frame along the unit vector toward the target. The game ends on the first frame whose distance, measured *before* that frame's move, is strictly below 35, the sum of the two sizes. Each frame that runs while the game is live adds one to `score`, the frame that ends the game included. The display shows `floor(score / 60)` as seconds. `endGame` shows `floor(score / 60)`, taken before the final frame's increment. Its `cancelAnimationFrame` call finds nothing to cancel: `endGame` is only reached from the frame callback, whose own request the browser has already consumed. The loop stops because `gameLoop` requests no further frame once the game is over. `startGame` resets the score, the game-over flag and the chaser. It then replaces the pending frame with a new one.

The project has four parts:

- `Geometry` (`geometry.dfy`) covers points, squared distances and the fixed-length step of the chaser. Math.sqrt is not computed. Its result is a value `root` with `root >= 0` and `root * root == dx * dx + dy * dy`, the relation `IsDistance` states.
- `Chase` (`chase.dfy`) models the script's variables as one `Machine` value. The browser's frame scheduler is part of the value: the set of pending request ids and the next id to hand out. There is one function per handler. `Valid` is the invariant the handlers keep: ids in use are positive and below the next id, and exactly one frame is pending while the game runs, none once it is over.
- `ChaseRuns` (`runs.dfy`) covers arbitrary sequences of pointer moves, animation frames and restarts, with lemmas proved by induction over the sequence.
- `Game` (`game.dfy`) is the script as an object. Its fields are the script's variables and the scheduler. Its methods update the fields in place, in the same order as the JavaScript. Each method is proved to produce exactly the state the matching `Chase` function computes, so everything proved about `Chase` and `ChaseRuns` holds for the object.

Four details of the code shape the model:

- **Final frame is counted.** The frame that ends the game also increments `score`.
- **Final score can differ from the display.** The final-score text uses the score from before that increment (lines 74 and 118 run before line 78), so it can be one second lower than the display of the same frame.
- **`endGame` runs before `draw`.** It is called from inside `update`, so the final render comes after it.
- **Pointer coordinates are not clamped.** They are taken as they come.

## Model

| member | source | states |
|---|---|---|
| Geometry.DistSq | Question/Game/game.js:55-57 | the squared distance dx * dx + dy * dy the script takes the root of is never negative |
| Geometry.SelfDistance | Question/Game/game.js:57-60 | when chaser and target coincide the measured distance is 0, so the division at lines 62-63 is skipped |
| Geometry.DistanceBelow | Question/Game/game.js:71-72 | comparing the distance with a non-negative bound is the same as comparing the squared distance with the bound squared |
| Geometry.Toward | Question/Game/game.js:59-68 | at distance 0 the chaser stays put; otherwise it moves exactly `step` far, parallel to the vector toward the target, and ends up `|root - step|` from the target (past it when `root < step`) |
| Chase.DisplayedSeconds | Question/Game/game.js:79 | the displayed number is floor(score / 60): s * 60 <= score < (s + 1) * 60 |
| Chase.RequestFrame | Question/Game/game.js:43 | the counter's id is added to the pending requests and stored in gameLoopId, and the counter advances; the id is fresh (not already pending) whenever every pending id is below the counter; nothing else changes |
| Chase.CancelFrame | Question/Game/game.js:41 | only the given id leaves the pending set (even if it is not in it); everything else is unchanged |
| Chase.Loaded | Question/Game/game.js:8-13 | the state at load time: target at the given point, chaser at (50, 50), score 0, not over, no frame pending, gameLoopId undefined |
| Chase.StartGame | Question/Game/game.js:28-44 | score 0, not over, chaser at (50, 50), target and final score untouched; the old pending frame is replaced by one new request, so from any state with at most the gameLoopId frame pending exactly one frame is pending afterwards |
| Chase.Initial | Question/Game/game.js:122-123 | after load and the first startGame the invariant holds with one frame pending |
| Chase.MouseMove | Question/Game/game.js:17-21 | the target becomes the pointer position exactly, with no clamping; nothing else changes and the invariant is kept |
| Chase.EndGame | Question/Game/game.js:116-120 | the gameLoopId frame leaves the pending set (a no-op when reached from a frame, see Chase.FinalFrameCancelsNothing) and the final score is floor(score / 60) of the score as it is then; nothing else changes |
| Chase.Update | Question/Game/game.js:49-80 | no-op once over; otherwise target untouched, score + 1, game over exactly when the pre-move squared distance is below 35 * 35, the chaser stays at distance 0 and otherwise moves exactly 2.5 along the direction to the target, the final score is taken before the increment and the display after it, and the invariant is kept |
| Chase.UpdateApproaches | Question/Game/game.js:55-75 | a step that does not end the game leaves the chaser exactly 2.5 closer to the target |
| Chase.GameLoop | Question/Game/game.js:104-111 | once the game is over the result is exactly update's; otherwise it is update's score, chaser, target and final score with one new frame request: a fresh id is pending, stored in gameLoopId, and the id counter advanced by one |
| Chase.AnimationFrame | Question/Game/game.js:104-111 | a frame that is not pending does nothing; otherwise the request is consumed and gameLoop runs, so under the invariant a live frame adds one to the score with update's chaser, flag and final score, a frame after game over changes nothing, and the invariant is kept |
| Chase.FinalScoreLagsDisplay | Question/Game/game.js:74-79 | at score 59 a colliding frame shows 1 second in the per-frame display and 0 seconds in the final-score text |
| Chase.BoundaryDoesNotCollide | Question/Game/game.js:71-72 | in any live state whose pre-move distance is exactly 35, update does not end the game: the comparison is strict |
| Chase.OnTargetEndsGame | Question/Game/game.js:59-75 | a chaser already on the target is not moved (distance 0 skips the division) and that frame ends the game |
| Chase.FinalFrameCancelsNothing | Question/Game/game.js:104-117 | on the frame that ends the game, the cancel in endGame, applied to the state endGame sees (request consumed, chaser moved, flag set), leaves the pending set unchanged; no new frame is requested and nothing is pending afterwards: the loop stops by not rescheduling |
| Chase.EndingStepShrinks | Question/Game/game.js:55-75 | a step from a distance d with 2.5 <= d < 35 ends the game and still leaves the chaser at distance d - 2.5, closer than before |
| Chase.OvershootGrows | Question/Game/game.js:55-75 | a step from a distance d with 0 < d < 1.25 ends the game and leaves the chaser farther from the target than before |
| ChaseRuns.Apply | Question/Game/game.js:17-44 | each event (pointer move, frame, restart) keeps the invariant |
| ChaseRuns.RunKeepsValid | Question/Game/game.js:28-120 | after any sequence of events at most one frame is pending, and none once the game is over: restarts never leave two loops scheduled |
| ChaseRuns.OverIsFrozen | Question/Game/game.js:50 | once over, and until a restart, no event changes the chaser, the score or the final score, and no frame is pending |
| ChaseRuns.ScoreCountsFrames | Question/Game/game.js:78 | without restarts the score grows by at most one per frame, and by exactly the number of frames if the game is still live at the end |
| ChaseRuns.TargetFollowsPointer | Question/Game/game.js:17-21 | over any sequence of events the target is where the last pointer move put it: nothing else writes it |
| Game.Game.constructor | Question/Game/game.js:8-13 | the variables get their load-time values and startGame runs: the object is in the state Chase.Initial gives, with one frame pending |
| Game.Game.RequestFrame | Question/Game/game.js:43 | the new state is Chase.RequestFrame of the old one |
| Game.Game.CancelFrame | Question/Game/game.js:41 | the new state is Chase.CancelFrame of the old one |
| Game.Game.MouseMove | Question/Game/game.js:17-21 | the new state is Chase.MouseMove of the old one; it keeps the invariant |
| Game.Game.StartGame | Question/Game/game.js:28-44 | the new state is Chase.StartGame of the old one; it keeps the invariant |
| Game.Game.EndGame | Question/Game/game.js:116-120 | the new state is Chase.EndGame of the old one |
| Game.Game.Update | Question/Game/game.js:49-80 | the in-place update, with the same branches in the same order, leaves exactly the state Chase.Update gives; it keeps the invariant |
| Game.Game.GameLoop | Question/Game/game.js:104-111 | the new state is Chase.GameLoop of the old one |
| Game.Game.AnimationFrame | Question/Game/game.js:104-111 | reports whether the gameLoopId frame was pending; the new state is Chase.AnimationFrame of the old one, and the invariant is kept |

## Left out

- `draw` (lines 85-99): canvas painting only; it reads the state and writes none of it.
- DOM writes: the per-frame score text is the derived `DisplayedSeconds`. The final-score text is the number `finalSeconds`. Showing and hiding the overlay (lines 32 and 119) and the text `Score: 0` (line 33) are not modelled.
- Math.sqrt: its value is the parameter `root`, which must satisfy `IsDistance`. Coordinates are reals, so IEEE double rounding is not modelled. The score is an unbounded `nat`, so the point where `score++` on a double stops changing (2^53) is not modelled.
- Animation-frame timing: a frame firing is an explicit `AnimationFrame` call. It fires only the request stored in gameLoopId, which under the invariant is the only pending one.
- The canvas: the initial target (canvas.width / 2, canvas.height / 2) is a parameter of `Loaded` and of the constructor. Pointer coordinates are given reals.
- `gameLoopId` while undefined is modelled as 0. Real request ids start at 1.
- The sizes 15 and 20 and the speed 2.5 are constants, since the script never writes them.
- Geometry.SelfDistance: only one direction is proved (same point implies distance 0). Movement is stated in terms of the measured `root`, so the converse is not needed.
- Chase.UpdateApproaches: covers only steps that do not end the game. The distance does not shrink on every live step. A step from a distance of at least 2.5 brings the chaser 2.5 closer, whether or not it ends the game (`Chase.EndingStepShrinks`). A step from a positive distance below 1.25 overshoots the target and leaves the chaser farther away than before (`Chase.OvershootGrows`). Such a step always ends the game.
