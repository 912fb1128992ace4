# Flappy Bird game rules in Dafny

A model of the game-rule core of a browser Flappy-Bird clone (`script.js`).
The bird falls under gravity and flaps on the Space key or a touch. Every
90 frames a pipe pair with a random gap enters from the right. The pipes
scroll left, a collision ends the run, and every pipe passed scores a point.
Every ten points the level goes up, which narrows the gap of new pipes and
makes them faster. The best score is kept across runs.

With drawing, DOM updates and scheduling stripped out, the core is a small
deterministic state machine over an immutable `World` record:

- `GameState` (`state.dfy`) holds the data model. It has the bird, the pipes,
  the frame counter, score and level, the `gameOver` and `awaitingStart` flags
  (kept as two independent booleans, as in the source), and the best score.
  It also holds the rule constants (radius 20, gravity 0.5, lift -8, pipe
  width 60, spawn interval 90, gap `max(150 - 10*level, 90)`, speed
  `3 + level`) and the world invariant `Valid`: the level follows the score,
  and every pipe is well shaped.
- `Physics` (`physics.dfy`) is `updateBird`: gravity, the lethal floor and
  the stopping ceiling.
- `Pipes` (`pipes.dfy`) is `updatePipes`. It spawns, scrolls, tests for
  collisions, scores pass-once and prunes, with the per-pipe loop threaded
  through a `Tally` of score, level and crash flag in list order.
- `Game` (`game.dfy`) covers `initGame`, `startGame`, the `update` guard, the
  best-score part of `endGame`, and the activation handlers.
- `Session` (`session.dfy`) pairs the world with the number of frame
  callbacks queued with the browser. It states when a single frame loop runs,
  and it holds the finding below.

Modelling choices:
- The canvas size is a `Screen(width, height)` argument to each operation,
  because the canvas can be resized in the middle of a run.
- `Math.random()` is an argument `u` with `0 <= u < 1`. The gap top is
  `u * height / 2`, as in the source.
- Coordinates are exact `real`s. Counters are `nat`s.
- `localStorage` is modelled as an `Option<nat>` read once at load. The write
  is the change of `World.best`.
- `startGame` calls `update()` itself. So an activation that starts a run
  returns the world after one frame has already been played (`frame == 1`,
  one pipe spawned and moved once). The pure reset is `StartGame`.
- The two phase flags are not exclusive. `endGame` sets `awaitingStart` without
  clearing `gameOver` (script.js:192), so after a crash both are true.
- The gap shrinks from the first level-up on: at level 2 it is
  `max(150 - 20, 90) = 130` (`Pipes.LevelTwoAtTen`). Only level 1 has a gap of 140.

## Model

| member | source | states |
|---|---|---|
| `GameState.Gap` | script.js:83 | the gap of a new pipe is never below 90, is at most 140 from level 1 on, is `150 - 10*level` up to level 6 and exactly 90 from level 6 on |
| `Game.InitialBest` | script.js:22 | the best score at load is the stored value, or 0 when nothing is stored |
| `Game.InitGame` | script.js:24-42 | the reset puts the bird at rest at (width/6, height/2) and empties the pipes; frame and score become 0 and level 1; it clears `gameOver`, sets `awaitingStart`, keeps the best score, and its result satisfies the world invariant |
| `Game.StartGame` | script.js:217-221 | a start is the full reset with `awaitingStart` cleared and the best score carried over |
| `Physics.UpdateBird` | script.js:148-160 | the velocity becomes velocity + 0.5, except that a ceiling clamp zeroes it; `gameOver` is set exactly when the integrated bird passes the floor and is never cleared; afterwards `y >= radius`, and when `height >= 2*radius` also `y <= height - radius`, with a floor hit resting the bird at `height - radius`; only the bird and the flag change |
| `Pipes.NewPipe` | script.js:83-92 | a spawned pipe starts at the right edge, 60 wide and not passed, with gap `Gap(level)`, speed `3 + level` and its top in `[0, height/2)` |
| `Pipes.NewPipeWellShaped` | script.js:83-92 | from level 1 on, a new pipe's gap lies in [90, 140] and its speed is at least 4 |
| `Pipes.Spawn` | script.js:82-93 | a pipe is appended exactly on frames that are multiples of 90, and the list is otherwise unchanged |
| `Pipes.ScorePoint` | script.js:107-114 | scoring adds exactly one point; the level rises by one exactly when the new score is a multiple of ten, which keeps `level == 1 + score/10` |
| `Pipes.StepPipe` | script.js:96-116 | one pipe moves left by its speed; a hit sets the crash flag; a pipe not yet scored whose trailing edge is behind the bird scores one point and is marked passed; a scored pipe stays scored |
| `Pipes.ScrollPipes` | script.js:95-117 | every pipe moves left by exactly its own speed and otherwise keeps every field but `passed`; the crash flag ends up set exactly when it was set or some moved pipe hits the bird; the score grows by exactly the number of pipes newly passed, and score plus unscored pipes is conserved; `level == 1 + score/10` is preserved |
| `Pipes.ScoreOncePerPipe` | script.js:106-116 | one tick scores at most the number of unscored pipes, and nothing when every pipe was already scored |
| `Pipes.LevelTwoAtTen` | script.js:107-114 | scoring the tenth point at level 1 gives level 2, whose new pipes have a gap of 130 |
| `Pipes.Prune` | script.js:119 | the survivors are exactly the pipes with `x + width > 0`, and the list does not grow |
| `Pipes.PruneAppend` | script.js:119 | pruning distributes over concatenation, so the survivors keep their relative order |
| `Pipes.PruneKeepsOnScreen` | script.js:119 | a list whose pipes are all on screen is returned unchanged |
| `Pipes.UpdatePipes` | script.js:81-120 | only the pipes, score, level and `gameOver` change; with the spawned list scrolled by `ScrollPipes`, the score grows by exactly the pipes newly passed, `gameOver` is set exactly when it was set or the bird hits a scrolled pipe, and the pipes are exactly the scrolled list filtered by `Prune`; `gameOver` is never cleared; score and level never fall; at most one pipe is added, and only on a spawn frame; the world invariant is preserved |
| `Game.Tick` | script.js:175-179 | a running frame advances the frame counter by one and keeps the best score and `awaitingStart`; the bird is exactly the one bird physics produces; `gameOver` ends up set exactly when it was set, the bird hit the floor, or the moved bird hits a scrolled pipe; the score grows by the pipes newly passed; the pipes are the scrolled pipes filtered to those on screen; the world invariant is preserved |
| `Game.Update` | script.js:170-181 | a crashed world ends the game (`EndGame`: best becomes the max, frame, pipes and score frozen); a running world plays one frame (`Tick`); the best score never decreases and the world invariant is preserved |
| `Game.Improve` | script.js:186-189 | the new best score is the larger of the old best and the run's score |
| `Game.EndGame` | script.js:184-192 | the best score becomes the maximum of old best and score; it sets `awaitingStart`, leaves `gameOver` as it was and changes nothing else |
| `Game.Activate` | script.js:226-242 | input other than Space or a touch changes nothing; when waiting or after game over, activation restarts and plays one frame: frame 1, score 0, level 1, one pipe of gap 140 at `width - 4`, best score kept, and on a canvas at least 41 tall the bird at (width/6, height/2 + 0.5) with velocity 0.5, and at least 29 wide as well `gameOver` clear; otherwise only the velocity becomes -8 |
| `Game.StartFirstFrame` | script.js:217-222 | the frame played by a start from a fresh reset cannot score, and its one pipe stays on screen |
| `Game.RestartForgetsRun` | script.js:217-222 | a restart's result depends only on the best score, not on the run it replaces |
| `Game.BestIsMaximum` | script.js:186-189 | over any sequence of finished runs, the best score is at least the stored value and every run's score, and equals one of them |
| `Game.BestAcrossTwoRuns` | script.js:186-189 | with a stored best of 5, a run of 7 raises it to 7 and a later run of 3 leaves it at 7 |
| `Session.Boot` | script.js:245 | page load resets with the stored best score and nothing queued, in a single-loop state |
| `Session.RunUpdate` | script.js:170-181 | `update` queues the next frame unless it ended the game, and never lowers the best score |
| `Session.FireCallback` | script.js:180 | running a queued callback keeps the single-loop property; on a crashed world it records the score in the best score |
| `Session.Press` | script.js:226-242 | the handler as written: a restart queues one more callback through the direct `update()` call |
| `Session.PressInCrashWindow` | script.js:229-231 | as written, activation in the frame between the crash and `endGame` leaves two callbacks queued, and the next callback leaves the best score below the crashed run's score |
| `Session.PressKeepsSingleLoop` | script.js:226-242 | outside that frame the handler as written keeps at most one callback queued |
| `Session.PressGuarded` | script.js:229-233 | the corrected handler keeps the single-loop property and ignores input in the frame between a crash and the end of the game, leaving the pending crash untouched; everywhere else it behaves exactly like the handler as written |
| `Session.GuardedRecordsCrash` | script.js:170-174 | with the corrected handler, the callback after any input in the crash window ends the game, records the crashed score, and leaves nothing queued |
| `Session.Step` | script.js:170-242 | with the corrected handler, one browser event (a due callback or an input) keeps the single-loop property and the world invariant, and never lowers the best score |
| `Session.RunKeepsInvariants` | script.js:170-242 | with the corrected handler, over any sequence of events at most one frame loop runs, the world invariant holds (`level == 1 + score/10`, every pipe well shaped), and the best score never decreases |
| `Session.StepAsWritten` | script.js:170-242 | with the handler as written, one browser event keeps the world invariant and never lowers the best score |
| `Session.RunAsWrittenKeepsValid` | script.js:170-242 | with the handler as written, over any sequence of events the level follows the score, every pipe stays well shaped and the best score never decreases |
| `Session.BootedRunKeepsInvariants` | script.js:245 | with the corrected handler, every session from page load keeps those invariants, and the best score never falls below the stored value |

## Left out

- Drawing (`drawBird`, `drawPipes`, `drawClouds`, `draw`, the Game Over overlay) is left out: it is rendering only.
- Clouds (`updateClouds`) are left out: they are cosmetic, with random size and speed, and do not affect the rules.
- DOM text and class updates, the delayed reveal of the score board, `resizeCanvas` and `preventDefault` are left out: they are UI only. A resize shows up only as a different `Screen` on the next operation.
- The unconditional start-button click handler is left out: whether it can be clicked depends on CSS visibility, not on game state.
- The `localStorage` read and write are I/O. The stored value is an input, and only numeric contents are modelled. A non-numeric stored string, which would make every comparison false, is not modelled.
- Math: coordinates are exact reals, not IEEE-754 doubles, so rounding is not modelled. Every constant involved is exact.
- `Session.Run` (the event loop) uses the corrected handler `Session.PressGuarded`. The handler as written is `Session.Press`, and the finding below describes how the two differ.
- Session.Step, Session.RunKeepsInvariants and Session.BootedRunKeepsInvariants promise the single-loop property only with the corrected handler; with the handler as written it fails (`Session.PressInCrashWindow`), and `Session.RunAsWrittenKeepsValid` states what still holds.

## Findings

| source | as written | input that shows it | evidently intended | confidence | as-written member | corrected member |
|---|---|---|---|---|---|---|
| script.js:229-231 | activation restarts whenever `gameOver` is set. That includes the frame after the crashing tick, while its queued `update` callback has not yet run `endGame` | Space or a touch after a tick that sets `gameOver` (with score above the best), before the next animation frame | restart only once `endGame` has run (`awaitingStart`), so only one frame loop runs and every crashed run's score reaches the best score | not executed; high that the window exists, it lasts one frame | `Session.PressInCrashWindow` | `Session.PressGuarded`, `Session.GuardedRecordsCrash` |
