# Flappy-bird game rules in Dafny

A model of the rule layer of a Phaser "flappy bird" clone (`app.js`): the
session globals (`score`, `isGameOver`, and the difficulty knobs `pipeSpeed`,
`pipeGap`, `spawnDelay`), the pool of pipe sprites, and one pure step function
per engine callback — the 8-second difficulty ramp, the per-frame update, the
pipe spawner, the collision handler (`gameOver`), the press handlers (flap or
restart) and the scene's `create`.

Units: x, y, widths and the pipe speed are integers in tenths of a pixel
(speed 2 is `20`, its step 0.3 is `3`, the bird's x of 150 px is `1500`). The
gap stays in whole pixels (it moves in steps of 5) and the spawn delay in
milliseconds.

Modules:

- `Wrappers` (`wrappers.dfy`): `Option`.
- `Difficulty` (`difficulty.dfy`): the three knobs, the ramp, and its closed form.
- `Pipes` (`pipes.dfy`): the pipe record, the frame loop over the pool, pool requests.
- `Game` (`game.dfy`): the session record, its invariant `Valid`, and one function per callback.
- `Events` (`events.dfy`): the callbacks as events, runs of events, and the properties that span several events.

Where the code does something other than what a player, or the code's own comments, would expect, the model follows the code:

- The speed cap is tested before the add, so from 2 the speed climbs to 4.1 (`41`), not 4 (`Difficulty.RampFromInitial`, `Difficulty.RampSettles`). With doubles the ladder is 2.3, 2.5999…, …, 3.7999…, 4.0999…; every comparison with 4 comes out the same as in tenths.
- `create` resets only `isGameOver` and `score`; the difficulty globals keep their hardened values across a restart (`Game.Create` takes only the knobs; `Events.RestartKeepsDifficulty`).
- The ramp ignores `isGameOver`. After a crash it keeps hardening the knobs and even re-adds the spawn timer, whose spawns then do nothing (`Events.RampRevivesSpawnTimer`).
- A pipe scores when its x plus its full width is left of the bird's x. Since x is the pipe's centre, this is half a width after its trailing edge has passed. The model keeps the test as written (`Pipes.HasPassed`).
- The group is created without a size limit, so a pool request never comes back empty in the game as configured; the early returns of the spawner are still modelled through the group's `capacity`.

## Model

| member | source | states |
|---|---|---|
| Difficulty.Ramp | app.js:141-161 | One tick never lowers the speed and never raises the gap or delay; each knob changes exactly when it is on the hard side of its clamp test (speed < 4, gap > 120, delay > 1000); the knobs stay in their reachable ranges. |
| Difficulty.RampFromInitial | app.js:139-153 | After n ticks from (2, 160, 1500) the knobs are exactly min(20 + 3n, 41), max(160 − 5n, 120) and max(1500 − 100n, 1000). |
| Difficulty.RampNInRange | app.js:141-153 | From any in-range knobs, any number of ticks keeps speed in [20, 41], gap in [120, 160], delay in [1000, 1500]. |
| Difficulty.RampNMonotone | app.js:141-153 | Over any number of ticks the speed never decreases and the gap and delay never increase. |
| Difficulty.RampNStable | app.js:142-153 | Once all three clamp tests fail, further ticks change nothing. |
| Difficulty.RampSettles | app.js:142-144 | The ramp from the initial knobs reaches (41, 120, 1000) exactly from the 8th tick on, and the speed is never exactly the cap 40. |
| Pipes.StepSlot | app.js:194-212 | One entry of the frame loop: an absent or inactive entry is left as is and never scores; a newly scored entry was an unscored bottom pipe; being a bottom pipe is unchanged. |
| Pipes.Advance | app.js:191-213 | Over the whole pool: inactive and absent entries unchanged; every live pipe moves left by exactly the speed; it stays active exactly while x ≥ −100 px; its scored flag is set exactly if it was set or it is a bottom pipe that has passed the bird; the new points equal the growth of the number of scored bottom pipes. |
| Pipes.ScoredBottomsBounded | app.js:199-206 | The pool never holds more scored bottom pipes than bottom pipes. |
| Pipes.Acquire | app.js:233-234 | A pool request hands back the first inactive member, else a new slot when the group is not full, and nothing exactly when no member is inactive and the group is full. |
| Game.Create | app.js:52-133 | A created scene is not over, has score 0, no pipes and a bird at rest, keeps the difficulty it was given, and satisfies the session invariant exactly when those knobs are in range. |
| Game.Launch | app.js:34-40 | The first scene, built from the declared initial globals, satisfies the session invariant. |
| Game.Tick | app.js:139-162 | The ramp event applies the ramp to the knobs; the spawn timer is replaced by one with the new delay exactly when the delay changed; nothing else changes; the invariant is kept. |
| Game.Frame | app.js:188-214 | No-op when game over; otherwise the pool advances by the current speed and the score grows by exactly the number of bottom pipes that became scored, never decreasing; the score text follows; nothing else changes. |
| Game.Spawn | app.js:222-258 | No-op when game over or when the pool has nothing to give; otherwise the top pipe lands in the slot the first pool request answers and, when a second request answers, the bottom pipe in that other slot; every other slot keeps its value, so no live pipe is touched, and the pool grows only by the slots the pair was placed in; at most two pipes become live, and with an unlimited group exactly two; nothing but the pool changes. |
| Game.SpawnPlacesPair | app.js:230-257 | With the unlimited group, a spawn outside game over reuses the first inactive pipe for the top pipe (appending only when none is inactive) and the next inactive one for the bottom pipe; the two distinct live slots sit at x = width + 60, the top pipe's bottom edge at centre − gap/2 and the unscored bottom pipe's top edge at centre + gap/2; every other slot is unchanged and no other slot is added. |
| Game.GapOnScreen | app.js:225-228 | Every centre `Phaser.Math.Between(0.35 h, 0.65 h)` can return (floor(0.35 h) up to the last integer below 0.65 h + 1), with a gap in [120, 160], puts the whole gap strictly inside a screen at least 232 px tall. |
| Game.GapCanTouchTop | app.js:225-233 | The bound 232 is tight: on a 231 px screen the draw can return 80, and with the initial gap the top pipe's bottom edge is then at the top of the screen. |
| Game.GameOver | app.js:263-285 | Sets the game-over flag; on the first call also pauses physics, removes the spawn timer and shows the score of that moment as the final score; on a finished game it changes nothing. |
| Game.Flap | app.js:217-220 | Outside game over the bird's vertical velocity becomes −300 whatever it was; during game over nothing changes. |
| Game.Input | app.js:171-185 | A press flaps while playing and rebuilds the scene from the current knobs once the game is over; the invariant is kept. |
| Events.StepPreservesValid | app.js:52-285 | Every event keeps the session invariant. |
| Events.RunPreservesValid | app.js:52-285 | Every session reachable from a valid one keeps the invariant: knobs in range, score non-negative and equal to its text, final score shown exactly when over, a live spawn timer with the current delay while playing. |
| Events.StepScore | app.js:54-66 | The score falls only when a press restarts a finished game, and then to 0 with the game no longer over. |
| Events.RunScoreMonotone | app.js:199-207 | Within a session — any run, flaps included, in which no press arrives while the game is over — the score never decreases. |
| Events.RunKnobsMonotone | app.js:139-162 | Across any run of events, restarts included, the speed never falls and the gap and delay never rise. |
| Events.GameOverFreezes | app.js:188-264 | After game over, frames, spawns and collisions change nothing; a ramp tick changes only the knobs and the spawn timer. |
| Events.GameOverIsTerminal | app.js:263-266 | Through any run without a press, a finished game keeps its flag, score, pipes and final score text. |
| Events.GameOverIdempotent | app.js:263-283 | A second collision changes nothing, and the first shows the score of that moment. |
| Events.FramesScoreBound | app.js:199-206 | Over any number of frames the score gained equals the number of bottom pipes that became scored, at most the bottom pipes not yet scored: each bottom pipe scores at most once and top pipes never. |
| Events.RestartKeepsDifficulty | app.js:52-66 | A tick, a crash and a press give a fresh game (score 0, not over) whose knobs are (2.3, 155, 1400), so a restart is not the launch state. |
| Events.RampRevivesSpawnTimer | app.js:152-161 | After a crash the ramp still hardens the knobs and re-adds a spawn timer, and a spawn then does nothing. |

## Left out

- Rendering: background, texts' fonts, depth, origin, tint and visibility beyond the final score text being shown; `preload`; window resizing; the start-up log line.
- Arcade physics: gravity, the bird's motion and the overlap tests. A collision is the `Collision` event; the bird's vertical velocity is only the field a flap sets.
- The random gap centre: `Game.Spawn` takes it as the parameter `centerY`; the range `Phaser.Math.Between` draws it from (that function's floor of a scaled random number) appears only in `Game.CanDrawCentre` and `Game.GapOnScreen`.
- Timer scheduling: the ramp and spawn timers fire as explicit events, and the model does not restrict spawn events to times when a spawn timer exists (spawning is a no-op once the game is over, which is the only time the timer is missing).
- `scene.restart`: modelled as `Game.Create` on the current knobs; the rebuilt bird, ground, colliders and input bindings are not modelled.
- The pool's allocation beyond "first inactive member, else a new one unless full"; the pipe texture's width and the group's size limit are the fixed `Game.Group` a run is given.
- Floating point: tenths of a pixel replace doubles, so pipe positions that land exactly on the scoring or recycling boundary may compare differently from accumulated double rounding.
- Game.SpawnPlacesPair: states the pair's full placement only for the unlimited group the game creates; with a size limit `Game.Spawn` states the slots in terms of the two pool requests.
