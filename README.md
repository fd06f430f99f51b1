# Asteroid dodger: verified model of the game scene's simulation

This project models the simulation logic of `GameScene` in a small arcade game. A ship
dodges asteroids that spawn at the screen edges. The model leaves out all rendering.
It covers:

- **Difficulty** (`difficulty.dfy`): the spawn interval `max(1500 - 100·level, 500)` ms,
  the base speed `3 + 0.5·level` and the targeting probability `min(0.3 + 0.1·level, 0.8)`.
- **Level progression** (`progression.dfy`): score and level progress both accrue
  `0.01·delta` per frame. There is one level-up check per frame, and a level-up resets
  progress and multiplies the threshold by 1.2. These are pure functions on a
  `LevelState` value. The lemmas show that one frame levels up at most once, that the
  threshold of level L is `1000·1.2^(L-1)`, and that the score needed to reach it is
  `5·(threshold − 1000)`.
- **The play field** (`arena.dfy`): asteroids move by their velocity, are pruned
  outside `[-50, 850] × [-50, 650]`, and are tested against the ship with a hit box that
  is the asteroid's bounds shrunk to 40% about their centre. The ship's keyboard
  movement is clamped to `[50, 750] × [50, 550]`.
- **Spawn geometry** (`spawn.dfy`): the entry edge and point, the raw velocity (aimed at
  the ship, or drifting inwards with a fixed ±300 component), and normalisation to the
  level's speed.
- **Rectangles** (`geometry.dfy`): `getScaledBounds` and the engine's
  rectangle-overlap test.
- **The scene object** (`game_scene.dfy`): class `GameScene` holds the same fields as
  the source: score, level progress, threshold, level, the game-over flag, the asteroid
  list and the ship position. It also holds the spawn timer's period and whether the
  timer is scheduled. Its methods change these fields in place, as the source's
  methods do. `UpdateAsteroids` is the source's backwards index loop with
  `splice`. Each method's contract ties the new fields to the pure functions above.

Randomness is passed in as parameters with their ranges:

- the side (`0..3`);
- the targeting roll (`[0, 1)`);
- the position along the edge (`0..800` or `0..600`);
- the lateral drift (`-300..300`);
- the asteroid's displayed size.

The square root used for normalising is the parameter `magnitude`. It must be
positive, and its square must equal the squared length of the raw velocity.
Quantities are exact `real`s.

Facts about the code that shape the model:

- `src/scenes/GameScene.ts:293-295` divides by the magnitude without a zero guard, so
  the model requires a positive `magnitude`. `Spawn.RawLaunchNonZero` shows the raw
  velocity is never zero while the ship stays in its region, so the division is
  always defined.
- The asteroid list keeps spawn order: spawning appends, and the per-frame pass
  splices in place. The model's list keeps that order.
- The score grows only when `delta` is non-negative, so the monotonicity lemmas
  require `delta ≥ 0`.
- Two quirks of the per-frame loop are kept as written: the collision test still
  runs on an asteroid that was just spliced out, and the loop goes on after game over
  (a later collision ends the game again).

## Model

| member | source | states |
|---|---|---|
| `Difficulty.SpawnDelay` | src/scenes/GameScene.ts:90 | the interval is never below 500 ms; it is 1500 − 100·level up to level 10 and exactly 500 from level 10 on |
| `Difficulty.SpawnDelayNonIncreasing` | src/scenes/GameScene.ts:90 | a higher level never spawns more slowly |
| `Difficulty.SpawnDelayAtLevelOne` | src/scenes/GameScene.ts:90 | level 1 spawns every 1400 ms |
| `Difficulty.BaseSpeed` | src/scenes/GameScene.ts:242 | from level 1 on, the speed is at least 3.5 |
| `Difficulty.BaseSpeedIncreasing` | src/scenes/GameScene.ts:242 | the speed grows strictly with the level |
| `Difficulty.TargetingProbability` | src/scenes/GameScene.ts:243 | the probability never exceeds 0.8; it is 0.3 + 0.1·level up to level 5 and capped at 0.8 from level 5 on |
| `Difficulty.TargetingProbabilityNonDecreasing` | src/scenes/GameScene.ts:243 | a higher level is never less likely to aim at the ship |
| `Geometry.SpriteBounds` | src/scenes/GameScene.ts:209 | a sprite's bounds are centred on its position and have its displayed size |
| `Geometry.ScaledBounds` | src/scenes/GameScene.ts:208-218 | the scaled box has each side multiplied by the factor and keeps the original centre |
| `Geometry.ScaledBoundsWithin` | src/scenes/GameScene.ts:208-218 | for a factor in [0, 1], the scaled box lies inside the original |
| `Geometry.ScaledBoundsExample` | src/scenes/GameScene.ts:208-218 | [0,0,100,50] at 0.4 becomes [30,15,40,20] |
| `Geometry.Intersects` | src/scenes/GameScene.ts:199-202 | only two rectangles that both have positive width and height can collide, and then their closed extents overlap on both axes |
| `Geometry.IntersectsIffSharedPoint` | src/scenes/GameScene.ts:199-202 | two rectangles collide exactly when both have area and some point lies in both |
| `Geometry.IntersectsSymmetric` | src/scenes/GameScene.ts:199-202 | the overlap test does not depend on argument order |
| `Geometry.IntersectsEnclosing` | src/scenes/GameScene.ts:199-202 | overlapping a box implies overlapping any box around it |
| `Geometry.IntersectsExamples` | src/scenes/GameScene.ts:199-202 | a 40×40 box at (100,100) hits a 2×2 box at (120,120) but not one at (200,200) |
| `Arena.CollisionNeedsBoundsOverlap` | src/scenes/GameScene.ts:199-202 | a hit on the shrunk hit box implies the ship overlaps the asteroid's full bounds |
| `Arena.PruneBoundaryExamples` | src/scenes/GameScene.ts:193-197 | an asteroid at x = −51 or x = 851 is pruned; one at x = −49 is kept |
| `Arena.Move` | src/scenes/GameScene.ts:166-167 | one frame changes the position by exactly the velocity and leaves velocity and size alone |
| `Arena.HitBox` | src/scenes/GameScene.ts:171 | the hit box (computed again for the test at line 201) is centred on the asteroid, 0.4 times its size on each side, and lies inside its bounds |
| `Arena.InView` | src/scenes/GameScene.ts:193-194 | an asteroid is kept exactly when its centre lies in the closed box [−50, 850] × [−50, 650] |
| `Arena.Collides` | src/scenes/GameScene.ts:199-202 | a collision needs a ship with area and an asteroid with positive width and height |
| `Arena.AnyCollision` | src/scenes/GameScene.ts:199-204 | defined one asteroid at a time, it holds exactly when some asteroid of the list, once moved, collides |
| `Arena.Survivors` | src/scenes/GameScene.ts:162-197 | one frame never adds asteroids to the list |
| `Arena.SurvivorsAreMovedInViewInOrder` | src/scenes/GameScene.ts:162-197 | an asteroid remains iff its moved position is in [−50,850]×[−50,650]; each survivor is its original moved, and survivors keep their relative order |
| `Arena.SurvivorIsAdvancedOriginal` | src/scenes/GameScene.ts:166-167 | a survivor's position is its old position plus its velocity; velocity and size are unchanged |
| `Arena.SurvivorsBackwardStep` | src/scenes/GameScene.ts:193-197 | in the backward pass, writing the moved asteroid at index i and splicing it out when out of view extends the processed suffix by one |
| `Arena.AnyCollisionCons` | src/scenes/GameScene.ts:199-204 | the list collides iff its first asteroid collides or the rest does |
| `Arena.MovePlayer` | src/scenes/GameScene.ts:137-148 | starting inside [50,750]×[50,550], the ship stays inside and moves at most 5 on each axis; with no key on an axis it does not move on it; one key on an axis moves it exactly 5 that way unless it stops at the clamp |
| `Progression.ThresholdAt` | src/scenes/GameScene.ts:224 | the threshold of every level is at least 1000 |
| `Progression.Initial` | src/scenes/GameScene.ts:305-310 | the reset state satisfies both frame invariants: the threshold is level 1's, progress is below it, and the score covers it |
| `Progression.Accrue` | src/scenes/GameScene.ts:127-128 | score and progress both grow by exactly 0.01·delta; level and threshold stay; with delta ≥ 0 neither falls |
| `Progression.Promote` | src/scenes/GameScene.ts:221-224 | level + 1, progress 0, score unchanged, a strictly higher threshold, and a consistent state whenever the old threshold was its level's |
| `Progression.Frame` | src/scenes/GameScene.ts:127-134 | a frame adds 0.01·delta to the score, raises the level by at most one, and keeps the threshold the level's own with progress below it, so no level-up is left pending |
| `Progression.FrameLevelsUpAtMostOnce` | src/scenes/GameScene.ts:127-134 | a frame adds exactly 0.01·delta to the score. If progress reaches the threshold, however far it overshoots, the level rises by exactly one, progress is 0 and the threshold is 1.2 times the old one (strictly larger). Otherwise level and threshold stay and progress grows by 0.01·delta |
| `Progression.FrameNeverDecreases` | src/scenes/GameScene.ts:127-128 | for delta ≥ 0, score, level and threshold never fall, and progress falls only through a level-up |
| `Progression.FrameKeepsEarned` | src/scenes/GameScene.ts:127-134 | for delta ≥ 0, progress stays non-negative and the score covers every threshold passed plus the current progress |
| `Progression.ThresholdsBelowClosedForm` | src/scenes/GameScene.ts:221-224 | the thresholds of levels 1..L−1 sum to 5·(threshold(L) − 1000) |
| `Progression.ScoreBoundsLevel` | src/scenes/GameScene.ts:127-134 | a session at a level has scored at least 5·(threshold − 1000) |
| `Spawn.EntryJustOutsideEdge` | src/scenes/GameScene.ts:247-291 | the entry point lies 50 px outside the chosen edge, within the edge's extent, and on the border of the kept area |
| `Spawn.Targets` | src/scenes/GameScene.ts:243-244 | aiming happens only for rolls below 0.8, exactly for those from level 5 on, and always for rolls below 0.4 from level 1 on |
| `Spawn.RawLaunch` | src/scenes/GameScene.ts:247-291 | the entry point lies on the border of the kept area; a targeting launch's raw velocity leads from the entry point exactly to the ship; any other has a component of ±300 |
| `Spawn.DriftIsInward` | src/scenes/GameScene.ts:254-290 | a non-targeting raw velocity has a ±300 component pointing away from the edge and the other component in [−300, 300] |
| `Spawn.RawLaunchHeadsInward` | src/scenes/GameScene.ts:247-291 | with the ship in its region, every raw velocity points strictly into the screen |
| `Spawn.RawLaunchNonZero` | src/scenes/GameScene.ts:293-295 | with the ship in its region, the raw velocity is never zero, so the unguarded division is defined |
| `Spawn.Normalise` | src/scenes/GameScene.ts:293-295 | the result keeps the entry point, has length equal to the speed, and is parallel to the raw velocity with the same signs |
| `Spawn.SpawnPosition` | src/scenes/GameScene.ts:240-297 | the spawn keeps the raw entry point, is parallel to the raw velocity, and has length exactly the level's base speed |
| `Spawn.SpawnFliesInwardAtBaseSpeed` | src/scenes/GameScene.ts:240-297 | every new asteroid's speed is exactly 3 + 0.5·level, and it flies into the screen from its edge |
| `Spawn.FirstMoveKeepsAsteroid` | src/scenes/GameScene.ts:240-297 | up to level 94 (speed at most 50), a new asteroid is never pruned on its first frame |
| `Scene.GameScene.constructor` | src/scenes/GameScene.ts:9-86 | the field initialisers (lines 9-16) followed by create (lines 55-86): a new scene starts at level 1 with score 0, no asteroids, the ship at (400, 300) and the timer at 1400 ms |
| `Scene.GameScene.Create` | src/scenes/GameScene.ts:55-86 | start or restart: level 1, score and progress 0, threshold 1000, no asteroids, game on, ship centred, timer scheduled at 1400 ms |
| `Scene.GameScene.ResetGameState` | src/scenes/GameScene.ts:300-315 | level 1, score 0, progress 0, threshold 1000, empty asteroid list, game-over cleared, timer cancelled |
| `Scene.GameScene.StartLevel` | src/scenes/GameScene.ts:88-97 | the timer is scheduled at the current level's spawn delay; nothing else changes |
| `Scene.GameScene.LevelUp` | src/scenes/GameScene.ts:221-238 | level + 1, progress 0, threshold × 1.2, all asteroids cleared, timer rescheduled at the new cadence; score unchanged |
| `Scene.GameScene.HandleGameOver` | src/scenes/GameScene.ts:333-335 | the game is over and the timer is cancelled; nothing else changes |
| `Scene.GameScene.SpawnAsteroid` | src/scenes/GameScene.ts:317-331 | after game over it changes nothing; otherwise it appends exactly one asteroid at the computed spawn position and velocity |
| `Scene.GameScene.Update` | src/scenes/GameScene.ts:111-206 | after game over it changes nothing. Otherwise the level state is one `Frame`, the ship moves by `MovePlayer`, and the list becomes the survivors of the pre-loop list (emptied by a level-up). The game ends iff some moved asteroid collides |
| `Scene.GameScene.MoveShip` | src/scenes/GameScene.ts:137-148 | the ship's new position is `MovePlayer` of the old one for the held keys; nothing else changes |
| `Scene.GameScene.UpdateAsteroids` | src/scenes/GameScene.ts:162-205 | the backwards loop with splice leaves exactly the survivors, in order. The game is over iff some moved asteroid's hit box touches the ship |

## Left out

- Rendering and UI: the score and level text, the level banner and its 2000 ms
  removal, the game-over texts, the restart button, debug drawing, `setDebug`, `init`,
  `preload` and the sprite setup in `create`. These are calls into the engine.
- The engine's timer is not modelled as callbacks. It is the `spawnDelay` period and
  the `timerActive` flag. Each call of `SpawnAsteroid` stands for one firing.
- `Math.random` and `Phaser.Math.Between`: their results are parameters with range
  preconditions.
- The random sprite scale and the texture sizes: each asteroid's displayed width and
  height are parameters, and so is the ship's. Bounds are modelled as a box centred on
  the sprite's position (the engine's default origin, no rotation).
- The engine's overlap test is not part of the source files. It is modelled as the
  engine defines it: no collision when either rectangle has no area, and touching edges
  count as overlap.
- `Spawn.Normalise`: `Math.sqrt` is not computed. Its result is the parameter
  `magnitude`, assumed exact. IEEE rounding is not modelled anywhere, because all
  quantities are exact reals.
- `Scene.GameScene.SpawnAsteroid`: requires the random draws to be in range and, when
  the game is on, the magnitude to be the raw velocity's length. The source relies on
  the engine for both.
- The final score shown on game over (`Math.floor(score)`) is display only.
- The `sprite.destroy()` calls are engine clean-up. The model only removes the
  asteroid from the list.
- The host glue in `src/index.ts` and the unused interfaces in
  `src/types/GameObjects.ts` are not part of this model.
