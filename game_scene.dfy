/**
  The game scene's simulation state and the operations that change it: the
  per-frame update, the level-up, the reset and start of a session, spawning an
  asteroid and ending the game. Rendering, text and debug drawing are not part
  of this model; the engine's spawn timer is represented by its period and
  whether it is scheduled.
 */
module Scene {
  import opened Geometry
  import opened Arena
  import opened Progression
  import Difficulty
  import Spawn

  class GameScene {
    var score: real
    var levelProgress: real
    var levelThreshold: real
    var level: int
    var gameOver: bool
    /** Live asteroids, in the order they were spawned. */
    var asteroids: seq<Asteroid>
    /** Centre of the player's ship. */
    var playerX: real
    var playerY: real
    /** Displayed size of the ship, as its texture gives it. */
    const playerWidth: real
    const playerHeight: real
    /** The repeating spawn timer: its period in milliseconds and whether it is scheduled. */
    var spawnDelay: int
    var timerActive: bool

    function State(): LevelState
      reads this
    {
      LevelState(score, levelProgress, levelThreshold, level)
    }

    function Player(): Point
      reads this
    {
      Point(playerX, playerY)
    }

    function PlayerBounds(): Rect
      reads this
    {
      SpriteBounds(Player(), playerWidth, playerHeight)
    }

    /**
      Between calls: the level state is consistent, the ship is inside its
      region, the timer runs exactly while the game is on, at the level's cadence.
     */
    ghost predicate Valid()
      reads this
    {
      && Consistent(State())
      && InRegion(Player())
      && (timerActive <==> !gameOver)
      && spawnDelay == Difficulty.SpawnDelay(level)
    }

    /** The scene's field initialisers followed by its create step. */
    constructor (playerWidth: real, playerHeight: real)
      ensures Valid()
      ensures State() == Initial() && asteroids == [] && !gameOver
      ensures timerActive && spawnDelay == 1400
      ensures Player() == Point(400.0, 300.0)
      ensures this.playerWidth == playerWidth && this.playerHeight == playerHeight
    {
      this.playerWidth := playerWidth;
      this.playerHeight := playerHeight;
      score, levelProgress, levelThreshold, level := 0.0, 0.0, 1000.0, 1;
      gameOver := false;
      asteroids := [];
      playerX, playerY := 400.0, 300.0;
      spawnDelay, timerActive := 0, false;
      new;
      Create();
    }

    /**
      Start (or, from the game-over screen, restart) a session: reset the state,
      put the ship in the middle of the 800 by 600 view and start level 1, whose
      spawn timer fires every 1400 ms.
     */
    method Create()
      modifies this
      ensures Valid()
      ensures State() == Initial() && asteroids == [] && !gameOver
      ensures timerActive && spawnDelay == 1400
      ensures Player() == Point(400.0, 300.0)
    {
      ResetGameState();
      playerX, playerY := 400.0, 300.0;
      StartLevel();
    }

    /** Level 1, score and progress 0, threshold 1000, no asteroids, game on, timer cancelled. */
    method ResetGameState()
      modifies this
      ensures State() == Initial() && asteroids == [] && !gameOver && !timerActive
      ensures Player() == old(Player()) && spawnDelay == old(spawnDelay)
    {
      asteroids := [];
      score := 0.0;
      gameOver := false;
      level := 1;
      levelProgress := 0.0;
      levelThreshold := FirstThreshold;
      timerActive := false;
    }

    /** Schedule the repeating spawn timer at the current level's cadence. */
    method StartLevel()
      modifies this
      ensures timerActive && spawnDelay == Difficulty.SpawnDelay(level)
      ensures State() == old(State()) && asteroids == old(asteroids)
      ensures gameOver == old(gameOver) && Player() == old(Player())
    {
      spawnDelay := Difficulty.SpawnDelay(level);
      timerActive := true;
    }

    /**
      Next level: progress back to 0, threshold 1.2 times higher, every asteroid
      cleared, and the timer rescheduled at the new level's cadence.
     */
    method LevelUp()
      modifies this
      ensures State() == Promote(old(State()))
      ensures asteroids == [] && timerActive && spawnDelay == Difficulty.SpawnDelay(level)
      ensures gameOver == old(gameOver) && Player() == old(Player())
    {
      level := level + 1;
      levelProgress := 0.0;
      levelThreshold := levelThreshold * ThresholdGrowth;
      asteroids := [];
      timerActive := false;
      StartLevel();
    }

    /** End the game: the update loop freezes and the spawn timer is cancelled. */
    method HandleGameOver()
      modifies this
      ensures gameOver && !timerActive
      ensures State() == old(State()) && asteroids == old(asteroids)
      ensures Player() == old(Player()) && spawnDelay == old(spawnDelay)
    {
      gameOver := true;
      timerActive := false;
    }

    /**
      The spawn timer's callback: unless the game is over, add one asteroid whose
      entry point and velocity getRandomSpawnPosition computes from the random
      draws, with the displayed size its random scale gives it.
     */
    method SpawnAsteroid(side: int, roll: real, along: int, lateral: int, magnitude: real,
                         width: real, height: real)
      requires Valid()
      requires Spawn.ChoicesInRange(side, roll, along, lateral)
      requires !gameOver ==>
                 Spawn.IsMagnitude(magnitude, Spawn.RawLaunch(level, Player(), side, roll, along, lateral))
      modifies this
      ensures Valid()
      ensures old(gameOver) ==> unchanged(this)
      ensures !old(gameOver) ==>
                var l := Spawn.SpawnPosition(old(level), old(Player()), side, roll, along, lateral, magnitude);
                asteroids == old(asteroids) + [Asteroid(l.x, l.y, l.vx, l.vy, width, height)]
      ensures State() == old(State()) && gameOver == old(gameOver) && Player() == old(Player())
      ensures timerActive == old(timerActive) && spawnDelay == old(spawnDelay)
    {
      if gameOver {
        return;
      }
      var l := Spawn.SpawnPosition(level, Player(), side, roll, along, lateral, magnitude);
      asteroids := asteroids + [Asteroid(l.x, l.y, l.vx, l.vy, width, height)];
    }

    /**
      One frame, `delta` milliseconds after the last. Once the game is over it
      changes nothing. Otherwise: score and progress accrue and at most one
      level-up follows (clearing the asteroids); the ship moves by the held keys;
      then every asteroid, last to first, moves by its velocity, is dropped when
      out of view, and ends the game when its hit box touches the ship.
     */
    method Update(delta: real, keys: Keys)
      requires Valid()
      modifies this
      ensures Valid()
      ensures old(gameOver) ==> unchanged(this)
      ensures !old(gameOver) ==> State() == Frame(old(State()), delta)
      ensures !old(gameOver) ==> Player() == MovePlayer(old(Player()), keys)
      ensures !old(gameOver) ==>
                var field := if Crosses(old(State()), delta) then [] else old(asteroids);
                && asteroids == Survivors(field)
                && gameOver == AnyCollision(PlayerBounds(), field)
    {
      if gameOver {
        return;
      }

      score := score + delta * ScorePerMs;
      levelProgress := levelProgress + delta * ScorePerMs;
      if levelProgress >= levelThreshold {
        LevelUp();
      }

      MoveShip(keys);
      UpdateAsteroids();
    }

    /** The ship moves by the held keys: left, right, up, down, each clamped to the region. */
    method MoveShip(keys: Keys)
      modifies this
      ensures Player() == MovePlayer(old(Player()), keys)
      ensures State() == old(State()) && asteroids == old(asteroids) && gameOver == old(gameOver)
      ensures timerActive == old(timerActive) && spawnDelay == old(spawnDelay)
    {
      if keys.left {
        playerX := Max(playerX - PlayerStep, 50.0);
      }
      if keys.right {
        playerX := Min(playerX + PlayerStep, 750.0);
      }
      if keys.up {
        playerY := Max(playerY - PlayerStep, 50.0);
      }
      if keys.down {
        playerY := Min(playerY + PlayerStep, 550.0);
      }
    }

    /**
      Every asteroid, last to first: move it by its velocity, drop it when out of
      view, and end the game when its hit box touches the ship (tested even on an
      asteroid just dropped, and for every asteroid after the game has ended).
     */
    method UpdateAsteroids()
      requires !gameOver && timerActive
      modifies this
      ensures asteroids == Survivors(old(asteroids))
      ensures gameOver == AnyCollision(PlayerBounds(), old(asteroids))
      ensures timerActive == !gameOver
      ensures State() == old(State()) && Player() == old(Player()) && spawnDelay == old(spawnDelay)
    {
      ghost var field := asteroids;
      var i := |asteroids| - 1;
      while i >= 0
        invariant -1 <= i < |field|
        invariant asteroids == field[..i + 1] + Survivors(field[i + 1..])
        invariant gameOver == AnyCollision(PlayerBounds(), field[i + 1..])
        invariant timerActive == !gameOver
        invariant State() == old(State()) && Player() == old(Player()) && spawnDelay == old(spawnDelay)
      {
        SurvivorsBackwardStep(field, i, asteroids);
        var moved := Move(asteroids[i]);
        asteroids := asteroids[i := moved];
        if moved.x < -Margin || moved.x > 800.0 + Margin || moved.y < -Margin || moved.y > 600.0 + Margin {
          asteroids := asteroids[..i] + asteroids[i + 1..];
        }
        if Intersects(PlayerBounds(), HitBox(moved)) {
          HandleGameOver();
        }
        assert field[i..] == [field[i]] + field[i + 1..];
        AnyCollisionCons(PlayerBounds(), field[i], field[i + 1..]);
        i := i - 1;
      }
    }
  }
}
