/**
  Where a new asteroid enters and how it flies: an edge chosen at random, an
  entry point 50 px outside that edge, and a velocity that either aims at the
  player or drifts inwards, normalised to the level's speed. The random draws
  are parameters: `side` in 0..3, `roll` in [0, 1), `along` the position along
  the edge (0..800 for top and bottom, 0..600 for the sides) and `lateral` in
  -300..300. The square root used for normalising is the parameter `magnitude`.
 */
module Spawn {
  import opened Geometry
  import opened Arena
  import Difficulty

  /** An entry point and a velocity. */
  datatype Launch = Launch(x: real, y: real, vx: real, vy: real)

  /** The random draws lie in the ranges the engine's random source produces. */
  predicate ChoicesInRange(side: int, roll: real, along: int, lateral: int) {
    && 0 <= side <= 3
    && 0.0 <= roll < 1.0
    && 0 <= along <= (if side == 0 || side == 2 then 800 else 600)
    && -300 <= lateral <= 300
  }

  /** The coin flip: the asteroid is aimed at the player. */
  function Targets(level: int, roll: real): (r: bool)
    ensures r ==> roll < 0.8
    ensures level >= 5 ==> (r <==> roll < 0.8)
    ensures level >= 1 && roll < 0.4 ==> r
  {
    roll < Difficulty.TargetingProbability(level)
  }

  /**
    Entry point and raw (not yet normalised) velocity. Side 0 is the top edge,
    1 the right, 2 the bottom and any other value the left. The entry point lies
    on the border of the area in which asteroids are kept; a targeting launch
    heads exactly for the player, any other has a component of 300 across its edge.
   */
  function RawLaunch(level: int, player: Point, side: int, roll: real, along: int, lateral: int): (r: Launch)
    ensures r.x == -Margin || r.x == 800.0 + Margin || r.y == -Margin || r.y == 600.0 + Margin
    ensures Targets(level, roll) ==> r.x + r.vx == player.x && r.y + r.vy == player.y
    ensures !Targets(level, roll) ==> r.vx == 300.0 || r.vx == -300.0 || r.vy == 300.0 || r.vy == -300.0
  {
    var targeting := Targets(level, roll);
    var x := if side == 0 || side == 2 then along as real else if side == 1 then 850.0 else -50.0;
    var y := if side == 0 then -50.0 else if side == 2 then 650.0 else along as real;
    if targeting then Launch(x, y, player.x - x, player.y - y)
    else if side == 0 then Launch(x, y, lateral as real, 300.0)
    else if side == 1 then Launch(x, y, -300.0, lateral as real)
    else if side == 2 then Launch(x, y, lateral as real, -300.0)
    else Launch(x, y, 300.0, lateral as real)
  }

  /**
    The entry point lies 50 px outside the chosen edge, somewhere along it, and so
    exactly on the border of the area in which asteroids are kept.
   */
  lemma EntryJustOutsideEdge(level: int, player: Point, side: int, roll: real, along: int, lateral: int)
    requires ChoicesInRange(side, roll, along, lateral)
    ensures var r := RawLaunch(level, player, side, roll, along, lateral);
            && (side == 0 ==> r.y == -50.0 && 0.0 <= r.x <= 800.0)
            && (side == 1 ==> r.x == 850.0 && 0.0 <= r.y <= 600.0)
            && (side == 2 ==> r.y == 650.0 && 0.0 <= r.x <= 800.0)
            && (side == 3 ==> r.x == -50.0 && 0.0 <= r.y <= 600.0)
            && InView(Asteroid(r.x, r.y, r.vx, r.vy, 0.0, 0.0))
  {
  }

  /**
    A launch that does not target has an inward component of exactly 300 away
    from its edge and a lateral component in [-300, 300].
   */
  lemma DriftIsInward(level: int, player: Point, side: int, roll: real, along: int, lateral: int)
    requires ChoicesInRange(side, roll, along, lateral)
    requires !Targets(level, roll)
    ensures var r := RawLaunch(level, player, side, roll, along, lateral);
            && (side == 0 ==> r.vy == 300.0 && -300.0 <= r.vx <= 300.0)
            && (side == 1 ==> r.vx == -300.0 && -300.0 <= r.vy <= 300.0)
            && (side == 2 ==> r.vy == -300.0 && -300.0 <= r.vx <= 300.0)
            && (side == 3 ==> r.vx == 300.0 && -300.0 <= r.vy <= 300.0)
  {
  }

  /**
    The raw velocity points into the screen: strictly away from the entry edge,
    whether aimed at a player inside the movement region or drifting.
   */
  lemma RawLaunchHeadsInward(level: int, player: Point, side: int, roll: real, along: int, lateral: int)
    requires ChoicesInRange(side, roll, along, lateral)
    requires InRegion(player)
    ensures var r := RawLaunch(level, player, side, roll, along, lateral);
            && (side == 0 ==> r.vy > 0.0)
            && (side == 1 ==> r.vx < 0.0)
            && (side == 2 ==> r.vy < 0.0)
            && (side == 3 ==> r.vx > 0.0)
  {
  }

  /**
    So the raw velocity is never zero while the player is in its region: the
    division by its length, which the source does not guard, is always defined.
   */
  lemma RawLaunchNonZero(level: int, player: Point, side: int, roll: real, along: int, lateral: int)
    requires ChoicesInRange(side, roll, along, lateral)
    requires InRegion(player)
    ensures var r := RawLaunch(level, player, side, roll, along, lateral);
            r.vx != 0.0 || r.vy != 0.0
  {
    RawLaunchHeadsInward(level, player, side, roll, along, lateral);
  }

  /** `m` is the (positive) Euclidean length of the launch's velocity. */
  predicate IsMagnitude(m: real, raw: Launch) {
    m > 0.0 && m * m == raw.vx * raw.vx + raw.vy * raw.vy
  }

  /**
    Divide the velocity by its length `magnitude` and multiply by `speed`: the
    result has length `speed` and, for a non-negative speed, the same direction.
   */
  function Normalise(raw: Launch, magnitude: real, speed: real): (r: Launch)
    requires IsMagnitude(magnitude, raw)
    ensures r.x == raw.x && r.y == raw.y
    ensures r.vx * r.vx + r.vy * r.vy == speed * speed
    ensures r.vx * raw.vy == r.vy * raw.vx
    ensures speed >= 0.0 ==> r.vx * raw.vx >= 0.0 && r.vy * raw.vy >= 0.0
    ensures speed > 0.0 ==> (r.vx > 0.0 <==> raw.vx > 0.0) && (r.vy > 0.0 <==> raw.vy > 0.0)
    ensures speed > 0.0 ==> (r.vx < 0.0 <==> raw.vx < 0.0) && (r.vy < 0.0 <==> raw.vy < 0.0)
  {
    var f := speed / magnitude;
    var r := Launch(raw.x, raw.y, raw.vx * f, raw.vy * f);
    assert r.vx * r.vx + r.vy * r.vy == speed * speed by {
      calc {
        r.vx * r.vx + r.vy * r.vy;
        (raw.vx * raw.vx + raw.vy * raw.vy) * (f * f);
        (magnitude * magnitude) * (f * f);
        (magnitude * f) * (magnitude * f);
        speed * speed;
      }
    }
    assert speed >= 0.0 ==> f >= 0.0;
    assert speed > 0.0 ==> f > 0.0;
    SameSignScaled(raw.vx, f);
    SameSignScaled(raw.vy, f);
    r
  }

  lemma SameSignScaled(a: real, f: real)
    ensures f >= 0.0 ==> (a * f) * a >= 0.0
    ensures f > 0.0 ==> (a * f > 0.0 <==> a > 0.0) && (a * f < 0.0 <==> a < 0.0)
  {
    if f > 0.0 {
      if a > 0.0 { assert a * f > 0.0; }
      if a < 0.0 { assert a * f < 0.0; }
    }
    if f >= 0.0 {
      assert (a * f) * a == (a * a) * f;
    }
  }

  /**
    The scene's getRandomSpawnPosition: the raw launch for the draws, normalised
    to the level's base speed: same entry point, same direction, the level's speed.
   */
  function SpawnPosition(level: int, player: Point, side: int, roll: real, along: int, lateral: int,
                         magnitude: real): (r: Launch)
    requires IsMagnitude(magnitude, RawLaunch(level, player, side, roll, along, lateral))
    ensures var raw := RawLaunch(level, player, side, roll, along, lateral);
            && r.x == raw.x && r.y == raw.y
            && r.vx * raw.vy == r.vy * raw.vx
            && r.vx * r.vx + r.vy * r.vy == Difficulty.BaseSpeed(level) * Difficulty.BaseSpeed(level)
  {
    Normalise(RawLaunch(level, player, side, roll, along, lateral), magnitude, Difficulty.BaseSpeed(level))
  }

  /**
    Every new asteroid flies at the level's base speed, 3 + 0.5 * level, into the
    screen, from a point just outside the chosen edge.
   */
  lemma SpawnFliesInwardAtBaseSpeed(level: int, player: Point, side: int, roll: real, along: int,
                                    lateral: int, magnitude: real)
    requires level >= 1 && InRegion(player)
    requires ChoicesInRange(side, roll, along, lateral)
    requires IsMagnitude(magnitude, RawLaunch(level, player, side, roll, along, lateral))
    ensures var r := SpawnPosition(level, player, side, roll, along, lateral, magnitude);
            && r.vx * r.vx + r.vy * r.vy == Difficulty.BaseSpeed(level) * Difficulty.BaseSpeed(level)
            && (side == 0 ==> r.vy > 0.0 && r.y == -50.0)
            && (side == 1 ==> r.vx < 0.0 && r.x == 850.0)
            && (side == 2 ==> r.vy < 0.0 && r.y == 650.0)
            && (side == 3 ==> r.vx > 0.0 && r.x == -50.0)
  {
    RawLaunchHeadsInward(level, player, side, roll, along, lateral);
  }

  /** Each velocity component is no longer than the velocity itself. */
  lemma ComponentAtMostSpeed(a: real, b: real, speed: real)
    requires speed >= 0.0 && a * a + b * b == speed * speed
    ensures -speed <= a <= speed
  {
    assert b * b >= 0.0;
    if a > speed {
      SquareGrows(a, speed);
    } else if a < -speed {
      assert (-a) * (-a) == a * a;
      SquareGrows(-a, speed);
    }
  }

  lemma SquareGrows(u: real, s: real)
    requires u > s >= 0.0
    ensures u * u > s * s
  {
    assert u * u - s * s == (u - s) * (u + s);
    PositiveProduct(u - s, u + s);
  }

  /** A product of two positive reals is positive (a step the solver does not find alone). */
  lemma PositiveProduct(a: real, b: real)
    requires a > 0.0 && b > 0.0
    ensures a * b > 0.0
  {
  }

  /**
    While an asteroid's speed is at most the 50 px margin (levels up to 94), its
    first frame of flight never takes it out of the kept area, so no asteroid is
    pruned on the frame after it spawns.
   */
  lemma FirstMoveKeepsAsteroid(level: int, player: Point, side: int, roll: real, along: int,
                               lateral: int, magnitude: real, width: real, height: real)
    requires 1 <= level <= 94 && InRegion(player)
    requires ChoicesInRange(side, roll, along, lateral)
    requires IsMagnitude(magnitude, RawLaunch(level, player, side, roll, along, lateral))
    ensures var r := SpawnPosition(level, player, side, roll, along, lateral, magnitude);
            InView(Move(Asteroid(r.x, r.y, r.vx, r.vy, width, height)))
  {
    var r := SpawnPosition(level, player, side, roll, along, lateral, magnitude);
    SpawnSpeedWithinMargin(level, player, side, roll, along, lateral, magnitude);
    SpawnFliesInwardAtBaseSpeed(level, player, side, roll, along, lateral, magnitude);
    EntryJustOutsideEdge(level, player, side, roll, along, lateral);
    InwardStepStaysKept(Asteroid(r.x, r.y, r.vx, r.vy, width, height), side);
  }

  /** Up to level 94 neither velocity component of a new asteroid exceeds the 50 px margin. */
  lemma SpawnSpeedWithinMargin(level: int, player: Point, side: int, roll: real, along: int,
                               lateral: int, magnitude: real)
    requires 1 <= level <= 94
    requires IsMagnitude(magnitude, RawLaunch(level, player, side, roll, along, lateral))
    ensures var r := SpawnPosition(level, player, side, roll, along, lateral, magnitude);
            -Margin <= r.vx <= Margin && -Margin <= r.vy <= Margin
  {
    var r := SpawnPosition(level, player, side, roll, along, lateral, magnitude);
    ComponentsWithin(r.vx, r.vy, Difficulty.BaseSpeed(level), Margin);
  }

  /** Both components of a velocity of length `speed` are within any bound on the speed. */
  lemma ComponentsWithin(vx: real, vy: real, speed: real, bound: real)
    requires 0.0 <= speed <= bound && vx * vx + vy * vy == speed * speed
    ensures -bound <= vx <= bound && -bound <= vy <= bound
  {
    ComponentAtMostSpeed(vx, vy, speed);
    ComponentAtMostSpeed(vy, vx, speed);
  }

  /** An asteroid on the kept area's border, slower than the margin and heading inwards, stays kept. */
  lemma InwardStepStaysKept(a: Asteroid, side: int)
    requires 0 <= side <= 3
    requires -Margin <= a.vx <= Margin && -Margin <= a.vy <= Margin
    requires && (side == 0 ==> a.vy > 0.0 && a.y == -50.0 && 0.0 <= a.x <= 800.0)
             && (side == 1 ==> a.vx < 0.0 && a.x == 850.0 && 0.0 <= a.y <= 600.0)
             && (side == 2 ==> a.vy < 0.0 && a.y == 650.0 && 0.0 <= a.x <= 800.0)
             && (side == 3 ==> a.vx > 0.0 && a.x == -50.0 && 0.0 <= a.y <= 600.0)
    ensures InView(Move(a))
  {
  }
}
