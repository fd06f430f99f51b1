/**
  The play field: asteroids and what one frame does to each of them (move,
  prune when off screen, test against the player), and the player's clamped
  keyboard movement.
 */
module Arena {
  import opened Geometry

  /** An asteroid is pruned once its centre leaves the 800 by 600 view by more than this. */
  const Margin: real := 50.0
  /** The asteroid's collidable box is its bounding box shrunk to this fraction. */
  const HitScale: real := 0.4
  /** Pixels the player moves per held key per frame. */
  const PlayerStep: real := 5.0

  /**
    A live asteroid: centre position, velocity in pixels per frame, and the
    displayed size that its random scale gives its bounding box.
   */
  datatype Asteroid = Asteroid(x: real, y: real, vx: real, vy: real, width: real, height: real)

  /** One frame of flight: the velocity is added to the position. */
  function Move(a: Asteroid): (r: Asteroid)
    ensures r.x - a.x == a.vx && r.y - a.y == a.vy
    ensures r.vx == a.vx && r.vy == a.vy && r.width == a.width && r.height == a.height
  {
    a.(x := a.x + a.vx, y := a.y + a.vy)
  }

  function Bounds(a: Asteroid): Rect {
    SpriteBounds(Point(a.x, a.y), a.width, a.height)
  }

  /** The collidable part of an asteroid: its bounds scaled by 0.4 about the centre. */
  function HitBox(a: Asteroid): (r: Rect)
    ensures r.CentreX() == a.x && r.CentreY() == a.y
    ensures r.width == HitScale * a.width && r.height == HitScale * a.height
    ensures a.width >= 0.0 && a.height >= 0.0 ==> Within(r, Bounds(a))
  {
    if a.width >= 0.0 && a.height >= 0.0 then
      ScaledBoundsWithin(Bounds(a), HitScale);
      ScaledBounds(Bounds(a), HitScale)
    else
      ScaledBounds(Bounds(a), HitScale)
  }

  /** The area in which asteroids are kept: the view widened by the margin on every side. */
  function KeptArea(): Rect {
    Rect(-Margin, -Margin, 800.0 + 2.0 * Margin, 600.0 + 2.0 * Margin)
  }

  /** Not pruned: the centre lies in [-50, 850] x [-50, 650], edges included. */
  function InView(a: Asteroid): (r: bool)
    ensures r <==> KeptArea().Covers(Point(a.x, a.y))
  {
    !(a.x < -Margin || a.x > 800.0 + Margin || a.y < -Margin || a.y > 600.0 + Margin)
  }

  /**
    The player's bounding box touches the asteroid's hit box; an asteroid
    without area never collides.
   */
  function Collides(player: Rect, a: Asteroid): (r: bool)
    ensures r ==> player.HasArea() && a.width > 0.0 && a.height > 0.0
  {
    Intersects(player, HitBox(a))
  }

  /** A collision only happens where the full bounding boxes overlap too. */
  lemma CollisionNeedsBoundsOverlap(player: Rect, a: Asteroid)
    requires Collides(player, a)
    ensures Intersects(player, Bounds(a))
  {
    IntersectsEnclosing(player, HitBox(a), Bounds(a));
  }

  lemma PruneBoundaryExamples(y: real)
    requires -50.0 <= y <= 650.0
    ensures !InView(Asteroid(-51.0, y, 0.0, 0.0, 0.0, 0.0))
    ensures !InView(Asteroid(851.0, y, 0.0, 0.0, 0.0, 0.0))
    ensures InView(Asteroid(-49.0, y, 0.0, 0.0, 0.0, 0.0))
  {
  }

  /** The asteroid list after one frame: every asteroid moved, those off screen dropped. */
  function Survivors(s: seq<Asteroid>): (r: seq<Asteroid>)
    ensures |r| <= |s|
  {
    if s == [] then []
    else (if InView(Move(s[0])) then [Move(s[0])] else []) + Survivors(s[1..])
  }

  /** Whether any asteroid of `s`, once moved, collides with the player's box. */
  function AnyCollision(player: Rect, s: seq<Asteroid>): (r: bool)
    ensures r <==> exists j :: 0 <= j < |s| && Collides(player, Move(s[j]))
  {
    if s == [] then false
    else
      assert forall j :: 0 < j < |s| ==> s[1..][j - 1] == s[j];
      Collides(player, Move(s[0])) || AnyCollision(player, s[1..])
  }

  /** Where each survivor of `s` came from, given as strictly increasing indices into `s`. */
  predicate Origins(s: seq<Asteroid>, idx: seq<nat>) {
    && |idx| == |Survivors(s)|
    && (forall k :: 0 <= k < |idx| ==> idx[k] < |s| && Survivors(s)[k] == Move(s[idx[k]]))
    && (forall k, l :: 0 <= k < l < |idx| ==> idx[k] < idx[l])
    && (forall j :: 0 <= j < |s| ==> (j in idx <==> InView(Move(s[j]))))
  }

  /**
    Survivors keeps exactly the asteroids whose moved position is in view, in
    their original order: there are indices, strictly increasing, that name
    where each survivor came from, and they are exactly the in-view ones.
   */
  lemma {:induction false} SurvivorsAreMovedInViewInOrder(s: seq<Asteroid>) returns (idx: seq<nat>)
    ensures Origins(s, idx)
  {
    if s == [] {
      idx := [];
    } else {
      var rest := SurvivorsAreMovedInViewInOrder(s[1..]);
      var shifted := OriginsOfTail(s, rest);
      if InView(Move(s[0])) {
        idx := [0] + shifted;
        OriginsWithHead(s, shifted);
      } else {
        idx := shifted;
        assert Survivors(s) == Survivors(s[1..]);
      }
    }
  }

  /** When the first asteroid survives, its index 0 goes in front of the tail's origins. */
  lemma OriginsWithHead(s: seq<Asteroid>, shifted: seq<nat>)
    requires s != [] && InView(Move(s[0]))
    requires |shifted| == |Survivors(s[1..])|
    requires forall k :: 0 <= k < |shifted| ==>
               1 <= shifted[k] < |s| && Survivors(s[1..])[k] == Move(s[shifted[k]])
    requires forall k, l :: 0 <= k < l < |shifted| ==> shifted[k] < shifted[l]
    requires forall j :: 1 <= j < |s| ==> (j in shifted <==> InView(Move(s[j])))
    ensures Origins(s, [0] + shifted)
  {
    var idx := [0] + shifted;
    assert Survivors(s) == [Move(s[0])] + Survivors(s[1..]);
    HeadValuesInOrder(s, shifted);
    forall j | 0 <= j < |s|
      ensures j in idx <==> InView(Move(s[j]))
    {
      if j > 0 { assert j in idx <==> j in shifted; }
    }
  }

  lemma HeadValuesInOrder(s: seq<Asteroid>, shifted: seq<nat>)
    requires s != [] && InView(Move(s[0]))
    requires Survivors(s) == [Move(s[0])] + Survivors(s[1..])
    requires |shifted| == |Survivors(s[1..])|
    requires forall k :: 0 <= k < |shifted| ==>
               1 <= shifted[k] < |s| && Survivors(s[1..])[k] == Move(s[shifted[k]])
    requires forall k, l :: 0 <= k < l < |shifted| ==> shifted[k] < shifted[l]
    ensures forall k :: 0 <= k < |shifted| + 1 ==>
              ([0] + shifted)[k] < |s| && Survivors(s)[k] == Move(s[([0] + shifted)[k]])
    ensures forall k, l :: 0 <= k < l < |shifted| + 1 ==> ([0] + shifted)[k] < ([0] + shifted)[l]
  {
    var idx := [0] + shifted;
    forall k | 0 <= k < |idx|
      ensures idx[k] < |s| && Survivors(s)[k] == Move(s[idx[k]])
    {
      if k > 0 { assert idx[k] == shifted[k - 1]; }
    }
    forall k, l | 0 <= k < l < |idx|
      ensures idx[k] < idx[l]
    {
      if k > 0 { assert idx[k] == shifted[k - 1]; }
      assert idx[l] == shifted[l - 1];
    }
  }

  /** The origins of the survivors of `s[1..]`, re-indexed into `s`. */
  lemma OriginsOfTail(s: seq<Asteroid>, rest: seq<nat>) returns (shifted: seq<nat>)
    requires s != [] && Origins(s[1..], rest)
    ensures |shifted| == |Survivors(s[1..])|
    ensures forall k :: 0 <= k < |shifted| ==>
              1 <= shifted[k] < |s| && Survivors(s[1..])[k] == Move(s[shifted[k]])
    ensures forall k, l :: 0 <= k < l < |shifted| ==> shifted[k] < shifted[l]
    ensures forall j :: 1 <= j < |s| ==> (j in shifted <==> InView(Move(s[j])))
    ensures 0 !in shifted
  {
    shifted := seq(|rest|, k requires 0 <= k < |rest| => rest[k] + 1);
    ShiftedMembership(s, rest, shifted);
    forall k | 0 <= k < |shifted|
      ensures 1 <= shifted[k] < |s| && Survivors(s[1..])[k] == Move(s[shifted[k]])
    {
      assert s[1..][rest[k]] == s[shifted[k]];
    }
  }

  lemma ShiftedMembership(s: seq<Asteroid>, rest: seq<nat>, shifted: seq<nat>)
    requires s != []
    requires forall j :: 0 <= j < |s| - 1 ==> (j in rest <==> InView(Move(s[1..][j])))
    requires |shifted| == |rest| && forall k :: 0 <= k < |rest| ==> shifted[k] == rest[k] + 1
    ensures forall j :: 1 <= j < |s| ==> (j in shifted <==> InView(Move(s[j])))
  {
    forall j | 1 <= j < |s|
      ensures j in shifted <==> InView(Move(s[j]))
    {
      assert s[1..][j - 1] == s[j];
      if j - 1 in rest {
        var k :| 0 <= k < |rest| && rest[k] == j - 1;
        assert shifted[k] == j;
      }
    }
  }

  /** Collisions in a list that starts with `a`, spelled out one step. */
  lemma AnyCollisionCons(player: Rect, a: Asteroid, s: seq<Asteroid>)
    ensures AnyCollision(player, [a] + s) == (Collides(player, Move(a)) || AnyCollision(player, s))
  {
    assert ([a] + s)[1..] == s;
  }

  /**
    A survivor is its original advanced by exactly its velocity; velocity and
    size are unchanged.
   */
  lemma SurvivorIsAdvancedOriginal(s: seq<Asteroid>, idx: seq<nat>, k: int)
    requires Origins(s, idx) && 0 <= k < |idx|
    ensures var a, b := s[idx[k]], Survivors(s)[k];
            b.x == a.x + a.vx && b.y == a.y + a.vy &&
            b.vx == a.vx && b.vy == a.vy && b.width == a.width && b.height == a.height
  {
  }

  /** Survivors of a list that starts with `a`, spelled out one step. */
  lemma SurvivorsCons(a: Asteroid, s: seq<Asteroid>)
    ensures Survivors([a] + s) == (if InView(Move(a)) then [Move(a)] else []) + Survivors(s)
  {
    assert ([a] + s)[1..] == s;
  }

  /**
    One step of a last-to-first pass: when the list is the untouched prefix up
    to `i` followed by the survivors after `i`, writing the moved asteroid at `i`
    and splicing it out when out of view leaves the untouched prefix before `i`
    followed by the survivors from `i` on.
   */
  lemma SurvivorsBackwardStep(field: seq<Asteroid>, i: int, cur: seq<Asteroid>)
    requires 0 <= i < |field| && cur == field[..i + 1] + Survivors(field[i + 1..])
    ensures cur[i] == field[i]
    ensures var moved := Move(field[i]);
            var written := cur[i := moved];
            && (InView(moved) ==> written == field[..i] + Survivors(field[i..]))
            && (!InView(moved) ==> written[..i] + written[i + 1..] == field[..i] + Survivors(field[i..]))
  {
    var rest := Survivors(field[i + 1..]);
    var moved := Move(field[i]);
    var written := cur[i := moved];
    assert cur[..i] == field[..i] && cur[i] == field[i] && cur[i + 1..] == rest;
    assert written == field[..i] + [moved] + rest;
    assert field[i..] == [field[i]] + field[i + 1..];
    SurvivorsCons(field[i], field[i + 1..]);
    if InView(moved) {
      assert Survivors(field[i..]) == [moved] + rest;
    } else {
      assert written[..i] == field[..i] && written[i + 1..] == rest;
    }
  }

  /** Player keys held this frame. */
  datatype Keys = Keys(left: bool, right: bool, up: bool, down: bool)

  /** The region the player's centre is clamped to. */
  predicate InRegion(p: Point) {
    50.0 <= p.x <= 750.0 && 50.0 <= p.y <= 550.0
  }

  function Max(a: real, b: real): real { if a < b then b else a }
  function Min(a: real, b: real): real { if a < b then a else b }

  /** The frame's movement: left, then right, then up, then down, each clamped. */
  function MovePlayer(p: Point, keys: Keys): (q: Point)
    ensures InRegion(p) ==> InRegion(q)
    ensures InRegion(p) ==> -PlayerStep <= q.x - p.x <= PlayerStep
    ensures InRegion(p) ==> -PlayerStep <= q.y - p.y <= PlayerStep
    ensures !keys.left && !keys.right ==> q.x == p.x
    ensures !keys.up && !keys.down ==> q.y == p.y
    ensures InRegion(p) && keys.left && !keys.right ==> q.x == p.x - PlayerStep || q.x == 50.0
    ensures InRegion(p) && keys.right && !keys.left ==> q.x == p.x + PlayerStep || q.x == 750.0
    ensures InRegion(p) && keys.up && !keys.down ==> q.y == p.y - PlayerStep || q.y == 50.0
    ensures InRegion(p) && keys.down && !keys.up ==> q.y == p.y + PlayerStep || q.y == 550.0
  {
    var x1 := if keys.left then Max(p.x - PlayerStep, 50.0) else p.x;
    var x2 := if keys.right then Min(x1 + PlayerStep, 750.0) else x1;
    var y1 := if keys.up then Max(p.y - PlayerStep, 50.0) else p.y;
    var y2 := if keys.down then Min(y1 + PlayerStep, 550.0) else y1;
    Point(x2, y2)
  }
}
