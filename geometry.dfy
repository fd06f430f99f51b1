/**
  Axis-aligned rectangles as the game engine reports them (top-left corner plus
  size), the shrunk hit box the scene derives from them, and the engine's
  rectangle overlap test.
 */
module Geometry {

  datatype Point = Point(x: real, y: real)

  datatype Rect = Rect(x: real, y: real, width: real, height: real) {
    function Right(): real { x + width }
    function Bottom(): real { y + height }
    function CentreX(): real { x + width / 2.0 }
    function CentreY(): real { y + height / 2.0 }

    /** Both sides strictly positive: the engine treats any other rectangle as empty. */
    predicate HasArea() { width > 0.0 && height > 0.0 }

    /** The closed rectangle contains `p`. */
    predicate Covers(p: Point) { x <= p.x <= Right() && y <= p.y <= Bottom() }
  }

  /** `inner` lies inside `outer`, edges included. */
  predicate Within(inner: Rect, outer: Rect) {
    outer.x <= inner.x && inner.Right() <= outer.Right() &&
    outer.y <= inner.y && inner.Bottom() <= outer.Bottom()
  }

  /**
    The bounding box of an unrotated sprite whose origin is its centre (the
    engine's default origin), given its displayed size.
   */
  function SpriteBounds(centre: Point, width: real, height: real): (r: Rect)
    ensures r.CentreX() == centre.x && r.CentreY() == centre.y
    ensures r.width == width && r.height == height
  {
    Rect(centre.x - width / 2.0, centre.y - height / 2.0, width, height)
  }

  /**
    The scene's getScaledBounds: the box shrunk (or grown) about its centre so that
    each side is `scale` times the original.
   */
  function ScaledBounds(b: Rect, scale: real): (r: Rect)
    ensures r.width == b.width * scale && r.height == b.height * scale
    ensures r.CentreX() == b.CentreX() && r.CentreY() == b.CentreY()
  {
    var widthDiff := b.width * (1.0 - scale);
    var heightDiff := b.height * (1.0 - scale);
    Rect(b.x + widthDiff / 2.0, b.y + heightDiff / 2.0, b.width * scale, b.height * scale)
  }

  /** A box scaled by a factor in [0, 1] stays inside the original box. */
  lemma ScaledBoundsWithin(b: Rect, scale: real)
    requires b.width >= 0.0 && b.height >= 0.0
    requires 0.0 <= scale <= 1.0
    ensures Within(ScaledBounds(b, scale), b)
  {
  }

  /** The hit box of a 100 by 50 box at the origin, at the scene's factor 0.4. */
  lemma ScaledBoundsExample()
    ensures ScaledBounds(Rect(0.0, 0.0, 100.0, 50.0), 0.4) == Rect(30.0, 15.0, 40.0, 20.0)
  {
  }

  /**
    The engine's RectangleToRectangle test: false when either rectangle has no
    area, otherwise true unless one lies entirely to one side of the other
    (touching edges count as overlap).
   */
  function Intersects(a: Rect, b: Rect): (r: bool)
    ensures r ==> a.HasArea() && b.HasArea()
    ensures r ==> a.x <= b.Right() && b.x <= a.Right() && a.y <= b.Bottom() && b.y <= a.Bottom()
  {
    if !a.HasArea() || !b.HasArea() then false
    else !(a.Right() < b.x || a.Bottom() < b.y || a.x > b.Right() || a.y > b.Bottom())
  }

  /** Overlap means exactly: both have area and some point lies in both. */
  lemma IntersectsIffSharedPoint(a: Rect, b: Rect)
    ensures Intersects(a, b) <==>
            (a.HasArea() && b.HasArea() && exists p :: a.Covers(p) && b.Covers(p))
  {
    if Intersects(a, b) {
      var p := Point(if a.x < b.x then b.x else a.x, if a.y < b.y then b.y else a.y);
      assert a.Covers(p) && b.Covers(p);
    }
  }

  lemma IntersectsSymmetric(a: Rect, b: Rect)
    ensures Intersects(a, b) == Intersects(b, a)
  {
  }

  /** Overlapping a rectangle means overlapping every rectangle around it. */
  lemma IntersectsEnclosing(a: Rect, inner: Rect, outer: Rect)
    requires Within(inner, outer)
    requires Intersects(a, inner)
    ensures Intersects(a, outer)
  {
  }

  /** A 40 by 40 box and a 2 by 2 box inside it overlap; boxes far apart do not. */
  lemma IntersectsExamples()
    ensures Intersects(Rect(100.0, 100.0, 40.0, 40.0), Rect(120.0, 120.0, 2.0, 2.0))
    ensures !Intersects(Rect(100.0, 100.0, 40.0, 40.0), Rect(200.0, 200.0, 2.0, 2.0))
  {
  }
}
