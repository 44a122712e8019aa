/** Screen geometry of the game: integer pixel points, the hit test between the
    crosshair and a target, and the endpoints of the crosshair's two arms. */
module Geometry {

  import opened CppArith

  /** A pixel position, as `cv::Point` holds it (two ints). */
  datatype Point = Point(x: int, y: int)

  /** A line segment between two points. */
  datatype Segment = Segment(from: Point, to: Point)

  /** A target is removed when the truncated distance to the crosshair is at most this. */
  const HitRadius: nat := 20

  /** The integer form of the hit test: a truncated norm of at most `HitRadius`
      is a squared distance strictly below `(HitRadius + 1)^2 = 441`. */
  const HitSquaredBound: nat := (HitRadius + 1) * (HitRadius + 1)

  /** The length of the crosshair's arms as the game draws them. */
  const CrossSize: int := 20

  function SquaredDistance(a: Point, b: Point): nat
  {
    (a.x - b.x) * (a.x - b.x) + (a.y - b.y) * (a.y - b.y)
  }

  /** The integer square root, rounded down: the value of `sqrt(n)` converted to
      `int`, as `int distance = cv::norm(...)` does. */
  function FloorSqrt(n: nat): (r: nat)
    ensures r * r <= n < (r + 1) * (r + 1)
  {
    if n == 0 then 0
    else
      var s := FloorSqrt(n - 1);
      if (s + 1) * (s + 1) <= n then s + 1 else s
  }

  /** The distance between two points as the game computes it: the Euclidean
      norm of their difference, truncated to an integer: `r <= |a - b| < r + 1`. */
  function TruncatedNorm(a: Point, b: Point): (r: nat)
    ensures r * r <= SquaredDistance(a, b) < (r + 1) * (r + 1)
  {
    FloorSqrt(SquaredDistance(a, b))
  }

  /** Squares of naturals are monotone in both directions. */
  lemma SquareMonotone(a: nat, b: nat)
    ensures a <= b <==> a * a <= b * b
  {
    if a <= b {
      assert a * a <= a * b <= b * b;
    } else {
      assert b * b <= b * a < a * a;
    }
  }

  /** The truncated square root of `n` is at most 20 exactly when `n` is
      below 441: the test `distance <= 20` needs no square root. */
  lemma TruncatedNormWithinRadiusIff(n: nat)
    ensures FloorSqrt(n) <= HitRadius <==> n < HitSquaredBound
  {
    var r := FloorSqrt(n);
    if r <= HitRadius {
      SquareMonotone(r + 1, HitRadius + 1);
    } else {
      SquareMonotone(HitRadius + 1, r);
    }
  }

  /** The hit test, stated over integers; it holds exactly when the truncated
      distance between crosshair and target is at most 20. */
  predicate Hit(crosshair: Point, target: Point)
    ensures Hit(crosshair, target) <==> TruncatedNorm(crosshair, target) <= HitRadius
  {
    TruncatedNormWithinRadiusIff(SquaredDistance(crosshair, target));
    SquaredDistance(crosshair, target) < HitSquaredBound
  }

  /** The two arms of the crosshair drawn around `center` for a given `size`:
      a horizontal one and a vertical one, each reaching `size / 2` (C++
      division, truncated towards zero) on both sides of the center. The
      arms' colour and stroke are rendering only. */
  function CrossArms(center: Point, size: int): (arms: (Segment, Segment))
    ensures arms.0.from.y == arms.0.to.y == center.y
    ensures arms.1.from.x == arms.1.to.x == center.x
    ensures arms.0.from.x + arms.0.to.x == 2 * center.x
    ensures arms.1.from.y + arms.1.to.y == 2 * center.y
    ensures arms.0.to.x - arms.0.from.x == arms.1.to.y - arms.1.from.y
    ensures size >= 0 ==> size - 1 <= arms.0.to.x - arms.0.from.x <= size
    ensures size < 0 ==> size <= arms.0.to.x - arms.0.from.x <= size + 1
  {
    var half := TruncDiv(size, 2);
    (Segment(Point(center.x - half, center.y), Point(center.x + half, center.y)),
     Segment(Point(center.x, center.y - half), Point(center.x, center.y + half)))
  }

  /** With the size the game uses, each arm runs from `center - 10` to `center + 10`. */
  lemma CrossArmsOfGameSize(center: Point)
    ensures CrossArms(center, CrossSize)
         == (Segment(Point(center.x - 10, center.y), Point(center.x + 10, center.y)),
             Segment(Point(center.x, center.y - 10), Point(center.x, center.y + 10)))
  {
  }
}
