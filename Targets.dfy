/** The target list as values: which targets survive one pass of the removal
    scan, how many are hit, and where a new target is spawned. The in-place
    scan itself is `Game.BlueToolGame.UpdateRedBalls`, proved against these. */
module Targets {

  import opened Geometry

  /** The targets of `balls` that the crosshair at `c` does not hit, in their
      original order. */
  function Survivors(c: Point, balls: seq<Point>): (kept: seq<Point>)
    ensures |kept| <= |balls|
  {
    if balls == [] then []
    else
      var last := balls[|balls| - 1];
      Survivors(c, balls[..|balls| - 1]) + (if Hit(c, last) then [] else [last])
  }

  /** The number of targets of `balls` that the crosshair at `c` hits: at
      most all of them, and none exactly when no target is within range. */
  function HitCount(c: Point, balls: seq<Point>): (n: nat)
    ensures n <= |balls|
    ensures n == 0 <==> forall i :: 0 <= i < |balls| ==> !Hit(c, balls[i])
  {
    if balls == [] then 0
    else HitCount(c, balls[..|balls| - 1]) + (if Hit(c, balls[|balls| - 1]) then 1 else 0)
  }

  /** One more target at the end of the list is either kept or counted. */
  lemma SurvivorsSnoc(c: Point, balls: seq<Point>, p: Point)
    ensures Survivors(c, balls + [p]) == Survivors(c, balls) + (if Hit(c, p) then [] else [p])
    ensures HitCount(c, balls + [p]) == HitCount(c, balls) + (if Hit(c, p) then 1 else 0)
  {
    assert (balls + [p])[..|balls|] == balls;
  }

  /** Every target is either kept or counted as hit, never both. */
  lemma {:induction false} SurvivorsPlusHits(c: Point, balls: seq<Point>)
    ensures |Survivors(c, balls)| + HitCount(c, balls) == |balls|
  {
    if balls != [] {
      SurvivorsPlusHits(c, balls[..|balls| - 1]);
    }
  }

  /** Survivors keep each missed target with its multiplicity and drop every
      hit one: in particular no survivor is hit, and every target that is
      not hit survives. */
  lemma {:induction false} SurvivorsMultiset(c: Point, balls: seq<Point>)
    ensures forall p :: multiset(Survivors(c, balls))[p]
                     == if Hit(c, p) then 0 else multiset(balls)[p]
  {
    if balls != [] {
      var init, last := balls[..|balls| - 1], balls[|balls| - 1];
      SurvivorsMultiset(c, init);
      assert balls == init + [last];
    }
  }

  lemma SurvivorsMembership(c: Point, balls: seq<Point>)
    ensures forall p :: p in Survivors(c, balls) <==> p in balls && !Hit(c, p)
  {
    SurvivorsMultiset(c, balls);
    forall p ensures p in Survivors(c, balls) <==> p in balls && !Hit(c, p) {
      assert p in Survivors(c, balls) <==> multiset(Survivors(c, balls))[p] > 0;
      assert p in balls <==> multiset(balls)[p] > 0;
    }
  }

  /** Filtering distributes over concatenation, so the relative order of the
      targets that survive is the order they had before. */
  lemma {:induction false} SurvivorsConcat(c: Point, a: seq<Point>, b: seq<Point>)
    ensures Survivors(c, a + b) == Survivors(c, a) + Survivors(c, b)
  {
    if b == [] {
      assert a + b == a;
    } else {
      var init, last := b[..|b| - 1], b[|b| - 1];
      SurvivorsConcat(c, a, init);
      assert (a + b)[..|a + b| - 1] == a + init;
    }
  }

  /** The positions in `balls` of the targets that survive, in increasing
      order: exactly the positions of targets the crosshair misses. */
  ghost function KeptIndices(c: Point, balls: seq<Point>): (idx: seq<nat>)
    ensures forall j :: 0 <= j < |idx| ==> idx[j] < |balls|
    ensures forall j, k :: 0 <= j < k < |idx| ==> idx[j] < idx[k]
    ensures forall i :: 0 <= i < |balls| ==> (i in idx <==> !Hit(c, balls[i]))
  {
    if balls == [] then []
    else
      var n := |balls| - 1;
      var rest := KeptIndices(c, balls[..n]);
      assert forall i :: 0 <= i < n ==> balls[..n][i] == balls[i];
      rest + (if Hit(c, balls[n]) then [] else [n])
  }

  /** The survivors are the targets at the kept positions, one for one. */
  lemma {:induction false} SurvivorsAtKeptIndices(c: Point, balls: seq<Point>)
    ensures |Survivors(c, balls)| == |KeptIndices(c, balls)|
    ensures forall j :: 0 <= j < |KeptIndices(c, balls)| ==>
              Survivors(c, balls)[j] == balls[KeptIndices(c, balls)[j]]
  {
    if balls != [] {
      var n := |balls| - 1;
      SurvivorsAtKeptIndices(c, balls[..n]);
    }
  }

  /** A second scan with the crosshair where it was removes nothing more. */
  lemma {:induction false} SurvivorsIdempotent(c: Point, balls: seq<Point>)
    ensures Survivors(c, Survivors(c, balls)) == Survivors(c, balls)
  {
    if balls != [] {
      var n := |balls| - 1;
      var s := Survivors(c, balls[..n]);
      var tail := if Hit(c, balls[n]) then [] else [balls[n]];
      assert Survivors(c, balls) == s + tail;
      SurvivorsIdempotent(c, balls[..n]);
      SurvivorsConcat(c, s, tail);
      if tail != [] {
        assert tail[..0] == [];
        assert Survivors(c, tail) == tail;
      }
    }
  }

  /** The position of a freshly spawned target: two random draws (`std::rand()`
      gives non-negative values, so C++ `%` agrees with Dafny's here) reduced
      modulo the frame's width and height. */
  function SpawnPoint(cols: int, rows: int, drawX: nat, drawY: nat): (p: Point)
    requires cols > 0 && rows > 0
    ensures 0 <= p.x < cols && 0 <= p.y < rows
  {
    Point(drawX % cols, drawY % rows)
  }

  /** Every pixel of the frame can be chosen as a spawn position. */
  lemma SpawnPointCoversFrame(cols: int, rows: int, x: int, y: int)
    requires 0 <= x < cols && 0 <= y < rows
    ensures SpawnPoint(cols, rows, x, y) == Point(x, y)
  {
  }
}
