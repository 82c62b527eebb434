/**
 * The nearest-neighbour index the proximity code builds with scipy's KDTree,
 * stated as a linear scan over the points it was built from. A tree answers two
 * queries: the nearest point (`query`) and every point within a radius
 * (`query_ball_point`). Distances are squared; see `Geometry`.
 */
module Spatial {
  import opened Geometry

  /**
   * `query`: the index of a point nearest to `q`. Among equally near points
   * the model chooses the first; scipy's choice follows its tree layout.
   */
  function Nearest(points: seq<Point>, q: Point): (k: nat)
    requires |points| > 0
    ensures k < |points|
    ensures forall j :: 0 <= j < |points| ==> SqDist(points[k], q) <= SqDist(points[j], q)
    ensures forall j :: 0 <= j < k ==> SqDist(points[k], q) < SqDist(points[j], q)
  {
    var n := |points| - 1;
    if n == 0 then 0
    else
      var k := Nearest(points[..n], q);
      if SqDist(points[n], q) < SqDist(points[k], q) then n else k
  }

  /**
   * `query_ball_point`: the indices of all points at distance at most `radius`
   * from `q`, each once. The model lists them in increasing order; scipy's
   * order follows its tree traversal.
   */
  function QueryBall(points: seq<Point>, q: Point, radius: real): (ix: seq<nat>)
    ensures forall i :: i in ix ==> i < |points|
    ensures forall i :: 0 <= i < |points| ==> (i in ix <==> NoFartherThan(SqDist(points[i], q), radius))
    ensures forall a, b :: 0 <= a < b < |ix| ==> ix[a] < ix[b]
  {
    if |points| == 0 then []
    else
      var n := |points| - 1;
      var front := QueryBall(points[..n], q, radius);
      assert forall a :: 0 <= a < |front| ==> front[a] in front;
      front + if NoFartherThan(SqDist(points[n], q), radius) then [n] else []
  }

  /**
   * Nothing beats the nearest point: when no point lies within `radius`, the
   * nearest one does not either, and the other way round.
   */
  lemma {:induction false} NearestDecidesBall(points: seq<Point>, q: Point, radius: real)
    requires |points| > 0
    ensures QueryBall(points, q, radius) == [] <==>
              !NoFartherThan(SqDist(points[Nearest(points, q)], q), radius)
  {
    var k := Nearest(points, q);
    var ball := QueryBall(points, q, radius);
    if ball != [] {
      var i := ball[0];
      assert i in ball;
      assert SqDist(points[k], q) <= SqDist(points[i], q);
    }
    if NoFartherThan(SqDist(points[k], q), radius) {
      assert k in ball;
    }
  }
}
