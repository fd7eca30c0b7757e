/**
 Route waypoints and the priority rule that decides between two of them.

 A `RoutePoint` is a named, coloured stop marker whose `zIndex` is its display
 priority. Where two route sections meet, or where two walking sections are
 merged, the controller keeps only one of two candidate points: the one with
 the strictly greater `zIndex`, and otherwise the SECOND one.
 */
module Points {

  /** A named waypoint; `color` is a 32-bit ARGB value, `zIndex` its priority. */
  datatype RoutePoint = RoutePoint(name: string, color: bv32, zIndex: int)

  /** The two boundary waypoints of one route section. */
  datatype PointBound = PointBound(startPoint: RoutePoint, endPoint: RoutePoint)

  /** The point with the higher priority; on equal priority the second argument wins. */
  function MaxPoint(p1: RoutePoint, p2: RoutePoint): (r: RoutePoint)
    ensures r == p1 || r == p2
    ensures r.zIndex >= p1.zIndex && r.zIndex >= p2.zIndex
    ensures p1.zIndex == p2.zIndex ==> r == p2
  {
    if p1.zIndex > p2.zIndex then p1 else p2
  }

  /** Component-wise merge of two bounds: starts and ends are chosen independently. */
  function MergePoints(b1: PointBound, b2: PointBound): (r: PointBound)
    ensures r.startPoint == b1.startPoint || r.startPoint == b2.startPoint
    ensures r.endPoint == b1.endPoint || r.endPoint == b2.endPoint
    ensures r.startPoint.zIndex >= b1.startPoint.zIndex && r.startPoint.zIndex >= b2.startPoint.zIndex
    ensures r.endPoint.zIndex >= b1.endPoint.zIndex && r.endPoint.zIndex >= b2.endPoint.zIndex
    ensures b1.startPoint.zIndex == b2.startPoint.zIndex ==> r.startPoint == b2.startPoint
    ensures b1.endPoint.zIndex == b2.endPoint.zIndex ==> r.endPoint == b2.endPoint
  {
    PointBound(MaxPoint(b1.startPoint, b2.startPoint), MaxPoint(b1.endPoint, b2.endPoint))
  }

  /** On a priority tie the choice depends on argument order: the rule is not commutative. */
  lemma MaxPointTieIsRightBiased()
    ensures var a := RoutePoint("a", 0, 1);
            var b := RoutePoint("b", 0, 1);
            MaxPoint(a, b) == b && MaxPoint(b, a) == a
  {
  }

  /** Choosing among three points does not depend on how the choices are grouped. */
  lemma MaxPointAssociative(a: RoutePoint, b: RoutePoint, c: RoutePoint)
    ensures MaxPoint(MaxPoint(a, b), c) == MaxPoint(a, MaxPoint(b, c))
  {
  }

  /** Merging bounds is associative, so the order of folding a run's bounds is irrelevant. */
  lemma MergePointsAssociative(a: PointBound, b: PointBound, c: PointBound)
    ensures MergePoints(MergePoints(a, b), c) == MergePoints(a, MergePoints(b, c))
  {
    MaxPointAssociative(a.startPoint, b.startPoint, c.startPoint);
    MaxPointAssociative(a.endPoint, b.endPoint, c.endPoint);
  }

  /** `ps[k]` is the LAST point of `ps` that carries the highest priority. */
  ghost predicate IsLastPeak(ps: seq<RoutePoint>, k: int) {
    && 0 <= k < |ps|
    && (forall j | 0 <= j < |ps| :: ps[j].zIndex <= ps[k].zIndex)
    && (forall j | k < j < |ps| :: ps[j].zIndex < ps[k].zIndex)
  }

  /** Left fold of `MaxPoint` over `ps`, starting from `acc`. */
  function PeakFrom(acc: RoutePoint, ps: seq<RoutePoint>): RoutePoint
    decreases |ps|
  {
    if ps == [] then acc else PeakFrom(MaxPoint(acc, ps[0]), ps[1..])
  }

  /**
   Folding `MaxPoint` over a list picks its last highest-priority point: the
   fold is not "first highest", because every tie is resolved to the later point.
   */
  lemma {:induction false} PeakFromIsLastPeak(acc: RoutePoint, ps: seq<RoutePoint>) returns (k: nat)
    ensures IsLastPeak([acc] + ps, k)
    ensures PeakFrom(acc, ps) == ([acc] + ps)[k]
    decreases |ps|
  {
    var xs := [acc] + ps;
    if ps == [] {
      k := 0;
    } else {
      var m := MaxPoint(acc, ps[0]);
      var ys := [m] + ps[1..];
      var k' := PeakFromIsLastPeak(m, ps[1..]);
      assert forall j | 2 <= j < |xs| :: xs[j] == ys[j - 1];
      assert ys[0] == m;
      assert ys[0].zIndex <= ys[k'].zIndex;
      if k' > 0 {
        k := k' + 1;
        assert xs[k] == ys[k'];
        assert xs[0].zIndex <= m.zIndex;
        assert xs[1].zIndex <= m.zIndex;
        forall j | 0 <= j < |xs|
          ensures xs[j].zIndex <= xs[k].zIndex
        {
          if j >= 2 {
            assert ys[j - 1].zIndex <= ys[k'].zIndex;
          }
        }
      } else if acc.zIndex > ps[0].zIndex {
        k := 0;
        assert m == acc && ys[0] == acc;
        forall j | 0 <= j < |xs|
          ensures xs[j].zIndex <= xs[k].zIndex
        {
          if j >= 2 {
            assert ys[j - 1].zIndex <= ys[0].zIndex;
          }
        }
        forall j | 0 < j < |xs|
          ensures xs[j].zIndex < xs[k].zIndex
        {
          if j >= 2 {
            assert ys[j - 1].zIndex < ys[0].zIndex;
          }
        }
      } else {
        k := 1;
        assert m == ps[0] && xs[1] == ps[0] && ys[0] == ps[0];
        forall j | 0 <= j < |xs|
          ensures xs[j].zIndex <= xs[k].zIndex
        {
          if j >= 2 {
            assert ys[j - 1].zIndex <= ys[0].zIndex;
          }
        }
        forall j | 1 < j < |xs|
          ensures xs[j].zIndex < xs[k].zIndex
        {
          assert ys[j - 1].zIndex < ys[0].zIndex;
        }
      }
    }
  }
}
