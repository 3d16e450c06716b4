/** Intersection of the committed line segment with the committed circle
    (computeIntersectionPoints). The segment is parametrised as
    P(t) = start + t * (end - start); substituting P(t) into the circle
    equation |P(t) - center|^2 = r^2 gives a * t^2 + b * t + c = 0, whose
    roots inside [0, 1] are the intersections. */
module Intersection {
  import opened Algebra
  import opened Options
  import opened Geometry

  /** `sqrt` behaves as the exact square root on non-negative reals; it
      stands for Math.sqrt. */
  ghost predicate IsSqrt(sqrt: real -> real)
  {
    forall x: real :: 0.0 <= x ==> 0.0 <= sqrt(x) && Sq(sqrt(x)) == x
  }

  /** The quadratic a * t^2 + b * t + c. */
  datatype Quadratic = Quadratic(a: real, b: real, c: real)

  function Eval(q: Quadratic, t: real): real
  {
    q.a * Sq(t) + q.b * t + q.c
  }

  function Discriminant(q: Quadratic): real
  {
    Sq(q.b) - 4.0 * q.a * q.c
  }

  /** The quadratic whose roots are the parameters at which the segment's
      line meets the circle: a = |d|^2, b = 2 f.d, c = |f|^2 - r^2 with
      d = end - start and f = start - center. */
  function Coefficients(seg: Segment, center: Point, r: real): Quadratic
  {
    var dx := seg.end.x - seg.start.x;
    var dy := seg.end.y - seg.start.y;
    var fx := seg.start.x - center.x;
    var fy := seg.start.y - center.y;
    Quadratic(Sq(dx) + Sq(dy), 2.0 * (fx * dx + fy * dy), Sq(fx) + Sq(fy) - Sq(r))
  }

  /** a is the squared length of the segment: never negative, and zero
      exactly for a zero-length segment. */
  lemma LeadingCoefficient(seg: Segment, center: Point, r: real)
    ensures Coefficients(seg, center, r).a == DistSq(seg.end, seg.start)
    ensures Coefficients(seg, center, r).a >= 0.0
    ensures Coefficients(seg, center, r).a == 0.0 <==> seg.start == seg.end
  {
  }

  /** t1 = (-b - sqrtD) / (2a). */
  function LowerRoot(q: Quadratic, sqrtD: real): real
    requires q.a != 0.0
  {
    (-q.b - sqrtD) / (2.0 * q.a)
  }

  /** t2 = (-b + sqrtD) / (2a). */
  function UpperRoot(q: Quadratic, sqrtD: real): real
    requires q.a != 0.0
  {
    (-q.b + sqrtD) / (2.0 * q.a)
  }

  /** The parameters kept by computeIntersectionPoints: t1 when it lies in
      [0, 1], then t2 when it lies in [0, 1] and differs from t1. A negative
      discriminant keeps nothing. A zero-length segment (a = 0) keeps
      nothing either: there the source divides 0 by 0, both parameters are
      NaN, and NaN fails the range test. */
  function Roots(q: Quadratic, sqrt: real -> real): (ts: seq<real>)
    ensures |ts| <= 2
    ensures forall i :: 0 <= i < |ts| ==> InRange(ts[i])
    ensures Discriminant(q) < 0.0 ==> ts == []
    ensures q.a == 0.0 ==> ts == []
  {
    var d := Discriminant(q);
    if d < 0.0 || q.a == 0.0 then []
    else
      var sqrtD := sqrt(d);
      var t1 := LowerRoot(q, sqrtD);
      var t2 := UpperRoot(q, sqrtD);
      (if InRange(t1) then [t1] else []) + (if InRange(t2) && t2 != t1 then [t2] else [])
  }

  /** The points of the segment at the given parameters, in order. */
  function PointsAt(seg: Segment, ts: seq<real>): (ps: seq<Point>)
    ensures |ps| == |ts|
    ensures forall i :: 0 <= i < |ts| ==> ps[i] == PointAt(seg, ts[i])
  {
    if ts == [] then [] else [PointAt(seg, ts[0])] + PointsAt(seg, ts[1..])
  }

  /** The intersection points of one segment and one circle. */
  function Intersect(seg: Segment, center: Point, r: real, sqrt: real -> real): (ps: seq<Point>)
    ensures |ps| <= 2
  {
    PointsAt(seg, Roots(Coefficients(seg, center, r), sqrt))
  }

  /** computeIntersectionPoints: intersects the first committed line with
      the committed circle; nothing to intersect gives no points. */
  function ComputeIntersectionPoints(lines: seq<Segment>, circleCenter: Option<Point>,
                                     radius: Option<real>, sqrt: real -> real): (ps: seq<Point>)
    ensures lines == [] || circleCenter == None || radius == None ==> ps == []
    ensures |ps| <= 2
  {
    if |lines| == 0 || circleCenter.None? || radius.None? then []
    else Intersect(lines[0], circleCenter.value, radius.value, sqrt)
  }

  /** Completing the square: 4a * (a t^2 + b t + c) = (2 a t + b)^2 - D. */
  lemma CompletedSquare(q: Quadratic, t: real)
    ensures 4.0 * q.a * Eval(q, t) == Sq(2.0 * q.a * t + q.b) - Discriminant(q)
  {
  }

  /** (2 a t + b)^2 = sqrtD^2 for both quadratic-formula roots. */
  lemma RootShift(q: Quadratic, sqrtD: real, t: real)
    requires q.a != 0.0
    requires t == LowerRoot(q, sqrtD) || t == UpperRoot(q, sqrtD)
    ensures Sq(2.0 * q.a * t + q.b) == Sq(sqrtD)
  {
    if t == LowerRoot(q, sqrtD) {
      DivTimes(-q.b - sqrtD, 2.0 * q.a);
      assert 2.0 * q.a * t + q.b == -sqrtD;
      SquareOfNegation(sqrtD);
    } else {
      DivTimes(-q.b + sqrtD, 2.0 * q.a);
      assert 2.0 * q.a * t + q.b == sqrtD;
    }
  }

  /** Both values of the quadratic formula solve the quadratic. */
  lemma {:induction false} FormulaSolves(q: Quadratic, sqrtD: real, t: real)
    requires q.a != 0.0 && Sq(sqrtD) == Discriminant(q)
    requires t == LowerRoot(q, sqrtD) || t == UpperRoot(q, sqrtD)
    ensures Eval(q, t) == 0.0
  {
    CompletedSquare(q, t);
    RootShift(q, sqrtD, t);
    assert (4.0 * q.a) * Eval(q, t) == 0.0;
    ZeroProduct(4.0 * q.a, Eval(q, t));
  }

  /** Every solution of the quadratic is one of the two values of the
      quadratic formula, and then the discriminant is not negative. */
  lemma {:induction false} SolutionIsFormula(q: Quadratic, sqrtD: real, t: real)
    requires q.a != 0.0 && sqrtD >= 0.0 && Sq(sqrtD) == Discriminant(q)
    requires Eval(q, t) == 0.0
    ensures t == LowerRoot(q, sqrtD) || t == UpperRoot(q, sqrtD)
  {
    var u := 2.0 * q.a * t + q.b;
    CompletedSquare(q, t);
    assert Sq(u) == Sq(sqrtD);
    EqualSquares(u, sqrtD);
    assert t * (2.0 * q.a) == u - q.b;
    TimesDiv(t, 2.0 * q.a);
    assert t == (u - q.b) / (2.0 * q.a);
  }

  lemma {:induction false} SolutionNeedsDiscriminant(q: Quadratic, t: real)
    requires q.a != 0.0 && Eval(q, t) == 0.0
    ensures Discriminant(q) >= 0.0
  {
    CompletedSquare(q, t);
    SquarePositive(2.0 * q.a * t + q.b);
  }

  /** With a > 0 and sqrtD >= 0, t1 <= t2, and t1 = t2 exactly when sqrtD = 0. */
  lemma {:induction false} FormulaOrder(q: Quadratic, sqrtD: real)
    requires q.a > 0.0 && sqrtD >= 0.0
    ensures LowerRoot(q, sqrtD) <= UpperRoot(q, sqrtD)
    ensures LowerRoot(q, sqrtD) == UpperRoot(q, sqrtD) <==> sqrtD == 0.0
  {
    var t1, t2 := LowerRoot(q, sqrtD), UpperRoot(q, sqrtD);
    DivTimes(-q.b - sqrtD, 2.0 * q.a);
    DivTimes(-q.b + sqrtD, 2.0 * q.a);
    assert (t2 - t1) * (2.0 * q.a) == 2.0 * sqrtD;
    if t2 - t1 < 0.0 {
      PositiveProduct(t1 - t2, 2.0 * q.a);
    }
    if sqrtD == 0.0 {
      ZeroProduct(t2 - t1, 2.0 * q.a);
    }
  }

  /** Every kept parameter solves the quadratic. */
  lemma {:induction false} RootsSolve(q: Quadratic, sqrt: real -> real)
    requires IsSqrt(sqrt)
    ensures forall i :: 0 <= i < |Roots(q, sqrt)| ==> Eval(q, Roots(q, sqrt)[i]) == 0.0
  {
    var d := Discriminant(q);
    if d >= 0.0 && q.a != 0.0 {
      var sqrtD := sqrt(d);
      assert Sq(sqrtD) == d;
      FormulaSolves(q, sqrtD, LowerRoot(q, sqrtD));
      FormulaSolves(q, sqrtD, UpperRoot(q, sqrtD));
    }
  }

  /** Conversely, every solution in [0, 1] of a proper quadratic is kept. */
  lemma {:induction false} RootsComplete(q: Quadratic, sqrt: real -> real, t: real)
    requires IsSqrt(sqrt)
    requires q.a != 0.0 && InRange(t) && Eval(q, t) == 0.0
    ensures t in Roots(q, sqrt)
  {
    SolutionNeedsDiscriminant(q, t);
    var sqrtD := sqrt(Discriminant(q));
    SolutionIsFormula(q, sqrtD, t);
  }

  /** The kept parameters are strictly ascending: t1's point comes before
      t2's, and a repeated root is kept once. */
  lemma {:induction false} RootsAscending(q: Quadratic, sqrt: real -> real)
    requires IsSqrt(sqrt) && q.a >= 0.0
    ensures forall i, j :: 0 <= i < j < |Roots(q, sqrt)| ==> Roots(q, sqrt)[i] < Roots(q, sqrt)[j]
  {
    var d := Discriminant(q);
    if d >= 0.0 && q.a != 0.0 {
      FormulaOrder(q, sqrt(d));
    }
  }

  /** A zero discriminant (a tangent line) gives at most one parameter. */
  lemma {:induction false} TangentKeptOnce(q: Quadratic, sqrt: real -> real)
    requires IsSqrt(sqrt) && Discriminant(q) == 0.0
    ensures |Roots(q, sqrt)| <= 1
  {
    var sqrtD := sqrt(0.0);
    assert Sq(sqrtD) == 0.0;
    SquarePositive(sqrtD);
  }

  /** The quadratic measures how far P(t) is from the circle:
      |P(t) - center|^2 - r^2 = a t^2 + b t + c. */
  lemma OnCircleIffRoot(seg: Segment, center: Point, r: real, t: real)
    ensures DistSq(PointAt(seg, t), center) - Sq(r) == Eval(Coefficients(seg, center, r), t)
    ensures OnCircle(PointAt(seg, t), center, r) <==> Eval(Coefficients(seg, center, r), t) == 0.0
  {
    var dx := seg.end.x - seg.start.x;
    var dy := seg.end.y - seg.start.y;
    var fx := seg.start.x - center.x;
    var fy := seg.start.y - center.y;
    var p := PointAt(seg, t);
    assert p.x - center.x == fx + t * dx;
    assert p.y - center.y == fy + t * dy;
    SquareOfSum(fx, t * dx);
    SquareOfSum(fy, t * dy);
    SquareOfProduct(t, dx);
    SquareOfProduct(t, dy);
    assert 2.0 * (fx * (t * dx)) + 2.0 * (fy * (t * dy)) == 2.0 * (fx * dx + fy * dy) * t;
    assert Sq(t) * Sq(dx) + Sq(t) * Sq(dy) == (Sq(dx) + Sq(dy)) * Sq(t);
  }

  /** Every intersection point lies on the segment and on the circle. */
  lemma {:induction false} IntersectionsOnSegmentAndCircle(seg: Segment, center: Point, r: real,
                                                           sqrt: real -> real)
    requires IsSqrt(sqrt)
    ensures forall i :: 0 <= i < |Intersect(seg, center, r, sqrt)| ==>
              OnSegment(seg, Intersect(seg, center, r, sqrt)[i]) &&
              OnCircle(Intersect(seg, center, r, sqrt)[i], center, r)
  {
    var q := Coefficients(seg, center, r);
    var ts := Roots(q, sqrt);
    RootsSolve(q, sqrt);
    forall i | 0 <= i < |ts|
      ensures OnSegment(seg, PointAt(seg, ts[i])) && OnCircle(PointAt(seg, ts[i]), center, r)
    {
      assert InRange(ts[i]);
      OnCircleIffRoot(seg, center, r, ts[i]);
    }
  }

  /** Conversely, for a segment of non-zero length every point of the
      segment on the circle is reported. */
  lemma {:induction false} IntersectionsComplete(seg: Segment, center: Point, r: real,
                                                 sqrt: real -> real, t: real)
    requires IsSqrt(sqrt) && seg.start != seg.end
    requires InRange(t) && OnCircle(PointAt(seg, t), center, r)
    ensures PointAt(seg, t) in Intersect(seg, center, r, sqrt)
  {
    var q := Coefficients(seg, center, r);
    LeadingCoefficient(seg, center, r);
    OnCircleIffRoot(seg, center, r, t);
    RootsComplete(q, sqrt, t);
    var i :| 0 <= i < |Roots(q, sqrt)| && Roots(q, sqrt)[i] == t;
    assert Intersect(seg, center, r, sqrt)[i] == PointAt(seg, t);
  }

  /** A zero-length segment reports no intersection, even when its single
      point lies on the circle. */
  lemma DegenerateSegmentMisses(seg: Segment, center: Point, r: real, sqrt: real -> real)
    requires seg.start == seg.end
    ensures Intersect(seg, center, r, sqrt) == []
  {
    LeadingCoefficient(seg, center, r);
  }

  /** Along the segment, the squared distance from the start grows as t^2 * a. */
  lemma DistanceFromStart(seg: Segment, t: real)
    ensures DistSq(PointAt(seg, t), seg.start) == Sq(t) * DistSq(seg.end, seg.start)
  {
    var dx := seg.end.x - seg.start.x;
    var dy := seg.end.y - seg.start.y;
    var p := PointAt(seg, t);
    assert p.x - seg.start.x == t * dx;
    assert p.y - seg.start.y == t * dy;
    SquareOfProduct(t, dx);
    SquareOfProduct(t, dy);
  }

  lemma SquareMonotone(u: real, v: real)
    requires 0.0 <= u < v
    ensures Sq(u) < Sq(v)
  {
    var w := v - u;
    SquareOfSum(u, w);
    SquarePositive(w);
    if u > 0.0 {
      PositiveProduct(u, w);
    }
    assert Sq(v) == Sq(u) + 2.0 * (u * w) + Sq(w);
  }

  /** "Point 1" and "Point 2" are distinct and Point 1 is the one nearer to
      the start of the segment. */
  lemma {:induction false} IntersectionsOrdered(seg: Segment, center: Point, r: real, sqrt: real -> real)
    requires IsSqrt(sqrt)
    ensures var ps := Intersect(seg, center, r, sqrt);
            |ps| == 2 ==> DistSq(ps[0], seg.start) < DistSq(ps[1], seg.start)
  {
    var q := Coefficients(seg, center, r);
    var ts := Roots(q, sqrt);
    var ps := Intersect(seg, center, r, sqrt);
    LeadingCoefficient(seg, center, r);
    if |ts| == 2 {
      RootsAscending(q, sqrt);
      var len := DistSq(seg.end, seg.start);
      assert len > 0.0;
      calc {
        DistSq(ps[1], seg.start) - DistSq(ps[0], seg.start);
        { DistanceFromStart(seg, ts[0]); DistanceFromStart(seg, ts[1]); }
        Sq(ts[1]) * len - Sq(ts[0]) * len;
        (Sq(ts[1]) - Sq(ts[0])) * len;
      > { SquareMonotone(ts[0], ts[1]); PositiveProduct(Sq(ts[1]) - Sq(ts[0]), len); }
        0.0;
      }
    }
  }

  /** Math.sqrt of a perfect square. */
  lemma SqrtOfSquare(sqrt: real -> real, v: real)
    requires IsSqrt(sqrt) && v >= 0.0
    ensures sqrt(Sq(v)) == v
  {
    SquarePositive(v);
    EqualSquares(sqrt(Sq(v)), v);
  }

  /** With one committed line, a centre and a radius, the page intersects
      exactly that line with that circle. */
  lemma OneCommittedLine(seg: Segment, center: Point, r: real, sqrt: real -> real)
    ensures ComputeIntersectionPoints([seg], Some(center), Some(r), sqrt) == Intersect(seg, center, r, sqrt)
  {
  }

  /** A double root in [0, 1] is kept once. */
  lemma DoubleRootKeptOnce(q: Quadratic, sqrt: real -> real)
    requires q.a != 0.0 && Discriminant(q) == 0.0 && sqrt(0.0) == 0.0
    requires InRange(LowerRoot(q, 0.0))
    ensures Roots(q, sqrt) == [LowerRoot(q, 0.0)]
  {
    assert UpperRoot(q, 0.0) == LowerRoot(q, 0.0);
  }

  /** The segment from (-2, 0) to (2, 0) and the unit circle give the
      quadratic 16t^2 - 16t + 3 ... */
  lemma CrossingCoefficients()
    ensures Coefficients(Segment(Point(-2.0, 0.0), Point(2.0, 0.0)), Point(0.0, 0.0), 1.0) == Quadratic(16.0, -16.0, 3.0)
  {
  }

  /** ... whose discriminant is 64 and whose roots are t = 1/4 and t = 3/4 ... */
  lemma CrossingRoots(sqrt: real -> real)
    requires sqrt(64.0) == 8.0
    ensures Roots(Quadratic(16.0, -16.0, 3.0), sqrt) == [0.25, 0.75]
  {
    var q := Quadratic(16.0, -16.0, 3.0);
    assert Discriminant(q) == 64.0;
    assert LowerRoot(q, 8.0) == 0.25;
    assert UpperRoot(q, 8.0) == 0.75;
  }

  /** ... which are the points (-1, 0) and (1, 0) of the segment. */
  lemma CrossingPoints()
    ensures PointsAt(Segment(Point(-2.0, 0.0), Point(2.0, 0.0)), [0.25, 0.75]) == [Point(-1.0, 0.0), Point(1.0, 0.0)]
  {
    var ps := PointsAt(Segment(Point(-2.0, 0.0), Point(2.0, 0.0)), [0.25, 0.75]);
    assert ps[0] == Point(-1.0, 0.0);
    assert ps[1] == Point(1.0, 0.0);
  }

  /** Circle at the origin with radius 1, segment from (-2, 0) to (2, 0):
      two points, (-1, 0) then (1, 0). Only the square root of the
      discriminant 64 is needed. */
  lemma CrossingExample(sqrt: real -> real)
    requires sqrt(64.0) == 8.0
    ensures ComputeIntersectionPoints([Segment(Point(-2.0, 0.0), Point(2.0, 0.0))],
                                      Some(Point(0.0, 0.0)), Some(1.0), sqrt)
            == [Point(-1.0, 0.0), Point(1.0, 0.0)]
  {
    CrossingCoefficients();
    CrossingRoots(sqrt);
    CrossingPoints();
    OneCommittedLine(Segment(Point(-2.0, 0.0), Point(2.0, 0.0)), Point(0.0, 0.0), 1.0, sqrt);
  }

  /** Segment from (2, 0) to (3, 0), wholly outside the unit circle: the
      line meets the circle at t = -3 and t = -1, both outside [0, 1]. */
  lemma MissExample(sqrt: real -> real)
    requires sqrt(4.0) == 2.0
    ensures ComputeIntersectionPoints([Segment(Point(2.0, 0.0), Point(3.0, 0.0))],
                                      Some(Point(0.0, 0.0)), Some(1.0), sqrt) == []
  {
    var q := Coefficients(Segment(Point(2.0, 0.0), Point(3.0, 0.0)), Point(0.0, 0.0), 1.0);
    assert q == Quadratic(1.0, 4.0, 3.0);
    assert Discriminant(q) == 4.0;
    assert LowerRoot(q, 2.0) == -3.0;
    assert UpperRoot(q, 2.0) == -1.0;
    assert Roots(q, sqrt) == [];
  }

  /** The tangent segment from (-1, 1) to (1, 1) and the unit circle give
      the quadratic 4t^2 - 4t + 1 ... */
  lemma TangentCoefficients()
    ensures Coefficients(Segment(Point(-1.0, 1.0), Point(1.0, 1.0)), Point(0.0, 0.0), 1.0) == Quadratic(4.0, -4.0, 1.0)
  {
  }

  /** ... whose discriminant is 0 and whose double root is t = 1/2. */
  lemma TangentDoubleRoot()
    ensures Discriminant(Quadratic(4.0, -4.0, 1.0)) == 0.0
    ensures LowerRoot(Quadratic(4.0, -4.0, 1.0), 0.0) == 0.5
  {
  }

  /** ... which is the point (0, 1) of the segment. */
  lemma TangentPoint()
    ensures PointsAt(Segment(Point(-1.0, 1.0), Point(1.0, 1.0)), [0.5]) == [Point(0.0, 1.0)]
  {
    var ps := PointsAt(Segment(Point(-1.0, 1.0), Point(1.0, 1.0)), [0.5]);
    assert ps[0] == Point(0.0, 1.0);
  }

  /** Segment from (-1, 1) to (1, 1), tangent to the unit circle at its
      top: one point, (0, 1). */
  lemma TangentExample(sqrt: real -> real)
    requires sqrt(0.0) == 0.0
    ensures ComputeIntersectionPoints([Segment(Point(-1.0, 1.0), Point(1.0, 1.0))],
                                      Some(Point(0.0, 0.0)), Some(1.0), sqrt) == [Point(0.0, 1.0)]
  {
    var seg := Segment(Point(-1.0, 1.0), Point(1.0, 1.0));
    var q := Quadratic(4.0, -4.0, 1.0);
    TangentCoefficients();
    TangentDoubleRoot();
    DoubleRootKeptOnce(q, sqrt);
    TangentPoint();
    OneCommittedLine(seg, Point(0.0, 0.0), 1.0, sqrt);
  }
}
