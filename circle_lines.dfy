/** The outline of the circle as the mouse handlers build it: 100 chords
    between consecutive points of the rim, at angles 2*pi/100 apart. The
    constant pi and the trigonometric functions are parameters. */
module CircleLines {
  import opened Algebra
  import opened Geometry

  /** The number of chords the outline is made of. */
  const ChordCount := 100

  /** What the model needs of cos and sin: they name a point of the unit circle. */
  ghost predicate IsCosSin(cos: real -> real, sin: real -> real)
  {
    forall a: real :: Sq(cos(a)) + Sq(sin(a)) == 1.0
  }

  /** The angle of the i-th rim point: theta * i with theta = 2*pi/100. */
  function Angle(pi: real, i: int): real
  {
    (2.0 * pi) / 100.0 * (i as real)
  }

  function RimPoint(center: Point, r: real, angle: real, cos: real -> real, sin: real -> real): Point
  {
    Point(center.x + r * cos(angle), center.y + r * sin(angle))
  }

  /** The i-th chord, from the i-th rim point to the next. */
  function ChordAt(center: Point, r: real, i: int, pi: real, cos: real -> real, sin: real -> real): Segment
  {
    Segment(RimPoint(center, r, Angle(pi, i), cos, sin), RimPoint(center, r, Angle(pi, i + 1), cos, sin))
  }

  /** chords is the full outline of the circle of centre `center` and radius r. */
  ghost predicate IsOutline(chords: seq<Segment>, center: Point, r: real, pi: real, cos: real -> real, sin: real -> real)
  {
    |chords| == ChordCount &&
    forall i :: 0 <= i < |chords| ==> chords[i] == ChordAt(center, r, i, pi, cos, sin)
  }

  /** The loop that fills circleLines and tempCircleLines. */
  method Tessellate(center: Point, r: real, pi: real, cos: real -> real, sin: real -> real)
    returns (chords: seq<Segment>)
    ensures |chords| == ChordCount
    ensures forall i :: 0 <= i < |chords| ==> chords[i] == ChordAt(center, r, i, pi, cos, sin)
  {
    chords := [];
    var i := 0;
    while i < 100
      invariant 0 <= i <= 100
      invariant |chords| == i
      invariant forall j :: 0 <= j < i ==> chords[j] == ChordAt(center, r, j, pi, cos, sin)
    {
      var theta := (2.0 * pi) / 100.0;
      var chord := Segment(Point(center.x + r * cos(theta * (i as real)), center.y + r * sin(theta * (i as real))),
                           Point(center.x + r * cos(theta * ((i + 1) as real)), center.y + r * sin(theta * ((i + 1) as real))));
      assert theta * (i as real) == Angle(pi, i);
      assert theta * ((i + 1) as real) == Angle(pi, i + 1);
      assert chord == ChordAt(center, r, i, pi, cos, sin);
      chords := chords + [chord];
      i := i + 1;
    }
  }

  /** Every rim point lies on the circle of centre `center` and radius r. */
  lemma RimPointOnCircle(center: Point, r: real, angle: real, cos: real -> real, sin: real -> real)
    requires IsCosSin(cos, sin)
    ensures OnCircle(RimPoint(center, r, angle, cos, sin), center, r)
  {
    var p := RimPoint(center, r, angle, cos, sin);
    var c, s := cos(angle), sin(angle);
    assert p.x - center.x == r * c;
    assert p.y - center.y == r * s;
    SquareOfProduct(r, c);
    SquareOfProduct(r, s);
    calc {
      DistSq(p, center);
      Sq(r * c) + Sq(r * s);
      Sq(r) * Sq(c) + Sq(r) * Sq(s);
      Sq(r) * (Sq(c) + Sq(s));
      { assert Sq(c) + Sq(s) == 1.0; }
      Sq(r);
    }
  }

  /** Both ends of every chord lie on the circle, and each chord starts
      where the previous one ends. */
  lemma ChordsOnCircle(center: Point, r: real, i: int, pi: real, cos: real -> real, sin: real -> real)
    requires IsCosSin(cos, sin)
    ensures OnCircle(ChordAt(center, r, i, pi, cos, sin).start, center, r)
    ensures OnCircle(ChordAt(center, r, i, pi, cos, sin).end, center, r)
    ensures ChordAt(center, r, i, pi, cos, sin).end == ChordAt(center, r, i + 1, pi, cos, sin).start
  {
    RimPointOnCircle(center, r, Angle(pi, i), cos, sin);
    RimPointOnCircle(center, r, Angle(pi, i + 1), cos, sin);
  }

  /** With cos and sin periodic in 2*pi, the last chord ends where the first
      begins: the outline is closed. */
  lemma OutlineCloses(center: Point, r: real, pi: real, cos: real -> real, sin: real -> real)
    requires cos(2.0 * pi) == cos(0.0) && sin(2.0 * pi) == sin(0.0)
    ensures ChordAt(center, r, ChordCount - 1, pi, cos, sin).end == ChordAt(center, r, 0, pi, cos, sin).start
  {
    var last := ChordAt(center, r, ChordCount - 1, pi, cos, sin);
    assert Angle(pi, ChordCount - 1 + 1) == 2.0 * pi;
    assert last.end == RimPoint(center, r, 2.0 * pi, cos, sin);
    assert Angle(pi, 0) == 0.0;
    assert ChordAt(center, r, 0, pi, cos, sin).start == RimPoint(center, r, 0.0, cos, sin);
  }
}
