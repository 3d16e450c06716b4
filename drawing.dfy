/** The mouse-driven drawing session of hw03: one circle, then one line
    segment, then the intersections of the two. The state is the module's
    globals; each handler is a step of a small state machine. */
module Drawing {
  import opened Algebra
  import opened Options
  import opened Geometry
  import opened Coordinates
  import opened Intersection
  import opened CircleLines

  /** currentMode: "circle", "line" or "done". */
  datatype Mode = CircleMode | LineMode | Done

  /** The globals the mouse handlers read and write (the drawing-only
      tessellations tempCircleLines / circleLines are not part of it). */
  datatype DrawState = DrawState(
    currentMode: Mode,
    isDrawingCircle: bool,
    circleCenter: Option<Point>,
    tempCircleEndPoint: Option<Point>,
    radius: Option<real>,
    isDrawing: bool,
    startPoint: Option<Point>,
    tempEndPoint: Option<Point>,
    lines: seq<Segment>,
    intersectionPoints: seq<Point>)

  /** The globals as the script declares them. */
  const Initial: DrawState :=
    DrawState(CircleMode, false, None, None, None, false, None, None, [], [])

  /** What holds between any two events of a session. */
  ghost predicate Inv(s: DrawState, sqrt: real -> real)
  {
    && (s.radius.Some? ==> s.radius.value >= 0.0)
    && (s.tempCircleEndPoint.Some? ==> s.radius.Some?)
    && (s.isDrawingCircle ==> s.currentMode == CircleMode && s.circleCenter.Some?)
    && (s.isDrawing ==> s.currentMode == LineMode && s.startPoint.Some?)
    && (s.currentMode == CircleMode ==>
          !s.isDrawing && s.startPoint == None && s.tempEndPoint == None &&
          s.lines == [] && s.intersectionPoints == [])
    && (s.currentMode == LineMode ==>
          !s.isDrawingCircle && s.circleCenter.Some? && s.radius.Some? &&
          (!s.isDrawing ==> s.startPoint == None && s.tempEndPoint == None) &&
          s.lines == [] && s.intersectionPoints == [])
    && (s.currentMode == Done ==>
          !s.isDrawingCircle && !s.isDrawing && s.circleCenter.Some? && s.radius.Some? &&
          s.startPoint == None && s.tempEndPoint == None && |s.lines| == 1 &&
          s.intersectionPoints == Intersect(s.lines[0], s.circleCenter.value, s.radius.value, sqrt))
  }

  /** handleMouseDown at the NDC point p: in "circle" mode it sets the circle's
      centre, in "line" mode the segment's start, in "done" mode nothing. */
  function AfterMouseDown(s: DrawState, p: Point): (s': DrawState)
    ensures s.currentMode == CircleMode ==> s'.circleCenter == Some(p) && s'.isDrawingCircle
    ensures s.currentMode == LineMode ==> s'.startPoint == Some(p) && s'.isDrawing
    ensures s'.circleCenter != s.circleCenter || s'.isDrawingCircle != s.isDrawingCircle ==> s.currentMode == CircleMode
    ensures s'.startPoint != s.startPoint || s'.isDrawing != s.isDrawing ==> s.currentMode == LineMode
    ensures s.currentMode == Done ==> s' == s
    ensures s'.currentMode == s.currentMode && s'.radius == s.radius && s'.lines == s.lines
    ensures s'.tempCircleEndPoint == s.tempCircleEndPoint && s'.tempEndPoint == s.tempEndPoint
    ensures s'.intersectionPoints == s.intersectionPoints
  {
    match s.currentMode
    case CircleMode => s.(circleCenter := Some(p), isDrawingCircle := true)
    case LineMode => s.(startPoint := Some(p), isDrawing := true)
    case Done => s
  }

  /** handleMouseMove at the NDC point p: while a circle is being drawn the
      pointer fixes its rim point and radius; while a line is being drawn it
      fixes the end point. */
  function AfterMouseMove(s: DrawState, p: Point, sqrt: real -> real): (s': DrawState)
    requires s.isDrawingCircle ==> s.circleCenter.Some?
    ensures !s.isDrawingCircle && !s.isDrawing ==> s' == s
    ensures s.isDrawingCircle ==> s'.tempCircleEndPoint == Some(p) &&
                                  s'.radius == Some(sqrt(DistSq(p, s.circleCenter.value)))
    ensures !s.isDrawingCircle ==> s'.tempCircleEndPoint == s.tempCircleEndPoint && s'.radius == s.radius
    ensures s'.tempEndPoint == if s.isDrawing then Some(p) else s.tempEndPoint
    ensures s'.currentMode == s.currentMode && s'.isDrawingCircle == s.isDrawingCircle && s'.isDrawing == s.isDrawing
    ensures s'.circleCenter == s.circleCenter && s'.startPoint == s.startPoint
    ensures s'.lines == s.lines && s'.intersectionPoints == s.intersectionPoints
  {
    if !s.isDrawingCircle && !s.isDrawing then s
    else
      var s1 := if s.isDrawingCircle
                then s.(tempCircleEndPoint := Some(p), radius := Some(sqrt(DistSq(p, s.circleCenter.value))))
                else s;
      if s1.isDrawing then s1.(tempEndPoint := Some(p)) else s1
  }

  /** A release commits the circle: one is being drawn, with a centre and a
      rim point set by a move. */
  predicate CommitsCircle(s: DrawState)
  {
    s.isDrawingCircle && s.circleCenter.Some? && s.tempCircleEndPoint.Some?
  }

  /** A release commits the line: one is being drawn, with a start point and
      an end point set by a move. */
  predicate CommitsLine(s: DrawState)
  {
    s.isDrawing && s.startPoint.Some? && s.tempEndPoint.Some?
  }

  /** handleMouseUp: commits the circle if a move has set its rim point,
      then commits the line if a move has set its end point, pushing it onto
      `lines` and computing the intersections. */
  function AfterMouseUp(s: DrawState, sqrt: real -> real): (s': DrawState)
    ensures s.tempCircleEndPoint == None && s.tempEndPoint == None ==> s' == s
    ensures s'.circleCenter == s.circleCenter && s'.radius == s.radius
    ensures s'.tempCircleEndPoint == s.tempCircleEndPoint
    ensures s'.isDrawingCircle <==> s.isDrawingCircle && !CommitsCircle(s)
    ensures CommitsCircle(s) ==> s'.currentMode != CircleMode
    ensures CommitsLine(s) ==>
              && s'.lines == s.lines + [Segment(s.startPoint.value, s.tempEndPoint.value)]
              && s'.intersectionPoints == ComputeIntersectionPoints(s'.lines, s.circleCenter, s.radius, sqrt)
              && !s'.isDrawing && s'.startPoint == None && s'.tempEndPoint == None
              && s'.currentMode == Done
    ensures !CommitsLine(s) ==>
              && s'.lines == s.lines && s'.intersectionPoints == s.intersectionPoints
              && s'.isDrawing == s.isDrawing && s'.startPoint == s.startPoint
              && s'.tempEndPoint == s.tempEndPoint
    ensures !CommitsCircle(s) && !CommitsLine(s) ==> s' == s
  {
    var s1 := if s.isDrawingCircle && s.circleCenter.Some? && s.tempCircleEndPoint.Some?
              then s.(isDrawingCircle := false, currentMode := LineMode)
              else s;
    if s1.isDrawing && s1.startPoint.Some? && s1.tempEndPoint.Some? then
      var lines := s1.lines + [Segment(s1.startPoint.value, s1.tempEndPoint.value)];
      s1.(lines := lines,
          intersectionPoints := ComputeIntersectionPoints(lines, s1.circleCenter, s1.radius, sqrt),
          isDrawing := false, startPoint := None, tempEndPoint := None, currentMode := Done)
    else s1
  }

  lemma InitialInv(sqrt: real -> real)
    ensures Inv(Initial, sqrt)
    ensures Initial.currentMode == CircleMode
  {
  }

  lemma MouseDownPreservesInv(s: DrawState, p: Point, sqrt: real -> real)
    requires Inv(s, sqrt)
    ensures Inv(AfterMouseDown(s, p), sqrt)
  {
  }

  /** Also: a radius, once set by a move, is a Euclidean distance, so >= 0. */
  lemma MouseMovePreservesInv(s: DrawState, p: Point, sqrt: real -> real)
    requires IsSqrt(sqrt) && Inv(s, sqrt)
    ensures Inv(AfterMouseMove(s, p, sqrt), sqrt)
  {
  }

  lemma MouseUpPreservesInv(s: DrawState, sqrt: real -> real)
    requires Inv(s, sqrt)
    ensures Inv(AfterMouseUp(s, sqrt), sqrt)
  {
  }

  /** Releasing the button commits the circle being drawn once the pointer
      has moved: drawing stops and the mode becomes "line". */
  lemma MouseUpCommitsCircle(s: DrawState, sqrt: real -> real)
    requires Inv(s, sqrt)
    requires s.isDrawingCircle && s.tempCircleEndPoint.Some?
    ensures var s' := AfterMouseUp(s, sqrt);
            !s'.isDrawingCircle && s'.currentMode == LineMode &&
            s'.circleCenter == s.circleCenter && s'.radius == s.radius && s'.lines == []
  {
  }

  /** Releasing the button commits the line being drawn once a move has set
      its end point: it becomes the only line, the intersections are those of
      that segment with the committed circle, and the mode becomes "done". */
  lemma MouseUpCommitsLine(s: DrawState, sqrt: real -> real)
    requires Inv(s, sqrt)
    requires s.isDrawing && s.tempEndPoint.Some?
    ensures var s' := AfterMouseUp(s, sqrt);
            var seg := Segment(s.startPoint.value, s.tempEndPoint.value);
            && s'.currentMode == Done && s'.lines == [seg]
            && s'.intersectionPoints == Intersect(seg, s.circleCenter.value, s.radius.value, sqrt)
            && s'.circleCenter == s.circleCenter && s'.radius == s.radius
  {
    var seg := Segment(s.startPoint.value, s.tempEndPoint.value);
    assert s.lines + [seg] == [seg];
    OneCommittedLine(seg, s.circleCenter.value, s.radius.value, sqrt);
  }

  /** A press and release with no pending rim or end point (none set by an
      earlier move) commits nothing: the drawing flag stays set and the mode
      stays. */
  lemma ClickWithoutMoveCommitsNothing(s: DrawState, p: Point, sqrt: real -> real)
    requires Inv(s, sqrt)
    requires s.currentMode == CircleMode ==> s.tempCircleEndPoint == None
    requires s.currentMode == LineMode ==> s.tempEndPoint == None
    ensures AfterMouseUp(AfterMouseDown(s, p), sqrt) == AfterMouseDown(s, p)
    ensures s.currentMode != Done ==>
              AfterMouseDown(s, p).isDrawingCircle || AfterMouseDown(s, p).isDrawing
  {
  }

  /** The rim point and radius a move sets survive a later press: a press in
      "circle" mode moves the centre but keeps them, so the release after it
      commits a circle at the new centre with the radius measured from the
      old one. */
  lemma PressKeepsPendingRadius(s: DrawState, c: Point, sqrt: real -> real)
    requires Inv(s, sqrt)
    requires s.currentMode == CircleMode && s.tempCircleEndPoint.Some?
    ensures var s' := AfterMouseUp(AfterMouseDown(s, c), sqrt);
            && s'.currentMode == LineMode && !s'.isDrawingCircle
            && s'.circleCenter == Some(c) && s'.radius == s.radius
  {
  }

  /** A drag to a point at distance d from the centre sets the radius to d. */
  lemma DragSetsRadius(s: DrawState, p: Point, d: real, sqrt: real -> real)
    requires IsSqrt(sqrt)
    requires s.isDrawingCircle && s.circleCenter.Some?
    requires d >= 0.0 && DistSq(p, s.circleCenter.value) == Sq(d)
    ensures AfterMouseMove(s, p, sqrt).radius == Some(d)
  {
    SqrtOfSquare(sqrt, d);
  }

  /** Once both shapes are committed no event changes anything. */
  lemma DoneIsFinal(s: DrawState, p: Point, sqrt: real -> real)
    requires Inv(s, sqrt) && s.currentMode == Done
    ensures AfterMouseDown(s, p) == s
    ensures AfterMouseMove(s, p, sqrt) == s
    ensures AfterMouseUp(s, sqrt) == s
  {
  }

  /** A mouse event, with its position already converted to NDC. */
  datatype Event = Down(p: Point) | Move(p: Point) | Up

  function Step(s: DrawState, e: Event, sqrt: real -> real): DrawState
    requires s.isDrawingCircle ==> s.circleCenter.Some?
  {
    match e
    case Down(p) => AfterMouseDown(s, p)
    case Move(p) => AfterMouseMove(s, p, sqrt)
    case Up => AfterMouseUp(s, sqrt)
  }

  lemma StepPreservesInv(s: DrawState, e: Event, sqrt: real -> real)
    requires IsSqrt(sqrt) && Inv(s, sqrt)
    ensures Inv(Step(s, e, sqrt), sqrt)
  {
    match e
    case Down(p) => MouseDownPreservesInv(s, p, sqrt);
    case Move(p) => MouseMovePreservesInv(s, p, sqrt);
    case Up => MouseUpPreservesInv(s, sqrt);
  }

  /** The state after a sequence of events; every state on the way keeps Inv. */
  function Run(s: DrawState, events: seq<Event>, sqrt: real -> real): (s': DrawState)
    requires IsSqrt(sqrt) && Inv(s, sqrt)
    ensures Inv(s', sqrt)
    decreases |events|
  {
    if events == [] then s
    else
      StepPreservesInv(s, events[0], sqrt);
      Run(Step(s, events[0], sqrt), events[1..], sqrt)
  }

  function Rank(m: Mode): nat
  {
    match m
    case CircleMode => 0
    case LineMode => 1
    case Done => 2
  }

  /** The mode only moves forward: "circle", then "line", then "done". */
  lemma {:induction false} ModeOnlyAdvances(s: DrawState, events: seq<Event>, sqrt: real -> real)
    requires IsSqrt(sqrt) && Inv(s, sqrt)
    ensures Rank(Run(s, events, sqrt).currentMode) >= Rank(s.currentMode)
    decreases |events|
  {
    if events != [] {
      ModeOnlyAdvances(Step(s, events[0], sqrt), events[1..], sqrt);
    }
  }

  /** One event moves the mode at most one place forward. */
  lemma StepAdvancesByOne(s: DrawState, e: Event, sqrt: real -> real)
    requires IsSqrt(sqrt) && Inv(s, sqrt)
    ensures var r := Rank(Step(s, e, sqrt).currentMode);
            Rank(s.currentMode) <= r <= Rank(s.currentMode) + 1
  {
  }

  /** A session that starts before "done" and ends in "done" is in "line"
      mode after some prefix of its events: "done" is reached only through
      "line". */
  lemma {:induction false} DonePassesThroughLine(s: DrawState, events: seq<Event>, sqrt: real -> real)
    requires IsSqrt(sqrt) && Inv(s, sqrt) && s.currentMode != Done
    requires Run(s, events, sqrt).currentMode == Done
    ensures exists k :: 0 <= k <= |events| && Run(s, events[..k], sqrt).currentMode == LineMode
    decreases |events|
  {
    if s.currentMode == LineMode {
      assert events[..0] == [];
      assert Run(s, events[..0], sqrt) == s;
    } else {
      assert events != [];
      var s1 := Step(s, events[0], sqrt);
      StepAdvancesByOne(s, events[0], sqrt);
      StepPreservesInv(s, events[0], sqrt);
      DonePassesThroughLine(s1, events[1..], sqrt);
      var k :| 0 <= k <= |events[1..]| && Run(s1, events[1..][..k], sqrt).currentMode == LineMode;
      var pre := events[..k + 1];
      assert pre[0] == events[0];
      assert pre[1..] == events[1..][..k];
      assert Run(s, pre, sqrt) == Run(s1, events[1..][..k], sqrt);
    }
  }

  /** After "done", no sequence of events changes the state. */
  lemma {:induction false} DoneAbsorbsEvents(s: DrawState, events: seq<Event>, sqrt: real -> real)
    requires IsSqrt(sqrt) && Inv(s, sqrt) && s.currentMode == Done
    ensures Run(s, events, sqrt) == s
    decreases |events|
  {
    if events != [] {
      DoneIsFinal(s, if events[0].Up? then Point(0.0, 0.0) else events[0].p, sqrt);
      DoneAbsorbsEvents(s, events[1..], sqrt);
    }
  }

  /** In every reachable state at most one line is committed, a set radius
      is non-negative, and once a line is committed the reported points lie
      on both the committed segment and the committed circle. */
  lemma ReachableStates(events: seq<Event>, sqrt: real -> real)
    requires IsSqrt(sqrt)
    ensures var s := Run(Initial, events, sqrt);
            && |s.lines| <= 1
            && (s.radius.Some? ==> s.radius.value >= 0.0)
            && (s.currentMode == Done ==>
                  forall i :: 0 <= i < |s.intersectionPoints| ==>
                    OnSegment(s.lines[0], s.intersectionPoints[i]) &&
                    OnCircle(s.intersectionPoints[i], s.circleCenter.value, s.radius.value))
  {
    InitialInv(sqrt);
    var s := Run(Initial, events, sqrt);
    if s.currentMode == Done {
      IntersectionsOnSegmentAndCircle(s.lines[0], s.circleCenter.value, s.radius.value, sqrt);
    }
  }

  /** One circle gesture (press at c, drag to q, release) followed by one
      line gesture (press at p1, drag to p2, release) ends in "done" with
      the circle of centre c through q, the single segment p1-p2, and its
      intersections with the circle. */
  lemma {:induction false} FullSession(c: Point, q: Point, p1: Point, p2: Point, sqrt: real -> real)
    requires IsSqrt(sqrt)
    ensures var r := sqrt(DistSq(q, c));
            Run(Initial, [Down(c), Move(q), Up, Down(p1), Move(p2), Up], sqrt) ==
            DrawState(Done, false, Some(c), Some(q), Some(r), false, None, None,
                      [Segment(p1, p2)], Intersect(Segment(p1, p2), c, r, sqrt))
  {
    InitialInv(sqrt);
    var r := sqrt(DistSq(q, c));
    var seg := Segment(p1, p2);
    var events := [Down(c), Move(q), Up, Down(p1), Move(p2), Up];
    var s1 := Initial.(circleCenter := Some(c), isDrawingCircle := true);
    var s2 := s1.(tempCircleEndPoint := Some(q), radius := Some(r));
    var s3 := s2.(isDrawingCircle := false, currentMode := LineMode);
    var s4 := s3.(startPoint := Some(p1), isDrawing := true);
    var s5 := s4.(tempEndPoint := Some(p2));
    var s6 := s5.(lines := [seg], intersectionPoints := Intersect(seg, c, r, sqrt),
                  isDrawing := false, startPoint := None, tempEndPoint := None, currentMode := Done);
    assert Step(Initial, Down(c), sqrt) == s1;
    assert Step(s1, Move(q), sqrt) == s2;
    assert Step(s2, Up, sqrt) == s3;
    assert Step(s3, Down(p1), sqrt) == s4;
    assert Step(s4, Move(p2), sqrt) == s5;
    assert Step(s5, Up, sqrt) == s6;
    calc {
      Run(Initial, events, sqrt);
      { assert events[1..] == [Move(q), Up, Down(p1), Move(p2), Up]; }
      Run(s1, [Move(q), Up, Down(p1), Move(p2), Up], sqrt);
      { assert [Move(q), Up, Down(p1), Move(p2), Up][1..] == [Up, Down(p1), Move(p2), Up]; }
      Run(s2, [Up, Down(p1), Move(p2), Up], sqrt);
      { assert [Up, Down(p1), Move(p2), Up][1..] == [Down(p1), Move(p2), Up]; }
      Run(s3, [Down(p1), Move(p2), Up], sqrt);
      { assert [Down(p1), Move(p2), Up][1..] == [Move(p2), Up]; }
      Run(s4, [Move(p2), Up], sqrt);
      { assert [Move(p2), Up][1..] == [Up]; }
      Run(s5, [Up], sqrt);
      Run(s6, [], sqrt);
    }
  }

  /** Press at c1, release without a move, hover to q, press at c2 and
      release: the mouse-move handler ignores the button, so the hover sets
      the rim point, and the release commits a circle centred at c2 whose
      radius is the distance from c1 to q. */
  lemma {:induction false} StaleRadiusSession(c1: Point, q: Point, c2: Point, sqrt: real -> real)
    requires IsSqrt(sqrt)
    ensures Run(Initial, [Down(c1), Up, Move(q), Down(c2), Up], sqrt) ==
            DrawState(LineMode, false, Some(c2), Some(q), Some(sqrt(DistSq(q, c1))),
                      false, None, None, [], [])
  {
    InitialInv(sqrt);
    var r := sqrt(DistSq(q, c1));
    var s1 := Initial.(circleCenter := Some(c1), isDrawingCircle := true);
    var s2 := s1.(tempCircleEndPoint := Some(q), radius := Some(r));
    var s3 := s2.(circleCenter := Some(c2));
    var s4 := s3.(isDrawingCircle := false, currentMode := LineMode);
    assert Step(Initial, Down(c1), sqrt) == s1;
    assert Step(s1, Up, sqrt) == s1;
    assert Step(s1, Move(q), sqrt) == s2;
    assert Step(s2, Down(c2), sqrt) == s3;
    assert Step(s3, Up, sqrt) == s4;
    calc {
      Run(Initial, [Down(c1), Up, Move(q), Down(c2), Up], sqrt);
      { assert [Down(c1), Up, Move(q), Down(c2), Up][1..] == [Up, Move(q), Down(c2), Up]; }
      Run(s1, [Up, Move(q), Down(c2), Up], sqrt);
      { assert [Up, Move(q), Down(c2), Up][1..] == [Move(q), Down(c2), Up]; }
      Run(s1, [Move(q), Down(c2), Up], sqrt);
      { assert [Move(q), Down(c2), Up][1..] == [Down(c2), Up]; }
      Run(s2, [Down(c2), Up], sqrt);
      { assert [Down(c2), Up][1..] == [Up]; }
      Run(s3, [Up], sqrt);
      Run(s4, [], sqrt);
    }
  }

  /** The page's global drawing state, updated in place by the three mouse
      handlers. Positions arrive in canvas pixels, as the handlers compute
      them from the event before converting them to NDC. */
  class IntersectionApp {
    const canvas: Canvas
    const sqrt: real -> real
    const pi: real
    const cos: real -> real
    const sin: real -> real
    var currentMode: Mode
    var isDrawingCircle: bool
    var circleCenter: Option<Point>
    var tempCircleEndPoint: Option<Point>
    var radius: Option<real>
    var isDrawing: bool
    var startPoint: Option<Point>
    var tempEndPoint: Option<Point>
    var lines: seq<Segment>
    var intersectionPoints: seq<Point>
    /** The outline drawn while the circle is dragged, and the committed one. */
    var tempCircleLines: seq<Segment>
    var circleLines: seq<Segment>

    function State(): DrawState
      reads this
    {
      DrawState(currentMode, isDrawingCircle, circleCenter, tempCircleEndPoint, radius,
                isDrawing, startPoint, tempEndPoint, lines, intersectionPoints)
    }

    ghost predicate Valid()
      reads this
    {
      ValidCanvas(canvas) && IsSqrt(sqrt) && Inv(State(), sqrt)
    }

    constructor (canvas: Canvas, sqrt: real -> real, pi: real, cos: real -> real, sin: real -> real)
      requires ValidCanvas(canvas) && IsSqrt(sqrt)
      ensures Valid() && State() == Initial
      ensures tempCircleLines == [] && circleLines == []
      ensures this.canvas == canvas && this.sqrt == sqrt
      ensures this.pi == pi && this.cos == cos && this.sin == sin
    {
      this.canvas := canvas;
      this.sqrt := sqrt;
      this.pi := pi;
      this.cos := cos;
      this.sin := sin;
      tempCircleLines := [];
      circleLines := [];
      currentMode := CircleMode;
      isDrawingCircle := false;
      circleCenter := None;
      tempCircleEndPoint := None;
      radius := None;
      isDrawing := false;
      startPoint := None;
      tempEndPoint := None;
      lines := [];
      intersectionPoints := [];
      new;
      InitialInv(sqrt);
    }

    method HandleMouseDown(x: real, y: real)
      requires Valid()
      modifies this
      ensures Valid()
      ensures State() == AfterMouseDown(old(State()), ConvertToWebGLCoordinates(canvas, x, y))
      ensures unchanged(`tempCircleLines, `circleLines)
    {
      var p := ConvertToWebGLCoordinates(canvas, x, y);
      if currentMode == CircleMode {
        circleCenter := Some(p);
        isDrawingCircle := true;
      } else if currentMode == LineMode {
        startPoint := Some(p);
        isDrawing := true;
      }
      MouseDownPreservesInv(old(State()), p, sqrt);
    }

    method HandleMouseMove(x: real, y: real)
      requires Valid()
      modifies this
      ensures Valid()
      ensures State() == AfterMouseMove(old(State()), ConvertToWebGLCoordinates(canvas, x, y), sqrt)
      ensures old(isDrawingCircle) ==> IsOutline(tempCircleLines, circleCenter.value, radius.value, pi, cos, sin)
      ensures !old(isDrawingCircle) ==> tempCircleLines == old(tempCircleLines)
      ensures circleLines == old(circleLines)
    {
      if !isDrawingCircle && !isDrawing {
        return;
      }
      var p := ConvertToWebGLCoordinates(canvas, x, y);
      if isDrawingCircle {
        tempCircleEndPoint := Some(p);
        radius := Some(sqrt(DistSq(p, circleCenter.value)));
        tempCircleLines := Tessellate(circleCenter.value, radius.value, pi, cos, sin);
      }
      if isDrawing {
        tempEndPoint := Some(p);
      }
      MouseMovePreservesInv(old(State()), p, sqrt);
    }

    method HandleMouseUp()
      requires Valid()
      modifies this
      ensures Valid()
      ensures State() == AfterMouseUp(old(State()), sqrt)
      ensures old(isDrawingCircle && tempCircleEndPoint.Some?) ==>
                IsOutline(circleLines, circleCenter.value, radius.value, pi, cos, sin) && tempCircleLines == []
      ensures !old(isDrawingCircle && tempCircleEndPoint.Some?) ==> unchanged(`tempCircleLines, `circleLines)
    {
      if isDrawingCircle && circleCenter.Some? && tempCircleEndPoint.Some? {
        circleLines := Tessellate(circleCenter.value, radius.value, pi, cos, sin);
        tempCircleLines := [];
        isDrawingCircle := false;
        currentMode := LineMode;
      }
      if isDrawing && startPoint.Some? && tempEndPoint.Some? {
        lines := lines + [Segment(startPoint.value, tempEndPoint.value)];
        intersectionPoints := ComputeIntersectionPoints(lines, circleCenter, radius, sqrt);
        isDrawing := false;
        startPoint := None;
        tempEndPoint := None;
        currentMode := Done;
      }
      MouseUpPreservesInv(old(State()), sqrt);
    }
  }
}
