# Line–circle intersection and mode controls, modelled in Dafny

This project models the two pieces of logic in a set of WebGL exercises.
Everything else in those exercises is graphics plumbing.

- **hw03 intersection.** The user drags out one circle and then one line
  segment with the mouse. The page intersects the segment with the circle.
  The model covers four parts:
  - the pixel-to-NDC conversion;
  - the quadratic the segment and circle solve, and the roots it keeps
    (`computeIntersectionPoints`);
  - the 100-chord outline of the circle;
  - the state machine of the three mouse handlers over the page's globals
    (`currentMode` "circle" → "line" → "done", the two drawing flags, the
    temporary and committed points, `lines` and `intersectionPoints`).
- **hw07 cone.** The keydown handler switches three two-valued modes:
  - arcball CAMERA/MODEL;
  - shading FLAT/SMOOTH;
  - rendering PHONG/GOURAUD.

  `render()` picks the shader and the matrices from those modes.

Files:

| file | contents |
|---|---|
| `options.dfy` | the `Option` type for the page's nullable globals |
| `algebra.dfy` | small facts about squares and quotients of reals that the proofs use |
| `geometry.dfy` | points, segments, squared distance, the segment's parametrisation |
| `coordinates.dfy` | `convertToWebGLCoordinates` and its inverse |
| `intersection.dfy` | `computeIntersectionPoints`: coefficients, discriminant, roots, points |
| `circle_lines.dfy` | the chord loop that builds `circleLines` and `tempCircleLines` |
| `drawing.dfy` | the mouse handlers as functions on a state value and as the methods of a class |
| `cone_controls.dfy` | the hw07 keydown handler and `render()`'s mode branches |

## How the model is built

**Real arithmetic and `Math.sqrt`.** Arithmetic is over `real`. `Math.sqrt`
is a parameter `sqrt: real -> real`. The predicate `Intersection.IsSqrt`
states what the proofs need of it: it is non-negative, and its square gives
back its argument on non-negative inputs. `Math.cos`, `Math.sin` and
`Math.PI` are parameters in the same way (`CircleLines.IsCosSin`).

**Zero-length segment.** The pointer can return to its starting point before
the button is released, so the committed segment can have length zero.
Then a = 0, b = 0 and D = 0, and both roots are 0/0, which is NaN.
`inRange(NaN)` is false, so the source returns no point. The model returns
the empty sequence when a = 0 (`Intersection.Roots`).

**Mouse handlers.** Each handler has two forms:
- a function on a `DrawState` value (`AfterMouseDown`, `AfterMouseMove`,
  `AfterMouseUp`), with an invariant `Inv` that each of them preserves;
- a method of the class `IntersectionApp`, whose fields are the page's
  globals. Each method changes the fields in place and ensures the new
  state is the function applied to the old one.

The methods take canvas pixels and convert them the way the handlers do.

**Keydown handler.** The class `ConeApp` holds the hw07 globals
`arcBallMode`, `shadingMode`, `renderingMode`, `modelMatrix` and
`viewMatrix`.
- The arcball's matrices are a parameter (`ArcballReading`).
- Calls on the arcball, the cone, the lamp and the text overlays are
  returned as a list of `Effect`s.
- `KeyDown` and `Render` are proved equal to the functions `AfterKey`,
  `KeyEffects`, `AfterRender` and `RenderEffects`.

**Behaviour of the handlers worth knowing:**
- **Pointer-down.** A press sets only the centre (in "circle" mode) or the
  start point (in "line" mode) and the drawing flag. The radius and the end
  point are set by the next move (hw03/hw03_intersection.js:151-157,
  hw03/hw03_intersection.js:169-191).
- **Release.** A release commits the circle only if `tempCircleEndPoint`
  has been set by a move, and the line only if `tempEndPoint` has been set
  by a move (hw03/hw03_intersection.js:197, hw03/hw03_intersection.js:217).
  Otherwise it commits nothing and leaves the drawing flag set
  (`Drawing.ClickWithoutMoveCommitsNothing`).
- **Stale rim point.** `handleMouseMove` ignores the button, and
  `tempCircleEndPoint` is never cleared. After a press and a release
  without a move, hovering sets the rim point and radius. A second press
  then moves the centre but keeps that radius, and its release commits a
  circle at the new centre with the radius measured from the old one
  (`Drawing.PressKeepsPendingRadius`, `Drawing.StaleRadiusSession`).
- **Zero-length segment.** `computeIntersectionPoints` does not guard
  a = 0. Its roots are then NaN and fail the range test, so the model
  returns no points.

## Model

| member | source | states |
|---|---|---|
| Geometry.DistSq | hw03/hw03_intersection.js:172-175 | the squared Euclidean distance is never negative and is zero exactly when the two points coincide |
| Coordinates.ConvertToWebGLCoordinates | hw03/hw03_intersection.js:89-94 | a pixel inside the canvas maps to NDC coordinates in [-1, 1] on each axis |
| Coordinates.CornersMapToCorners | hw03/hw03_intersection.js:86-94 | the top-left pixel (0,0) maps to (-1, 1) and the bottom-right pixel (width, height) maps to (1, -1) |
| Coordinates.CanvasRoundTrip | hw03/hw03_intersection.js:89-94 | the conversion is invertible: mapping a pixel to NDC and back gives the pixel again |
| Coordinates.WebGLRoundTrip | hw03/hw03_intersection.js:89-94 | every NDC point is the image of exactly the pixel the inverse gives |
| Coordinates.ConversionOrientation | hw03/hw03_intersection.js:89-94 | the x axis keeps its direction and the y axis is flipped (pixel rows grow downwards, NDC y grows upwards) |
| Intersection.LeadingCoefficient | hw03/hw03_intersection.js:103-108 | a = dx² + dy² is the squared length of the segment, is ≥ 0, and is 0 exactly for a zero-length segment |
| Intersection.Roots | hw03/hw03_intersection.js:112-135 | at most two parameters are kept, all in [0, 1]; a negative discriminant or a zero-length segment (NaN roots) gives none |
| Intersection.PointsAt | hw03/hw03_intersection.js:126-134 | each kept parameter t becomes exactly the point start + t·(end − start), in the same order |
| Intersection.Intersect | hw03/hw03_intersection.js:99-137 | the intersection of one segment and one circle has at most two points |
| Intersection.ComputeIntersectionPoints | hw03/hw03_intersection.js:96-138 | no committed line, no centre or an undefined radius gives the empty result; otherwise at most two points |
| Intersection.OneCommittedLine | hw03/hw03_intersection.js:97-101 | with a committed line, a centre and a radius, the page intersects exactly `lines[0]` with that circle |
| Intersection.CompletedSquare | hw03/hw03_intersection.js:108-112 | completing the square: 4a·(a t² + b t + c) = (2a t + b)² − D |
| Intersection.RootShift | hw03/hw03_intersection.js:120-122 | at either formula root, (2a t + b)² equals the square of the chosen √D |
| Intersection.FormulaSolves | hw03/hw03_intersection.js:120-122 | t1 = (−b − √D)/2a and t2 = (−b + √D)/2a are roots of a t² + b t + c whenever √D² = D |
| Intersection.SolutionIsFormula | hw03/hw03_intersection.js:112-122 | every real root of the quadratic is t1 or t2, so the formula misses none |
| Intersection.SolutionNeedsDiscriminant | hw03/hw03_intersection.js:112-118 | a quadratic with a root has D ≥ 0, so rejecting D < 0 loses no intersection |
| Intersection.FormulaOrder | hw03/hw03_intersection.js:120-122 | for a > 0, t1 ≤ t2, and t1 = t2 exactly when √D = 0 |
| Intersection.RootsSolve | hw03/hw03_intersection.js:112-135 | every kept parameter solves the quadratic |
| Intersection.RootsComplete | hw03/hw03_intersection.js:112-135 | every solution in [0, 1] of a quadratic with a ≠ 0 is kept |
| Intersection.RootsAscending | hw03/hw03_intersection.js:120-135 | the kept parameters are strictly increasing: t1 before t2 and a repeated root only once |
| Intersection.TangentKeptOnce | hw03/hw03_intersection.js:131 | a zero discriminant (tangent) contributes at most one point |
| Intersection.OnCircleIffRoot | hw03/hw03_intersection.js:103-112 | the squared distance from P(t) to the centre, minus r², equals a t² + b t + c, so P(t) is on the circle exactly when t solves the quadratic |
| Intersection.IntersectionsOnSegmentAndCircle | hw03/hw03_intersection.js:124-135 | every returned point is start + t·(end − start) for some t in [0, 1] and is at distance r from the centre |
| Intersection.IntersectionsComplete | hw03/hw03_intersection.js:96-138 | every point of a non-degenerate segment that lies on the circle is returned |
| Intersection.DegenerateSegmentMisses | hw03/hw03_intersection.js:108-122 | a zero-length segment yields no points |
| Intersection.DistanceFromStart | hw03/hw03_intersection.js:126-134 | the point at parameter t is at squared distance t² times the squared segment length from the segment's start |
| Intersection.IntersectionsOrdered | hw03/hw03_intersection.js:126-135 | when two points are returned, "Point 1" is nearer the segment's start than "Point 2" |
| Intersection.CrossingExample | hw03/hw03_intersection.js:96-138 | the segment (−2,0)–(2,0) meets the unit circle at (−1,0) then (1,0) |
| Intersection.MissExample | hw03/hw03_intersection.js:96-138 | the segment (2,0)–(3,0) misses the unit circle |
| Intersection.TangentExample | hw03/hw03_intersection.js:96-138 | the segment (−1,1)–(1,1) touches the unit circle once, at (0,1) |
| CircleLines.Tessellate | hw03/hw03_intersection.js:177-186 | the loop builds exactly 100 chords, the i-th from the rim point at angle θ·i to the one at θ·(i+1), θ = 2π/100 |
| CircleLines.RimPointOnCircle | hw03/hw03_intersection.js:181-184 | with cos² + sin² = 1, each rim point (cx + r cos, cy + r sin) lies on the circle |
| CircleLines.ChordsOnCircle | hw03/hw03_intersection.js:178-186 | both ends of every chord are on the circle and each chord starts where the previous one ends |
| CircleLines.OutlineCloses | hw03/hw03_intersection.js:199-207 | with cos and sin 2π-periodic, the last chord ends where the first begins |
| Drawing.AfterMouseDown | hw03/hw03_intersection.js:141-158 | a press sets the centre and the circle flag only in "circle" mode, the start point and the line flag only in "line" mode, and changes nothing in "done" mode or elsewhere |
| Drawing.AfterMouseMove | hw03/hw03_intersection.js:160-194 | a move does nothing unless a drawing flag is set; while drawing a circle it sets the rim point and the radius to √(distance²) from the centre; while drawing a line it sets the end point; nothing else changes |
| Drawing.AfterMouseUp | hw03/hw03_intersection.js:196-249 | a release clears the circle flag exactly when the circle is committed (flag set, centre and rim point present), and then leaves "circle" mode; it pushes the segment start–end and computes its intersections exactly when a line is being drawn with both points set, clearing the line state and entering "done"; otherwise the line state, lines and intersections are untouched; with neither commit nothing changes |
| Drawing.InitialInv | hw03/hw03_intersection.js:15-31 | the page starts in "circle" mode with nothing drawn, a state that satisfies the invariant |
| Drawing.MouseDownPreservesInv | hw03/hw03_intersection.js:141-158 | a press keeps the invariant (flags agree with the mode, at most one committed line, intersections of the committed shapes) |
| Drawing.MouseMovePreservesInv | hw03/hw03_intersection.js:160-194 | a move keeps the invariant; in particular the radius it sets is ≥ 0 |
| Drawing.MouseUpPreservesInv | hw03/hw03_intersection.js:196-249 | a release keeps the invariant; after the line commit `lines` has exactly one entry and `intersectionPoints` are its intersections with the committed circle |
| Drawing.MouseUpCommitsCircle | hw03/hw03_intersection.js:197-215 | releasing after a circle drag clears the circle flag, switches to "line" mode and keeps centre and radius |
| Drawing.MouseUpCommitsLine | hw03/hw03_intersection.js:217-246 | releasing after a line drag makes that segment the only line, sets the intersections to those of the segment with the committed circle, keeps the circle and enters "done" |
| Drawing.ClickWithoutMoveCommitsNothing | hw03/hw03_intersection.js:196-217 | from a state with no rim or end point pending from an earlier move, a press and release commits nothing and leaves the drawing flag set |
| Drawing.PressKeepsPendingRadius | hw03/hw03_intersection.js:151-153 | in "circle" mode with a rim point already set, a press at c and a release commit the circle centred at c with the radius set before the press |
| Drawing.DragSetsRadius | hw03/hw03_intersection.js:172-175 | dragging to a point at distance d from the centre sets the radius to exactly d |
| Drawing.DoneIsFinal | hw03/hw03_intersection.js:141-217 | in "done" mode every handler leaves the state unchanged |
| Drawing.StepPreservesInv | hw03/hw03_intersection.js:141-249 | every mouse event keeps the invariant |
| Drawing.Run | hw03/hw03_intersection.js:141-249 | every state reached by a sequence of mouse events satisfies the invariant |
| Drawing.ModeOnlyAdvances | hw03/hw03_intersection.js:151-245 | along any event sequence the mode never moves back from "line" to "circle" or from "done" to either |
| Drawing.StepAdvancesByOne | hw03/hw03_intersection.js:141-249 | one mouse event moves the mode forward by at most one place: a release that commits the circle cannot also commit a line |
| Drawing.DonePassesThroughLine | hw03/hw03_intersection.js:151-245 | a session that ends in "done" from "circle" or "line" mode is in "line" mode after some prefix of its events |
| Drawing.DoneAbsorbsEvents | hw03/hw03_intersection.js:141-249 | after "done", no sequence of events changes the state |
| Drawing.ReachableStates | hw03/hw03_intersection.js:219-226 | from the start, any event sequence leaves at most one line, a non-negative radius, and once done, intersection points that lie on both the segment and the circle |
| Drawing.FullSession | hw03/hw03_intersection.js:141-249 | press-drag-release for the circle, then for the line, ends in "done" with centre c, radius equal to the distance from c to q, the single segment p1–p2 and its intersections |
| Drawing.StaleRadiusSession | hw03/hw03_intersection.js:141-215 | press at c1, release, hover to q, press at c2, release ends in "line" mode with centre c2 and radius the distance from c1 to q |
| Drawing.IntersectionApp.constructor | hw03/hw03_intersection.js:15-31 | the globals start as declared: "circle" mode, no points, empty lists |
| Drawing.IntersectionApp.HandleMouseDown | hw03/hw03_intersection.js:141-158 | the handler converts the pixel to NDC and updates the globals as `AfterMouseDown` does, keeping the invariant |
| Drawing.IntersectionApp.HandleMouseMove | hw03/hw03_intersection.js:160-194 | the globals change as `AfterMouseMove` says, and while a circle is dragged `tempCircleLines` becomes its 100-chord outline |
| Drawing.IntersectionApp.HandleMouseUp | hw03/hw03_intersection.js:196-249 | the globals change as `AfterMouseUp` says; a circle commit stores its outline in `circleLines` and empties `tempCircleLines` |
| ConeControls.Flip | hw07/hw07_Cone.js:69-74 | the 'a' toggle always changes the arcball mode |
| ConeControls.ToggleTwiceRestores | hw07/hw07_Cone.js:68-76 | 'a' changes the arcball mode, pressing it twice restores it, and shading and rendering are unchanged |
| ConeControls.ResetIsCamera | hw07/hw07_Cone.js:77-82 | 'r' sets CAMERA from any state, idempotently, leaving the other modes |
| ConeControls.ShadingKeySetsShading | hw07/hw07_Cone.js:83-96 | 's' sets SMOOTH and 'f' sets FLAT, leave arcball and rendering modes unchanged, and are idempotent |
| ConeControls.RenderingKeySetsRendering | hw07/hw07_Cone.js:97-108 | 'p' sets PHONG and 'g' sets GOURAUD, leave arcball and shading modes unchanged, and are idempotent |
| ConeControls.OtherKeysIgnored | hw07/hw07_Cone.js:67-109 | any key other than a, r, s, f, g, p changes no mode |
| ConeControls.KeysOfDifferentModesCommute | hw07/hw07_Cone.js:68-108 | a shading key commutes with a rendering key and with 'a' and 'r': the modes are independent |
| ConeControls.RunModesAppend | hw07/hw07_Cone.js:67-109 | running two key sequences one after the other is running their concatenation |
| ConeControls.ShadingUntouched | hw07/hw07_Cone.js:83-96 | a key sequence without 's' or 'f' leaves the shading mode as it was |
| ConeControls.LastShadingKeyWins | hw07/hw07_Cone.js:83-96 | after any key sequence the shading mode is the one set by the last 's' or 'f' |
| ConeControls.RenderingUntouched | hw07/hw07_Cone.js:97-108 | a key sequence without 'g' or 'p' leaves the rendering mode as it was |
| ConeControls.LastRenderingKeyWins | hw07/hw07_Cone.js:97-108 | after any key sequence the rendering mode is the one set by the last 'g' or 'p' |
| ConeControls.ArcballParity | hw07/hw07_Cone.js:68-76 | without 'r', the arcball mode returns to where it started exactly when 'a' was pressed an even number of times |
| ConeControls.LastResetWins | hw07/hw07_Cone.js:68-82 | after the last 'r', the arcball mode is MODEL exactly when 'a' was pressed an odd number of times since |
| ConeControls.EveryModesReachable | hw07/hw07_Cone.js:34-109 | each of the eight mode combinations is reachable from CAMERA/FLAT/PHONG by some key sequence |
| ConeControls.ShaderFor | hw07/hw07_Cone.js:156-169 | the Phong shader is chosen exactly when the rendering mode is PHONG |
| ConeControls.AfterRender | hw07/hw07_Cone.js:147-153 | render keeps the modes, stores one of the arcball's view matrices, and changes the model matrix only in MODEL mode |
| ConeControls.RenderEffects | hw07/hw07_Cone.js:155-174 | render draws the cone and then the lamp with the same view matrix, the cone with the Phong shader exactly in PHONG mode |
| ConeControls.RenderUsesArcball | hw07/hw07_Cone.js:147-169 | the cone is drawn with the matrices render stores and the camera position (0,0,3); in MODEL mode with the arcball's rotation and camera-distance view, in CAMERA mode with the kept model matrix and the arcball's view |
| ConeControls.AfterKey | hw07/hw07_Cone.js:66-110 | the handler's modes are those of the mode machine; 'r' resets the model matrix to the identity; keys that do not render leave the view matrix; the model matrix changes only by 'r' or by a render in MODEL mode |
| ConeControls.KeyEffects | hw07/hw07_Cone.js:67-109 | an unhandled key makes no call at all |
| ConeControls.OverlayShowsNewModes | hw07/hw07_Cone.js:75-106 | every overlay update shows the new modes, on the arcball line for 'a' and 'r' and on the shading line otherwise |
| ConeControls.ModeKeysRedraw | hw07/hw07_Cone.js:83-108 | 's', 'f', 'g' and 'p' end by rendering with the new modes; 'a' and 'r' draw nothing |
| ConeControls.ShadingKeysChooseNormals | hw07/hw07_Cone.js:83-95 | 's' copies the vertex normals and 'f' the face normals, then the normals are updated; vertex normals are used exactly when the new mode is SMOOTH |
| ConeControls.ModeKeysIdempotent | hw07/hw07_Cone.js:83-108 | pressing 's', 'f', 'g' or 'p' twice, with the arcball unmoved, gives the same state and the same calls as pressing it once |
| ConeControls.ResetRestoresStart | hw07/hw07_Cone.js:77-82 | 'r' resets the arcball first, then restores the starting arcball mode and the identity model matrix |
| ConeControls.CameraModeKeepsModelRotation | hw07/hw07_Cone.js:147-153 | switching from MODEL back to CAMERA keeps the last arcball rotation as the model matrix |
| ConeControls.ConeApp.constructor | hw07/hw07_Cone.js:30-36 | the globals start in CAMERA, FLAT and PHONG with the identity model matrix |
| ConeControls.ConeApp.Render | hw07/hw07_Cone.js:142-178 | render updates the matrices as `AfterRender` says and makes the calls `RenderEffects` lists |
| ConeControls.ConeApp.KeyDown | hw07/hw07_Cone.js:66-110 | the handler updates the globals as `AfterKey` says and makes the calls `KeyEffects` lists |

## Left out

- Floating point: all arithmetic is over the reals. IEEE-754 rounding, and the exact-equality edge cases of `t >= 0`, `t <= 1` and `t2 !== t1`, are not modelled. The one NaN case (a zero-length segment) is modelled explicitly.
- `Math.sqrt`, `Math.cos`, `Math.sin` and `Math.PI` are parameters. Only the properties the proofs need are assumed of them, as requirements (`IsSqrt`, `IsCosSin`, periodicity).
- Event coordinates: `event.clientX - rect.left` and `event.clientY - rect.top` come from the browser. The class methods take the resulting canvas-local pixel coordinates.
- Text overlays in hw03 (`setupText` with `toFixed(2)` formatting of the circle, the segment and the intersection count) are presentation only and are not modelled. In hw07 the overlay strings are modelled, but the text rendering is not.
- `render()` in hw03 and every WebGL call (buffers, shaders, viewport, drawing) are not modelled.
- The `requestAnimationFrame(render)` loop in hw07 is not modelled; `ConeApp.Render` models one frame.
- The hw07 `Arcball`, `Cone`, `Cube` and `mat4`/`vec3` objects are foreign code. Their matrices are parameters (`ArcballReading`), and calls on them are recorded as effects without being executed. `main()`'s shader uniforms, projection and lamp placement are set once and are not modelled.
- `ConeControls.Mat4` is an uninterpreted sequence of reals. Only the identity from `mat4.create()` is given a value.
- The remaining exercises are not part of this model: hw01, hw04, hw05 and hw09. They consist of graphics-library calls and floating-point animation.
- `Drawing.IntersectionApp.HandleMouseMove`: the `render()` call at the end of the handler is not modelled.
- `Drawing.IntersectionApp.HandleMouseUp`: the `render()` call and the three overlay texts are not modelled.
