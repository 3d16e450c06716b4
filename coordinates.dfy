/** Conversion from canvas pixel coordinates to WebGL normalised device
    coordinates (NDC), as used by every mouse handler of the exercise.
    Pixel (0, 0) is the top-left corner of the canvas and (width, height)
    the bottom-right one; in NDC the bottom-left corner is (-1, -1) and the
    top-right one (1, 1), so the y axis is flipped. */
module Coordinates {
  import opened Algebra
  import opened Geometry

  /** The canvas size in pixels. */
  datatype Canvas = Canvas(width: real, height: real)

  predicate ValidCanvas(canvas: Canvas)
  {
    canvas.width > 0.0 && canvas.height > 0.0
  }

  /** convertToWebGLCoordinates(x, y). */
  function ConvertToWebGLCoordinates(canvas: Canvas, x: real, y: real): (p: Point)
    requires ValidCanvas(canvas)
    ensures 0.0 <= x <= canvas.width ==> -1.0 <= p.x <= 1.0
    ensures 0.0 <= y <= canvas.height ==> -1.0 <= p.y <= 1.0
  {
    UnitFraction(x, canvas.width);
    UnitFraction(y, canvas.height);
    Point((x / canvas.width) * 2.0 - 1.0, -((y / canvas.height) * 2.0 - 1.0))
  }

  /** A coordinate inside [0, size] is a fraction of the size between 0 and 1. */
  lemma UnitFraction(v: real, size: real)
    requires size > 0.0
    ensures 0.0 <= v <= size ==> 0.0 <= v / size <= 1.0
  {
    if 0.0 <= v <= size {
      DivTimes(v, size);
    }
  }

  /** The inverse conversion, from NDC back to canvas pixels. */
  function ConvertToCanvasCoordinates(canvas: Canvas, p: Point): (xy: (real, real))
    requires ValidCanvas(canvas)
  {
    (PixelAt((p.x + 1.0) / 2.0, canvas.width), PixelAt((1.0 - p.y) / 2.0, canvas.height))
  }

  /** The pixel at the given fraction of a canvas dimension. */
  function PixelAt(fraction: real, size: real): real
  {
    fraction * size
  }

  lemma PixelAtFraction(fraction: real, size: real)
    requires size != 0.0
    ensures PixelAt(fraction, size) / size == fraction
  {
    TimesDiv(fraction, size);
  }

  lemma FractionAtPixel(v: real, size: real)
    requires size != 0.0
    ensures PixelAt(v / size, size) == v
  {
    DivTimes(v, size);
  }

  /** The top-left pixel maps to (-1, 1) and the bottom-right one to (1, -1). */
  lemma CornersMapToCorners(canvas: Canvas)
    requires ValidCanvas(canvas)
    ensures ConvertToWebGLCoordinates(canvas, 0.0, 0.0) == Point(-1.0, 1.0)
    ensures ConvertToWebGLCoordinates(canvas, canvas.width, canvas.height) == Point(1.0, -1.0)
  {
    TimesDiv(1.0, canvas.width);
    TimesDiv(1.0, canvas.height);
  }

  /** Converting a pixel to NDC and back gives the pixel again. */
  lemma CanvasRoundTrip(canvas: Canvas, x: real, y: real)
    requires ValidCanvas(canvas)
    ensures ConvertToCanvasCoordinates(canvas, ConvertToWebGLCoordinates(canvas, x, y)) == (x, y)
  {
    var p := ConvertToWebGLCoordinates(canvas, x, y);
    assert (p.x + 1.0) / 2.0 == x / canvas.width;
    assert (1.0 - p.y) / 2.0 == y / canvas.height;
    FractionAtPixel(x, canvas.width);
    FractionAtPixel(y, canvas.height);
  }

  /** Converting an NDC point to pixels and back gives the point again, so
      the conversion is a bijection between the plane of pixels and NDC. */
  lemma WebGLRoundTrip(canvas: Canvas, p: Point)
    requires ValidCanvas(canvas)
    ensures var xy := ConvertToCanvasCoordinates(canvas, p);
            ConvertToWebGLCoordinates(canvas, xy.0, xy.1) == p
  {
    PixelAtFraction((p.x + 1.0) / 2.0, canvas.width);
    PixelAtFraction((1.0 - p.y) / 2.0, canvas.height);
  }

  /** Moving right on the canvas moves right in NDC; moving down on the
      canvas moves down in NDC (the y axis is flipped). */
  lemma ConversionOrientation(canvas: Canvas, x1: real, y1: real, x2: real, y2: real)
    requires ValidCanvas(canvas)
    ensures x1 < x2 <==> ConvertToWebGLCoordinates(canvas, x1, y1).x < ConvertToWebGLCoordinates(canvas, x2, y2).x
    ensures y1 < y2 <==> ConvertToWebGLCoordinates(canvas, x1, y1).y > ConvertToWebGLCoordinates(canvas, x2, y2).y
  {
    QuotientMonotone(x1, x2, canvas.width);
    QuotientMonotone(y1, y2, canvas.height);
  }

  lemma QuotientMonotone(u: real, v: real, size: real)
    requires size > 0.0
    ensures u < v <==> u / size < v / size
  {
    assert v / size - u / size == (v - u) / size;
    if u < v {
      assert (v - u) / size > 0.0;
    } else {
      assert (u - v) / size >= 0.0;
      assert (v - u) / size == -((u - v) / size);
    }
  }
}
