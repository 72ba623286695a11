/** The overlay canvas of the client (public/app.js): clearCanvas,
    fitCanvasToImage and drawBoxes, as exact arithmetic over reals. */
module Overlay {
  import opened Detections
  import Presenter

  /** The preview image: its natural (pixel) size, 0 until an image has
      loaded, and its laid-out size on screen. */
  datatype ImageView = ImageView(naturalWidth: nat, naturalHeight: nat, clientWidth: real, clientHeight: real)

  /** A stroked rectangle in canvas coordinates. */
  datatype Rect = Rect(x: real, y: real, w: real, h: real)

  /** One drawn detection: its rectangle and the label chip above it. */
  datatype Shape = Shape(rect: Rect, labelX: real, labelY: real, caption: string)

  /** The drawing surface: its size and what is drawn on it, in order. */
  datatype Canvas = Canvas(width: int, height: int, shapes: seq<Shape>)

  /** clearCanvas: the surface shrunk to 1x1 and blank. */
  const Cleared := Canvas(1, 1, [])

  /** Height of the label chip and its gap above the box. */
  const ChipHeight: real := 18.0
  const ChipGap: real := 2.0

  /** fitCanvasToImage, one axis: Math.max(1, Math.floor(client)). */
  function CanvasSide(client: real): (n: int)
    ensures n >= 1
    ensures client >= 1.0 ==> n as real <= client < n as real + 1.0
    ensures client < 1.0 ==> n == 1
  {
    var f := client.Floor;
    if f < 1 then 1 else f
  }

  /** A box in image pixels scaled into canvas coordinates. */
  function MapBox(b: Box, sx: real, sy: real): (r: Rect)
    ensures r.x == b.x1 * sx && r.x + r.w == b.x2 * sx
    ensures r.y == b.y1 * sy && r.y + r.h == b.y2 * sy
  {
    Rect(b.x1 * sx, b.y1 * sy, (b.x2 - b.x1) * sx, (b.y2 - b.y1) * sy)
  }

  /** The inverse scaling, from canvas coordinates back to image pixels. */
  function UnmapRect(r: Rect, sx: real, sy: real): Box
    requires sx != 0.0 && sy != 0.0
  {
    Box(r.x / sx, r.y / sy, (r.x + r.w) / sx, (r.y + r.h) / sy)
  }

  lemma UnmapMapBox(b: Box, sx: real, sy: real)
    requires sx != 0.0 && sy != 0.0
    ensures UnmapRect(MapBox(b, sx, sy), sx, sy) == b
  {
    var r := MapBox(b, sx, sy);
    assert r.x / sx == b.x1 by { assert (b.x1 * sx) / sx == b.x1; }
    assert r.y / sy == b.y1 by { assert (b.y1 * sy) / sy == b.y1; }
    assert (r.x + r.w) / sx == b.x2 by { assert (b.x2 * sx) / sx == b.x2; }
    assert (r.y + r.h) / sy == b.y2 by { assert (b.y2 * sy) / sy == b.y2; }
  }

  /** The top of the label chip: above the box, clamped to the canvas top. */
  function LabelY(ry: real): (y: real)
    ensures y >= 0.0
    ensures y >= ry - ChipHeight - ChipGap
    ensures y == 0.0 || y == ry - ChipHeight - ChipGap
  {
    var above := ry - ChipHeight - ChipGap;
    if above > 0.0 then above else 0.0
  }

  function ShapeOf(d: Detection, sx: real, sy: real): Shape {
    var r := MapBox(d.bbox, sx, sy);
    Shape(r, r.x, LabelY(r.y), NameText(d.className) + " " + Presenter.ConfToPct(d.confidence))
  }

  function Shapes(dets: seq<Detection>, sx: real, sy: real): seq<Shape> {
    seq(|dets|, i requires 0 <= i < |dets| => ShapeOf(dets[i], sx, sy))
  }

  /** Nothing to draw: boxes hidden, no detections, or no image size yet. */
  predicate ClearsCanvas(show: bool, dets: seq<Detection>, img: ImageView) {
    !show || |dets| == 0 || img.naturalWidth == 0 || img.naturalHeight == 0
  }

  /** The horizontal and vertical scale for a canvas of `w` by `h`. */
  function ScaleX(w: int, img: ImageView): real
    requires img.naturalWidth > 0
  {
    w as real / img.naturalWidth as real
  }

  function ScaleY(h: int, img: ImageView): real
    requires img.naturalHeight > 0
  {
    h as real / img.naturalHeight as real
  }

  /** The canvas drawBoxes leaves behind; it depends on its inputs only. */
  function Render(show: bool, dets: seq<Detection>, img: ImageView): Canvas {
    if ClearsCanvas(show, dets, img) then Cleared
    else
      var w, h := CanvasSide(img.clientWidth), CanvasSide(img.clientHeight);
      Canvas(w, h, Shapes(dets, ScaleX(w, img), ScaleY(h, img)))
  }

  /** drawBoxes: clear on the two early exits, otherwise fit the canvas to
      the displayed image and draw one shape per detection, in order. */
  method DrawBoxes(show: bool, dets: seq<Detection>, img: ImageView) returns (c: Canvas)
    ensures c == Render(show, dets, img)
  {
    if !show || |dets| == 0 {
      return Cleared;
    }
    if img.naturalWidth == 0 || img.naturalHeight == 0 {
      return Cleared;
    }
    var w, h := CanvasSide(img.clientWidth), CanvasSide(img.clientHeight);
    var sx, sy := ScaleX(w, img), ScaleY(h, img);
    var drawn: seq<Shape> := [];
    for i := 0 to |dets|
      invariant |drawn| == i
      invariant forall j :: 0 <= j < i ==> drawn[j] == ShapeOf(dets[j], sx, sy)
    {
      drawn := drawn + [ShapeOf(dets[i], sx, sy)];
    }
    c := Canvas(w, h, drawn);
  }

  /** The canvas is cleared exactly in the three cases drawBoxes tests. */
  lemma RenderClearsIff(show: bool, dets: seq<Detection>, img: ImageView)
    ensures Render(show, dets, img) == Cleared <==> ClearsCanvas(show, dets, img)
  {
    if !ClearsCanvas(show, dets, img) {
      assert |Render(show, dets, img).shapes| == |dets| > 0;
    }
  }

  /** When drawn, the canvas has the displayed size and detection k is drawn
      k-th, at its corners scaled by canvas size over natural size, with its
      label chip never above the canvas. */
  lemma RenderShape(show: bool, dets: seq<Detection>, img: ImageView, k: nat)
    requires !ClearsCanvas(show, dets, img) && k < |dets|
    ensures var c := Render(show, dets, img);
            var sx := c.width as real / img.naturalWidth as real;
            var sy := c.height as real / img.naturalHeight as real;
            && c.width == CanvasSide(img.clientWidth) && c.height == CanvasSide(img.clientHeight)
            && |c.shapes| == |dets|
            && c.shapes[k].rect.x == dets[k].bbox.x1 * sx
            && c.shapes[k].rect.y == dets[k].bbox.y1 * sy
            && c.shapes[k].rect.x + c.shapes[k].rect.w == dets[k].bbox.x2 * sx
            && c.shapes[k].rect.y + c.shapes[k].rect.h == dets[k].bbox.y2 * sy
            && c.shapes[k].labelY >= 0.0
  {
  }

  /** A box that lies inside the image is drawn inside the canvas. */
  lemma BoxInsideImageStaysOnCanvas(b: Box, img: ImageView)
    requires img.naturalWidth > 0 && img.naturalHeight > 0
    requires 0.0 <= b.x1 <= b.x2 <= img.naturalWidth as real
    requires 0.0 <= b.y1 <= b.y2 <= img.naturalHeight as real
    ensures var w, h := CanvasSide(img.clientWidth), CanvasSide(img.clientHeight);
            var r := MapBox(b, ScaleX(w, img), ScaleY(h, img));
            && 0.0 <= r.x && 0.0 <= r.w && r.x + r.w <= w as real
            && 0.0 <= r.y && 0.0 <= r.h && r.y + r.h <= h as real
  {
    var w, h := CanvasSide(img.clientWidth), CanvasSide(img.clientHeight);
    var sx, sy := ScaleX(w, img), ScaleY(h, img);
    var nw, nh := img.naturalWidth as real, img.naturalHeight as real;
    assert sx > 0.0 && sy > 0.0;
    assert nw * sx == w as real;
    assert nh * sy == h as real;
    ScaleMonotone(0.0, b.x1, sx);
    ScaleMonotone(b.x1, b.x2, sx);
    ScaleMonotone(b.x2, nw, sx);
    ScaleMonotone(0.0, b.y1, sy);
    ScaleMonotone(b.y1, b.y2, sy);
    ScaleMonotone(b.y2, nh, sy);
  }

  lemma ScaleMonotone(a: real, b: real, s: real)
    requires a <= b && s > 0.0
    ensures a * s <= b * s
  {
    assert (b - a) * s >= 0.0;
  }

  /** The example of a half-size display: natural 400x300 shown at 200x150
      draws the box (100, 100, 200, 200) at (50, 50) with size 50x50. */
  lemma HalfScaleExample(d: Detection)
    requires d.bbox == Box(100.0, 100.0, 200.0, 200.0)
    ensures Render(true, [d], ImageView(400, 300, 200.0, 150.0)).shapes[0].rect == Rect(50.0, 50.0, 50.0, 50.0)
  {
    assert CanvasSide(200.0) == 200 && CanvasSide(150.0) == 150;
  }
}
