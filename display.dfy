/**
 * The screen geometry of the player's user interface: percentage-to-pixel
 * scaling, the placement of an icon's polygon around a centre, the touch
 * test of a button, and the double-buffered layer swap.
 *
 * The LCD and touch-screen library calls that draw, clear, show, hide and
 * select layers are effects outside the model, except that the swap records
 * which layer it makes visible and which it selects for drawing.
 */
module Display {
  import opened Common

  /** `LCD_LAYER_BG` and `LCD_LAYER_FG`. */
  const LcdLayerBg: int := 0
  const LcdLayerFg: int := 1

  /** The panel's size in pixels (`RK043FN48H_WIDTH` and `RK043FN48H_HEIGHT`). */
  const DisplayWidth: int := 480
  const DisplayHeight: int := 272

  /** `Point` of the LCD library: a pixel position or an offset. */
  datatype Point = Point(X: int, Y: int)

  /** `BoundingRect`: the corners `(x1, y1)` and `(x2, y2)` of a box. */
  datatype BoundingRect = BoundingRect(x1: int, y1: int, x2: int, y2: int)

  /** A touch button: its centre, the width and height of its touch area, and its touched flag. */
  datatype Button = Button(centerPosition: Point, boundaries: Point, isTouched: bool)

  /**
   * `VW_TO_PX`: a percentage of the panel's width in pixels, rounded the way
   * C's `int` division rounds. For a non-negative percentage it is the
   * largest pixel count not above that share of the width.
   */
  function VwToPx(vw: int): (px: int)
    ensures vw >= 0 ==> px >= 0 && px * 100 <= vw * DisplayWidth < (px + 1) * 100
  {
    CDiv(vw * DisplayWidth, 100)
  }

  /** `VH_TO_PX`: a percentage of the panel's height in pixels. */
  function VhToPx(vh: int): (px: int)
    ensures vh >= 0 ==> px >= 0 && px * 100 <= vh * DisplayHeight < (px + 1) * 100
  {
    CDiv(vh * DisplayHeight, 100)
  }

  /**
   * A percentage between 0 and 100 lands on the panel, 0 and 100 land on its
   * edges, and a larger percentage never lands before a smaller one.
   */
  lemma ViewportScaling(a: int, b: int)
    requires 0 <= a <= b <= 100
    ensures 0 <= VwToPx(a) <= VwToPx(b) <= DisplayWidth
    ensures 0 <= VhToPx(a) <= VhToPx(b) <= DisplayHeight
    ensures VwToPx(0) == 0 && VwToPx(100) == DisplayWidth
    ensures VhToPx(0) == 0 && VhToPx(100) == DisplayHeight
  {
  }

  /** The back, play and next buttons of the track screen. */
  function BackButton(): (b: Button)
    ensures b.centerPosition == Point(VwToPx(20), VhToPx(80)) && b.boundaries == Point(30, 30)
  {
    Button(Point(VwToPx(20), VhToPx(80)), Point(30, 30), false)
  }

  function PlayButton(): (b: Button)
    ensures b.centerPosition == Point(VwToPx(50), VhToPx(80)) && b.boundaries == Point(30, 30)
  {
    Button(Point(VwToPx(50), VhToPx(80)), Point(30, 30), false)
  }

  function NextButton(): (b: Button)
    ensures b.centerPosition == Point(VwToPx(80), VhToPx(80)) && b.boundaries == Point(30, 30)
  {
    Button(Point(VwToPx(80), VhToPx(80)), Point(30, 30), false)
  }

  /**
   * The touch test: the first touch point lies strictly between the centre
   * minus and the centre plus half the touch area, on both axes. Halving
   * rounds as C's `int` division does. So a button is touched exactly when
   * the touch is less than half its touch area away from its centre on each
   * axis.
   */
  predicate IsButtonTouched(button: Button, touch: Point): (b: bool)
    ensures b <==>
              && Abs(touch.X - button.centerPosition.X) < CDiv(button.boundaries.X, 2)
              && Abs(touch.Y - button.centerPosition.Y) < CDiv(button.boundaries.Y, 2)
  {
    var c, hx, hy := button.centerPosition, CDiv(button.boundaries.X, 2), CDiv(button.boundaries.Y, 2);
    && touch.X > c.X - hx && touch.X < c.X + hx
    && touch.Y > c.Y - hy && touch.Y < c.Y + hy
  }

  function Abs(x: int): (a: nat)
    ensures a == x || a == -x
  {
    if x < 0 then -x else x
  }

  /**
   * A touch on the edge of the area does not count, and an area narrower
   * than 2 pixels cannot be touched.
   */
  lemma TouchedExcludesEdges(button: Button, touch: Point)
    ensures var c := button.centerPosition;
            (touch.X == c.X + CDiv(button.boundaries.X, 2) || touch.X == c.X - CDiv(button.boundaries.X, 2) ||
             touch.Y == c.Y + CDiv(button.boundaries.Y, 2) || touch.Y == c.Y - CDiv(button.boundaries.Y, 2))
            ==> !IsButtonTouched(button, touch)
    ensures button.boundaries.X < 2 || button.boundaries.Y < 2 ==> !IsButtonTouched(button, touch)
  {
    if button.boundaries.X < 2 {
      assert CDiv(button.boundaries.X, 2) <= 0;
    }
    if button.boundaries.Y < 2 {
      assert CDiv(button.boundaries.Y, 2) <= 0;
    }
  }

  /**
   * On the track screen a single touch hits at most one of the back, play
   * and next buttons, and the centre of each hits that button.
   */
  lemma TrackScreenButtonsAreApart(touch: Point)
    ensures !(IsButtonTouched(BackButton(), touch) && IsButtonTouched(PlayButton(), touch))
    ensures !(IsButtonTouched(PlayButton(), touch) && IsButtonTouched(NextButton(), touch))
    ensures !(IsButtonTouched(BackButton(), touch) && IsButtonTouched(NextButton(), touch))
    ensures IsButtonTouched(BackButton(), BackButton().centerPosition)
    ensures IsButtonTouched(PlayButton(), PlayButton().centerPosition)
    ensures IsButtonTouched(NextButton(), NextButton().centerPosition)
  {
    assert VwToPx(20) == 96 && VwToPx(50) == 240 && VwToPx(80) == 384;
    assert VhToPx(80) == 217;
    assert CDiv(30, 2) == 15;
  }

  /** The box spanned by one point. */
  function PointRect(p: Point): (r: BoundingRect)
    ensures r.x1 == r.x2 == p.X && r.y1 == r.y2 == p.Y
  {
    BoundingRect(p.X, p.Y, p.X, p.Y)
  }

  /** One step of the first loop of `transform_points`: the box grown to take in `p`. */
  function Include(r: BoundingRect, p: Point): (r': BoundingRect)
    ensures r'.x1 <= r.x1 && r'.x1 <= p.X && (r'.x1 == r.x1 || r'.x1 == p.X)
    ensures r'.y1 <= r.y1 && r'.y1 <= p.Y && (r'.y1 == r.y1 || r'.y1 == p.Y)
    ensures r'.x2 >= r.x2 && r'.x2 >= p.X && (r'.x2 == r.x2 || r'.x2 == p.X)
    ensures r'.y2 >= r.y2 && r'.y2 >= p.Y && (r'.y2 == r.y2 || r'.y2 == p.Y)
  {
    BoundingRect(
      if r.x1 < p.X then r.x1 else p.X,
      if r.y1 < p.Y then r.y1 else p.Y,
      if r.x2 > p.X then r.x2 else p.X,
      if r.y2 > p.Y then r.y2 else p.Y)
  }

  /**
   * The bounding box of a non-empty list of points: the least and greatest X
   * and Y over them, each the coordinate of one of the points.
   */
  function Bounds(pts: seq<Point>): (r: BoundingRect)
    requires |pts| >= 1
    ensures forall i :: 0 <= i < |pts| ==> r.x1 <= pts[i].X <= r.x2 && r.y1 <= pts[i].Y <= r.y2
  {
    if |pts| == 1 then PointRect(pts[0])
    else
      var r := Include(Bounds(pts[..|pts| - 1]), pts[|pts| - 1]);
      assert forall i :: 0 <= i < |pts| - 1 ==> pts[..|pts| - 1][i] == pts[i];
      r
  }

  /** The width and height of a bounding box are never negative. */
  lemma BoundsSize(pts: seq<Point>)
    requires |pts| >= 1
    ensures Bounds(pts).x2 - Bounds(pts).x1 >= 0 && Bounds(pts).y2 - Bounds(pts).y1 >= 0
  {
  }

  /** Each side of the bounding box is the coordinate of one of the points. */
  lemma {:induction false} BoundsAttained(pts: seq<Point>)
    requires |pts| >= 1
    ensures var r := Bounds(pts);
            && (exists i :: 0 <= i < |pts| && pts[i].X == r.x1)
            && (exists i :: 0 <= i < |pts| && pts[i].Y == r.y1)
            && (exists i :: 0 <= i < |pts| && pts[i].X == r.x2)
            && (exists i :: 0 <= i < |pts| && pts[i].Y == r.y2)
  {
    var n := |pts|;
    if n == 1 {
      assert pts[0].X == Bounds(pts).x1;
    } else {
      var init := pts[..n - 1];
      BoundsAttained(init);
      assert forall i :: 0 <= i < n - 1 ==> init[i] == pts[i];
      var r, r0 := Bounds(pts), Bounds(init);
      assert r == Include(r0, pts[n - 1]);
    }
  }

  /**
   * The offset `transform_points` adds to every point: the centre less half
   * the box. For a box of non-negative size, the centre lies at the
   * offset plus half the width and height, rounded down.
   */
  function Offset(center: Point, box: BoundingRect): (d: Point)
    ensures box.x1 <= box.x2 ==> 2 * (center.X - d.X) <= box.x2 - box.x1 < 2 * (center.X - d.X) + 2
    ensures box.y1 <= box.y2 ==> 2 * (center.Y - d.Y) <= box.y2 - box.y1 < 2 * (center.Y - d.Y) + 2
  {
    Point(center.X - (box.x2 - box.x1) / 2, center.Y - (box.y2 - box.y1) / 2)
  }

  function Translate(p: Point, d: Point): Point
  {
    Point(p.X + d.X, p.Y + d.Y)
  }

  function TranslateRect(r: BoundingRect, d: Point): BoundingRect
  {
    BoundingRect(r.x1 + d.X, r.y1 + d.Y, r.x2 + d.X, r.y2 + d.Y)
  }

  /** Every point of `pts` moved by `d`. */
  function Moved(pts: seq<Point>, d: Point): (out: seq<Point>)
    ensures |out| == |pts|
  {
    seq(|pts|, i requires 0 <= i < |pts| => Translate(pts[i], d))
  }

  /**
   * The icon placed around `center`: every point moved by the same offset,
   * the centre less half the width and half the height of the icon's box.
   * The width and height are never negative, so C's division is Dafny's.
   */
  ghost function Transformed(center: Point, pts: seq<Point>): (out: seq<Point>)
    requires |pts| >= 1
    ensures |out| == |pts|
    ensures forall i :: 0 <= i < |pts| ==>
              out[i].X - pts[i].X == out[0].X - pts[0].X && out[i].Y - pts[i].Y == out[0].Y - pts[0].Y
  {
    Moved(pts, Offset(center, Bounds(pts)))
  }

  /** Placing an icon keeps the difference between any two of its points. */
  lemma TransformedKeepsShape(center: Point, pts: seq<Point>, i: nat, j: nat)
    requires |pts| >= 1 && i < |pts| && j < |pts|
    ensures var out := Transformed(center, pts);
            && out[i].X - out[j].X == pts[i].X - pts[j].X
            && out[i].Y - out[j].Y == pts[i].Y - pts[j].Y
  {
    var out := Transformed(center, pts);
    assert out[i] == Translate(pts[i], Offset(center, Bounds(pts)));
    assert out[j] == Translate(pts[j], Offset(center, Bounds(pts)));
  }

  /** Moving every point by `d` moves the bounding box by `d`. */
  lemma {:induction false} BoundsTranslate(pts: seq<Point>, d: Point)
    requires |pts| >= 1
    ensures Bounds(Moved(pts, d)) == TranslateRect(Bounds(pts), d)
  {
    var n := |pts|;
    if n > 1 {
      var init := pts[..n - 1];
      BoundsTranslate(init, d);
      MovedInit(pts, d);
      IncludeTranslate(Bounds(init), pts[n - 1], d);
    }
  }

  lemma MovedInit(pts: seq<Point>, d: Point)
    requires |pts| > 1
    ensures var moved := Moved(pts, d);
            moved[..|pts| - 1] == Moved(pts[..|pts| - 1], d) && moved[|pts| - 1] == Translate(pts[|pts| - 1], d)
  {
  }

  lemma IncludeTranslate(r: BoundingRect, p: Point, d: Point)
    ensures Include(TranslateRect(r, d), Translate(p, d)) == TranslateRect(Include(r, p), d)
  {
  }

  /**
   * The placed icon's box has the icon's width and height, moved by the
   * centre less half of each. So `transform_points` centres an icon on
   * `center`, to within the pixel that halving an odd size drops, exactly
   * when the icon's box has its corner at the origin.
   */
  lemma TransformedPlacement(center: Point, pts: seq<Point>)
    requires |pts| >= 1
    ensures var box, placed := Bounds(pts), Bounds(Transformed(center, pts));
            && placed.x2 - placed.x1 == box.x2 - box.x1
            && placed.y2 - placed.y1 == box.y2 - box.y1
            && placed.x1 == center.X - (box.x2 - box.x1) / 2 + box.x1
            && placed.y1 == center.Y - (box.y2 - box.y1) / 2 + box.y1
  {
    var d := Offset(center, Bounds(pts));
    BoundsTranslate(pts, d);
  }

  /** The point lists of the back, next, play and pause icons. */
  const BackIconPoints: seq<Point> := [Point(0, 15), Point(20, 0), Point(20, 30)]
  const NextIconPoints: seq<Point> := [Point(0, 0), Point(20, 15), Point(0, 30)]
  const PlayIconPoints: seq<Point> := [Point(0, 0), Point(20, 15), Point(0, 30)]
  const PauseIconPoints: seq<Point> := [Point(0, 0), Point(5, 0), Point(5, 30), Point(0, 30)]

  /**
   * Every icon of the track screen has its box's corner at the origin, so
   * each is drawn centred on its position: the arrows and the play
   * triangle are 20 by 30 pixels, each pause bar 5 by 30.
   */
  lemma TrackScreenIconsAreCentered()
    ensures Bounds(BackIconPoints) == BoundingRect(0, 0, 20, 30)
    ensures Bounds(NextIconPoints) == BoundingRect(0, 0, 20, 30)
    ensures Bounds(PlayIconPoints) == BoundingRect(0, 0, 20, 30)
    ensures Bounds(PauseIconPoints) == BoundingRect(0, 0, 5, 30)
  {
    assert BackIconPoints[..2][..1] == [Point(0, 15)];
    assert NextIconPoints[..2][..1] == [Point(0, 0)];
    assert PauseIconPoints[..3][..2][..1] == [Point(0, 0)];
  }

  /** Points each moved by the offset of the points' own box are the placed icon. */
  lemma PlacedPoints(center: Point, pts: seq<Point>, box: BoundingRect, out: seq<Point>)
    requires |pts| >= 1 && box == Bounds(pts) && |out| == |pts|
    requires forall k :: 0 <= k < |pts| ==> out[k] == Translate(pts[k], Offset(center, box))
    ensures out == Transformed(center, pts)
  {
    assert out == Moved(pts, Offset(center, box));
  }

  /**
   * The first loop of `transform_points`: the bounding box of the first
   * `pointsCount` points, starting from the first point.
   */
  method IconBounds(iconPoints: array<Point>, pointsCount: nat) returns (rect: BoundingRect)
    requires iconPoints.Length >= 1 && pointsCount <= iconPoints.Length
    ensures rect == Bounds(iconPoints[..if pointsCount == 0 then 1 else pointsCount])
  {
    rect := PointRect(iconPoints[0]);
    var i := 0;
    while i < pointsCount
      invariant i <= pointsCount
      invariant rect == Bounds(iconPoints[..if i == 0 then 1 else i])
    {
      assert iconPoints[..i + 1][..i] == iconPoints[..i];
      rect := Include(rect, iconPoints[i]);
      i := i + 1;
    }
  }

  /**
   * `transform_points`: places the first `pointsCount` points of `iconPoints`
   * around `center` in `transformed`. The first loop finds their bounding
   * box; the second writes each moved point.
   * No entry of `transformed` past `pointsCount` is written.
   */
  method TransformPoints(center: Point, iconPoints: array<Point>, pointsCount: nat, transformed: array<Point>)
    requires iconPoints.Length >= 1 && pointsCount <= iconPoints.Length && pointsCount <= transformed.Length
    requires pointsCount < 0x1_0000
    requires transformed != iconPoints
    modifies transformed
    ensures pointsCount >= 1 ==> transformed[..pointsCount] == Transformed(center, iconPoints[..pointsCount])
    ensures transformed[pointsCount..] == old(transformed[pointsCount..])
  {
    var rect := IconBounds(iconPoints, pointsCount);
    var iconWidth := rect.x2 - rect.x1;
    var iconHeight := rect.y2 - rect.y1;
    ghost var d := Offset(center, rect);
    assert d == Point(center.X - iconWidth / 2, center.Y - iconHeight / 2);
    var i := 0;
    while i < pointsCount
      invariant i <= pointsCount
      invariant forall k :: 0 <= k < i ==> transformed[k] == Translate(iconPoints[k], d)
      invariant forall k :: i <= k < transformed.Length ==> transformed[k] == old(transformed[k])
    {
      transformed[i] := Point(center.X + iconPoints[i].X - iconWidth / 2, center.Y + iconPoints[i].Y - iconHeight / 2);
      i := i + 1;
    }
    assert transformed[pointsCount..] == old(transformed[pointsCount..]);
    if pointsCount >= 1 {
      assert forall k :: 0 <= k < pointsCount ==> transformed[..pointsCount][k] == Translate(iconPoints[..pointsCount][k], d);
      PlacedPoints(center, iconPoints[..pointsCount], rect, transformed[..pointsCount]);
    }
  }

  /** C's `!` on an `int`: 1 for 0, else 0. */
  function LogicalNot(x: int): (r: int)
    ensures r == 0 || r == 1
    ensures r == 1 <==> x == 0
  {
    if x == 0 then 1 else 0
  }

  /** Negating twice gives back exactly the values 0 and 1. */
  lemma LogicalNotTwice(x: int)
    ensures LogicalNot(LogicalNot(x)) == x <==> x == LcdLayerBg || x == LcdLayerFg
  {
  }

  /**
   * The layer state of the display: `current_layer`, the layer the program
   * shows, and what the swap tells the LCD controller: which layers are
   * visible and which layer drawing goes to.
   */
  class Screen {
    var currentLayer: int
    var visible: map<int, bool>
    var selectedLayer: int

    /** At start-up the foreground layer is current; the controller's layer settings are given. */
    constructor (visible: map<int, bool>, selectedLayer: int)
      ensures currentLayer == LcdLayerFg
      ensures this.visible == visible && this.selectedLayer == selectedLayer
    {
      currentLayer := LcdLayerFg;
      this.visible := visible;
      this.selectedLayer := selectedLayer;
    }

    /**
     * `swap_screen_layers` after the wait for vertical sync: the other layer
     * becomes current and visible, the one drawn so far is hidden, and
     * drawing goes to the hidden one. The visible layer and the drawing
     * layer always differ, and two swaps bring the layers back.
     */
    method SwapScreenLayers()
      modifies this
      ensures currentLayer == LogicalNot(old(currentLayer))
      ensures visible == old(visible)[currentLayer := true][LogicalNot(currentLayer) := false]
      ensures selectedLayer == LogicalNot(currentLayer)
      ensures selectedLayer != currentLayer && visible[currentLayer] && !visible[selectedLayer]
      ensures old(currentLayer) == LcdLayerBg || old(currentLayer) == LcdLayerFg ==> selectedLayer == old(currentLayer)
    {
      currentLayer := LogicalNot(currentLayer);
      visible := visible[currentLayer := true];
      visible := visible[LogicalNot(currentLayer) := false];
      selectedLayer := LogicalNot(currentLayer);
    }
  }
}
