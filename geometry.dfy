/** Coordinates of the board: the pan/zoom transform between screen and board
    space, the drag displacement and the placement of a connector's hitbox.
    Coordinates are exact reals; floating-point rounding is not modelled. */
module Geometry {

  datatype Point = Point(x: real, y: real)

  /** A `getBoundingClientRect()` result. */
  datatype Rect = Rect(left: real, top: real, width: real, height: real)

  /** The panzoom transform: screen = board * scale + (x, y). */
  datatype Transform = Transform(x: real, y: real, scale: real)

  /** The zoom bounds given to panzoom. */
  const MinZoom: real := 0.2
  const MaxZoom: real := 2.0

  /** The offset of a connector's comment label, which its hitbox must share. */
  const LabelOffset: Point := Point(0.0, 20.0)

  predicate ValidTransform(t: Transform)
  {
    MinZoom <= t.scale <= MaxZoom
  }

  function Add(p: Point, q: Point): Point { Point(p.x + q.x, p.y + q.y) }

  function Sub(p: Point, q: Point): Point { Point(p.x - q.x, p.y - q.y) }

  /** Screen cursor position to board position, as the right-click handler and
      the connection follower compute it: `(client - transform) / scale`. */
  function ToBoard(t: Transform, p: Point): Point
    requires ValidTransform(t)
  {
    Point((p.x - t.x) / t.scale, (p.y - t.y) / t.scale)
  }

  /** Board position to screen position, the CSS transform panzoom applies. */
  function ToScreen(t: Transform, b: Point): Point
  {
    Point(b.x * t.scale + t.x, b.y * t.scale + t.y)
  }

  /** The two conversions are inverse to each other under any valid transform. */
  lemma BoardScreenRoundTrip(t: Transform, p: Point)
    requires ValidTransform(t)
    ensures ToScreen(t, ToBoard(t, p)) == p
    ensures ToBoard(t, ToScreen(t, p)) == p
  {
  }

  /** The drag move listener: the old `data-x`/`data-y` plus the cursor delta
      divided by the current zoom. */
  function DragTo(from: Point, delta: Point, t: Transform): Point
    requires ValidTransform(t)
  {
    Point(from.x + delta.x / t.scale, from.y + delta.y / t.scale)
  }

  /** Dividing by the zoom keeps the node under the cursor: on screen it moves
      by exactly the cursor delta. */
  lemma DragFollowsCursor(from: Point, delta: Point, t: Transform)
    requires ValidTransform(t)
    ensures ToScreen(t, DragTo(from, delta, t)) == Add(ToScreen(t, from), delta)
  {
    var moved, expected := ToScreen(t, DragTo(from, delta, t)), Add(ToScreen(t, from), delta);
    ScreenOfDragX(from, delta, t);
    ScreenOfDragY(from, delta, t);
    assert moved == Point(moved.x, moved.y);
    assert expected == Point(expected.x, expected.y);
  }

  /** The two coordinates of the above: scaling back cancels the division. */
  lemma ScreenOfDragX(from: Point, delta: Point, t: Transform)
    requires ValidTransform(t)
    ensures ToScreen(t, DragTo(from, delta, t)).x == Add(ToScreen(t, from), delta).x
  {
    ScaleBack(from.x, delta.x, t.scale, t.x);
  }

  lemma ScreenOfDragY(from: Point, delta: Point, t: Transform)
    requires ValidTransform(t)
    ensures ToScreen(t, DragTo(from, delta, t)).y == Add(ToScreen(t, from), delta).y
  {
    ScaleBack(from.y, delta.y, t.scale, t.y);
  }

  lemma ScaleBack(a: real, d: real, s: real, o: real)
    requires s > 0.0
    ensures (a + d / s) * s + o == a * s + o + d
  {
    assert (d / s) * s == d;
    assert (a + d / s) * s == a * s + (d / s) * s;
  }

  function Abs(a: real): real
  {
    if a < 0.0 then -a else a
  }

  /** With the zoom bounded to [0.2, 2] a cursor move of d screen pixels along
      either axis moves the node between |d|/2 and 5|d| board units along it. */
  lemma DragDistanceBounds(from: Point, delta: Point, t: Transform)
    requires ValidTransform(t)
    ensures Abs(delta.x) / 2.0 <= Abs(DragTo(from, delta, t).x - from.x) <= 5.0 * Abs(delta.x)
    ensures Abs(delta.y) / 2.0 <= Abs(DragTo(from, delta, t).y - from.y) <= 5.0 * Abs(delta.y)
  {
    ScaledBounds(delta.x, t.scale);
    ScaledBounds(delta.y, t.scale);
  }

  /** Dividing by a zoom in [0.2, 2] scales a distance by a factor in [1/2, 5]. */
  lemma ScaledBounds(d: real, s: real)
    requires MinZoom <= s <= MaxZoom
    ensures Abs(d) / 2.0 <= Abs(d / s) <= 5.0 * Abs(d)
  {
    var m := Abs(d) / s;
    assert m * s == Abs(d);
    assert m >= 0.0;
    if d < 0.0 {
      assert d / s == -m;
    } else {
      assert d / s == m;
    }
    MulNonNegative(m, s - 0.2);
    MulNonNegative(m, 2.0 - s);
    assert m * 0.2 <= Abs(d) <= m * 2.0;
  }

  lemma MulNonNegative(a: real, b: real)
    requires a >= 0.0 && b >= 0.0
    ensures a * b >= 0.0
  {
  }

  function Center(r: Rect): Point
  {
    Point(r.left + r.width / 2.0, r.top + r.height / 2.0)
  }

  /** `updateAllHitboxPositions`: the midpoint of the two node centres, shifted by
      the label offset, relative to the board's top-left corner. */
  function HitboxPosition(source: Rect, target: Rect, board: Rect): Point
  {
    var c1, c2 := Center(source), Center(target);
    Point((c1.x + c2.x) / 2.0 + LabelOffset.x - board.left,
          (c1.y + c2.y) / 2.0 + LabelOffset.y - board.top)
  }

  /** Taking away the label offset, the hitbox (in client coordinates) lies halfway
      between the two centres: equally far from each. */
  lemma HitboxIsLabelledMidpoint(source: Rect, target: Rect, board: Rect)
    ensures var m := Sub(Add(HitboxPosition(source, target, board), Point(board.left, board.top)), LabelOffset);
            Sub(m, Center(source)) == Sub(Center(target), m)
  {
  }

  /** A connector has no direction for its hitbox. */
  lemma HitboxSymmetric(source: Rect, target: Rect, board: Rect)
    ensures HitboxPosition(source, target, board) == HitboxPosition(target, source, board)
  {
  }

  function Shift(r: Rect, d: Point): Rect
  {
    Rect(r.left + d.x, r.top + d.y, r.width, r.height)
  }

  /** Panning moves both nodes on screen by the same amount while the board
      element stays put: the hitbox moves with them by exactly that amount. */
  lemma HitboxFollowsPan(source: Rect, target: Rect, board: Rect, d: Point)
    ensures HitboxPosition(Shift(source, d), Shift(target, d), board)
         == Add(HitboxPosition(source, target, board), d)
  {
  }

  /** Scrolling the page moves the board and the nodes alike; the hitbox, placed
      relative to the board, keeps its position. */
  lemma HitboxScrollInvariant(source: Rect, target: Rect, board: Rect, d: Point)
    ensures HitboxPosition(Shift(source, d), Shift(target, d), Shift(board, d))
         == HitboxPosition(source, target, board)
  {
  }
}
