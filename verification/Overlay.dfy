/** Where an overlay of a given size is put for an anchor, and which anchor a position is read back as. */
module Overlays {
  import opened Wrappers

  datatype Anchor =
    | TopLeft | TopCenter | TopRight | CenterLeft | CenterRight | BottomLeft | BottomCenter | BottomRight

  datatype Point = Point(x: real, y: real)

  /** A canvas, an overlay, and the margin between them. */
  datatype Layout = Layout(canvas: Point, overlay: Point, margin: real)

  function Max(a: real, b: real): real {
    if a < b then b else a
  }

  predicate Near(a: real, b: real) {
    -1.0 <= a - b <= 1.0
  }

  /** Three places along one axis: at the margin, in the middle, and at the far margin. */
  function Middle(canvas: real, overlay: real): real {
    Max(0.0, (canvas - overlay) / 2.0)
  }

  function Far(canvas: real, overlay: real, margin: real): real {
    Max(0.0, canvas - overlay - margin)
  }

  function Position(l: Layout, anchor: Anchor): Point {
    Point(
      if anchor.TopCenter? || anchor.BottomCenter? then Middle(l.canvas.x, l.overlay.x)
      else if anchor.TopRight? || anchor.CenterRight? || anchor.BottomRight? then Far(l.canvas.x, l.overlay.x, l.margin)
      else l.margin,
      if anchor.CenterLeft? || anchor.CenterRight? then Middle(l.canvas.y, l.overlay.y)
      else if anchor.BottomLeft? || anchor.BottomCenter? || anchor.BottomRight? then Far(l.canvas.y, l.overlay.y, l.margin)
      else l.margin)
  }

  /** The anchor that the agent input overlay reads back; None stands for a custom position. */
  function AnchorAt(l: Layout, p: Point): Option<Anchor> {
    var left, center, right := l.margin, Middle(l.canvas.x, l.overlay.x), Far(l.canvas.x, l.overlay.x, l.margin);
    var top, middle, bottom := l.margin, Middle(l.canvas.y, l.overlay.y), Far(l.canvas.y, l.overlay.y, l.margin);
    if Near(p.y, top) && Near(p.x, left) then Some(TopLeft)
    else if Near(p.y, top) && Near(p.x, center) then Some(TopCenter)
    else if Near(p.y, top) && Near(p.x, right) then Some(TopRight)
    else if Near(p.y, middle) && Near(p.x, left) then Some(CenterLeft)
    else if Near(p.y, middle) && Near(p.x, right) then Some(CenterRight)
    else if Near(p.y, bottom) && Near(p.x, left) then Some(BottomLeft)
    else if Near(p.y, bottom) && Near(p.x, center) then Some(BottomCenter)
    else if Near(p.y, bottom) && Near(p.x, right) then Some(BottomRight)
    else None
  }

  const ANCHORS: seq<seq<Option<Anchor>>> := [
    [Some(TopLeft), Some(TopCenter), Some(TopRight)],
    [Some(CenterLeft), None, Some(CenterRight)],
    [Some(BottomLeft), Some(BottomCenter), Some(BottomRight)]]

  /** Where the two overlays may differ: near the middle of the canvas, and near a later anchor as well. */
  predicate InDispute(l: Layout, p: Point) {
    && Near(p.x, Middle(l.canvas.x, l.overlay.x)) && Near(p.y, Middle(l.canvas.y, l.overlay.y))
    && !Near(p.x, l.margin) && !Near(p.y, l.margin)
    && (Near(p.x, Far(l.canvas.x, l.overlay.x, l.margin)) || Near(p.y, Far(l.canvas.y, l.overlay.y, l.margin)))
  }

  function Columns(l: Layout): seq<real> {
    [l.margin, Middle(l.canvas.x, l.overlay.x), Far(l.canvas.x, l.overlay.x, l.margin)]
  }

  function Rows(l: Layout): seq<real> {
    [l.margin, Middle(l.canvas.y, l.overlay.y), Far(l.canvas.y, l.overlay.y, l.margin)]
  }

  predicate Hits(l: Layout, p: Point, row: nat, column: nat)
    requires row < 3 && column < 3
  {
    Near(p.x, Columns(l)[column]) && Near(p.y, Rows(l)[row])
  }

  /** Nothing before a place in the table is hit. */
  ghost predicate NoneBefore(l: Layout, p: Point, row: nat, column: nat) {
    forall i: nat, j: nat | i < 3 && j < 3 && (i < row || (i == row && j < column)) :: !Hits(l, p, i, j)
  }

  ghost predicate Agrees(l: Layout, p: Point, anchor: Option<Anchor>) {
    if InDispute(l, p) then anchor == None && AnchorAt(l, p) != None else anchor == AnchorAt(l, p)
  }

  lemma FirstHitAgrees(l: Layout, p: Point, row: nat, column: nat)
    requires row < 3 && column < 3 && Hits(l, p, row, column) && NoneBefore(l, p, row, column)
    ensures Agrees(l, p, ANCHORS[row][column])
  {
    if row > 0 {
      assert !Hits(l, p, 0, 0) && !Hits(l, p, 0, 1) && !Hits(l, p, 0, 2);
    }
    if row > 1 {
      assert !Hits(l, p, 1, 0) && !Hits(l, p, 1, 1) && !Hits(l, p, 1, 2);
    }
    if column > 0 {
      assert !Hits(l, p, row, 0);
    }
    if column > 1 {
      assert !Hits(l, p, row, 1);
    }
  }

  lemma NoHitAgrees(l: Layout, p: Point)
    requires NoneBefore(l, p, 3, 0)
    ensures Agrees(l, p, None)
  {
    assert !Hits(l, p, 0, 0) && !Hits(l, p, 0, 1) && !Hits(l, p, 0, 2);
    assert !Hits(l, p, 1, 0) && !Hits(l, p, 1, 1) && !Hits(l, p, 1, 2);
    assert !Hits(l, p, 2, 0) && !Hits(l, p, 2, 1) && !Hits(l, p, 2, 2);
  }

  /**
    The look-up of the presentation overlay: row by row, and the middle of the canvas ends it. The
    two overlays read the same anchor, except in dispute.
   */
  method FindAnchor(l: Layout, p: Point) returns (anchor: Option<Anchor>)
    ensures anchor == AnchorAt(l, p) <==> !InDispute(l, p)
    ensures InDispute(l, p) ==> anchor == None
  {
    for row := 0 to 3
      invariant NoneBefore(l, p, row, 0)
    {
      for column := 0 to 3
        invariant NoneBefore(l, p, row, column)
      {
        if Hits(l, p, row, column) {
          FirstHitAgrees(l, p, row, column);
          return ANCHORS[row][column];
        }
      }
    }
    NoHitAgrees(l, p);
    anchor := None;
  }

  /** Three places that are told apart. */
  predicate Apart(a: real, b: real, c: real) {
    !Near(a, b) && !Near(a, c) && !Near(b, c)
  }

  predicate Distinguishable(l: Layout) {
    && Apart(l.margin, Middle(l.canvas.x, l.overlay.x), Far(l.canvas.x, l.overlay.x, l.margin))
    && Apart(l.margin, Middle(l.canvas.y, l.overlay.y), Far(l.canvas.y, l.overlay.y, l.margin))
  }

  /** Every anchor is read back, exactly if the three places along each axis are told apart. */
  lemma AnchorsAreReadBack(l: Layout)
    ensures Distinguishable(l) <==> forall a: Anchor :: AnchorAt(l, Position(l, a)) == Some(a)
  {
    if !Apart(l.margin, Middle(l.canvas.x, l.overlay.x), Far(l.canvas.x, l.overlay.x, l.margin)) {
      assert AnchorAt(l, Position(l, TopCenter)) != Some(TopCenter) || AnchorAt(l, Position(l, TopRight)) != Some(TopRight);
    } else if !Distinguishable(l) {
      assert AnchorAt(l, Position(l, CenterLeft)) != Some(CenterLeft) || AnchorAt(l, Position(l, BottomLeft)) != Some(BottomLeft);
    }
  }

  /** The gaps before and behind an overlay on one axis: as wide as the margin, or equal; without room it starts at zero. */
  ghost predicate Gaps(before: real, behind: real, margin: real, place: nat) {
    match place
    case 0 => before == margin
    case 1 => if behind + before >= 0.0 then before == behind else before == 0.0
    case _ => if behind + before >= margin then behind == margin else before == 0.0
  }

  /** Each anchor stands in the row and the column of the table that names it, by the gaps that it leaves. */
  lemma GapsOfAnchor(l: Layout, row: nat, column: nat)
    requires row < 3 && column < 3 && ANCHORS[row][column].Some?
    ensures var p := Position(l, ANCHORS[row][column].value);
            && Gaps(p.x, l.canvas.x - l.overlay.x - p.x, l.margin, column)
            && Gaps(p.y, l.canvas.y - l.overlay.y - p.y, l.margin, row)
  {
    assert row == 0 || row == 1 || row == 2;
    assert column == 0 || column == 1 || column == 2;
  }

  /** Both overlays read their anchors back, and stay inside the canvas, if there is room for two margins. */
  lemma RoomIsEnough(l: Layout, anchor: Anchor)
    requires l.margin >= 0.0 && l.overlay.x >= 0.0 && l.overlay.y >= 0.0
    requires l.canvas.x > l.overlay.x + 2.0 * l.margin + 2.0 && l.canvas.y > l.overlay.y + 2.0 * l.margin + 2.0
    ensures Distinguishable(l) && !InDispute(l, Position(l, anchor))
    ensures var p := Position(l, anchor);
            && l.margin <= p.x && p.x + l.overlay.x <= l.canvas.x - l.margin
            && l.margin <= p.y && p.y + l.overlay.y <= l.canvas.y - l.margin
  {}

  /** A position in dispute: for the agent overlay it is at the right, for the other it is custom. */
  lemma SomePositionIsDisputed() returns (l: Layout, p: Point)
    ensures l.margin >= 0.0 && l.canvas.x > l.overlay.x + 2.0 * l.margin && l.canvas.y > l.overlay.y + 2.0 * l.margin
    ensures InDispute(l, p) && AnchorAt(l, p) == Some(CenterRight)
  {
    l, p := Layout(Point(424.0, 500.0), Point(400.0, 100.0), 10.0), Point(13.0, 200.0);
  }

  /** With less room, an anchor may be lost: here the centre is read back as the left. */
  lemma LessRoomIsNot() returns (l: Layout)
    ensures l.margin >= 0.0 && l.canvas.x == l.overlay.x + 2.0 * l.margin + 2.0
    ensures AnchorAt(l, Position(l, TopCenter)) == Some(TopLeft)
  {
    l := Layout(Point(422.0, 500.0), Point(400.0, 100.0), 10.0);
  }
}
