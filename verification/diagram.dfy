/**
 The 2D side view: a fixed-size drawing of the room's back wall with the
 screen on it and dimension callouts.  Every coordinate is a constant of the
 layout; the measured numbers only reach the drawing as the text of the
 callouts and as the over-height warning.  Coordinates are those inside the
 drawing's margin group (the whole picture is shifted by the margin).
 */
module Visualization2D {
  import opened Numeric
  import ScreenDimensions
  import RoomDimensions

  /** Layout constants, in SVG pixels. */
  const Margin: real := 100.0
  const ArrowSize: real := 12.0
  const ExtensionLine: real := 25.0
  const TextOffset: real := 35.0

  const RoomWidth: real := 800.0
  const RoomHeight: real := 600.0
  const ScreenWidth: real := 400.0
  const ScreenHeight: real := 200.0

  /** The ceiling and floor are drawn as strips of this thickness. */
  const StripThickness: real := 20.0

  /** The grid pitch. */
  const GridStep: real := 50.0

  /** The screen's top-left corner: centred left to right, 30% down the wall. */
  const ScreenX: real := (RoomWidth - ScreenWidth) / 2.0
  const ScreenY: real := RoomHeight * 0.3

  datatype Point = Point(x: real, y: real)

  function Plus(p: Point, q: Point): Point {
    Point(p.x + q.x, p.y + q.y)
  }

  /** What a piece of text says: a number formatted for display, or fixed words. */
  datatype Label =
    | Metres(reading: Fixed)
    | Centimetres(whole: int)
    | Inches(whole: int)
    | Words(text: string)

  /** How a caption is turned: not at all, a quarter turn either way, or along the screen's diagonal. */
  datatype Turn = Upright | Clockwise | Counterclockwise | AlongDiagonal

  datatype Primitive =
    | Segment(from: Point, to: Point)
    | Arrowhead(tip: Point, barb1: Point, barb2: Point)
    | Box(corner: Point, width: real, height: real)
    | Caption(content: Label, at: Point, turn: Turn)

  /**
   formatDimension: by default centimetres shown as metres with two decimals;
   with the flag, centimetres rounded to a whole number.
   */
  function FormatDimension(value: real, inCentimetres: bool): (l: Label)
    ensures inCentimetres ==> l.Centimetres? && l.whole as real - 0.5 <= value < l.whole as real + 0.5
    ensures !inCentimetres ==> l.Metres? && l.reading.digits == 2 && Abs(Value(l.reading) - value / 100.0) <= 0.005
  {
    if inCentimetres then Centimetres(JsRound(value)) else Metres(ToFixed(value / 100.0, 2))
  }

  /** A whole number of centimetres is shown exactly in either format. */
  lemma FormatWholeCentimetres(cm: int)
    ensures FormatDimension(cm as real, true) == Centimetres(cm)
    ensures Value(FormatDimension(cm as real, false).reading) == cm as real / 100.0
  {
    JsRoundOfInteger(cm);
    ToFixedHundredths(cm);
  }

  /** The inch line under the diagonal: the diagonal in whole inches, rounded with Math.round. */
  function DiagonalInches(diagonal: real): (inches: int)
    ensures inches as real - 0.5 <= diagonal / CmPerInch < inches as real + 0.5
  {
    JsRound(diagonal / CmPerInch)
  }

  /** The whole-inch line and the form's tenth-of-an-inch box disagree by at most 0.55 inch. */
  lemma DiagonalInchesNearForm(diagonal: real)
    ensures Abs(DiagonalInches(diagonal) as real - ToInches(diagonal)) <= 0.55
  {
  }

  /**
   isScreenTooTall: only judged once the room has a height; then the screen
   is too tall when its lower edge's height plus its own height exceeds it.
   */
  function IsScreenTooTall(screen: ScreenDimensions.Dimensions, room: RoomDimensions.Dimensions): (b: bool)
    ensures room.height <= 0.0 ==> !b
    ensures 0.0 < room.height ==> (b <==> room.height < room.screenHeight + screen.height)
  {
    0.0 < room.height && room.height < room.screenHeight + screen.height
  }

  /** Raising the screen or enlarging it can only turn the warning on, never off. */
  lemma TooTallIsMonotone(screen: ScreenDimensions.Dimensions, room: RoomDimensions.Dimensions, raise: real, grow: real)
    requires 0.0 <= raise && 0.0 <= grow
    requires IsScreenTooTall(screen, room)
    ensures IsScreenTooTall(screen.(height := screen.height + grow), room.(screenHeight := room.screenHeight + raise))
  {
  }

  /** The direction a dimension line measures along. */
  datatype Axis = Horizontal | Vertical

  /** A point given by its distance along the axis and across it from an origin. */
  function Local(origin: Point, axis: Axis, along: real, across: real): Point {
    match axis
    case Horizontal => Point(origin.x + along, origin.y + across)
    case Vertical => Point(origin.x + across, origin.y + along)
  }

  function AlongOf(p: Point, axis: Axis): real {
    if axis == Horizontal then p.x else p.y
  }

  function AcrossOf(p: Point, axis: Axis): real {
    if axis == Horizontal then p.y else p.x
  }

  /**
   One dimension callout, as HorizontalDimension, VerticalDimension and the
   three inline callouts draw it: two extension ticks from the measured edges,
   the span line joining the ticks' ends, an arrowhead at each end pointing at
   it, and the label.
   */
  function DimensionLine(origin: Point, axis: Axis, tick: real, span: real, caption: Label, labelAt: Point, turn: Turn): (ps: seq<Primitive>)
    ensures |ps| == 6
    ensures ps[0].Segment? && ps[1].Segment? && ps[2].Segment?
    ensures ps[3].Arrowhead? && ps[4].Arrowhead? && ps[5].Caption?
    // The span line lies along the axis and is exactly `span` long.
    ensures AcrossOf(ps[2].from, axis) == AcrossOf(ps[2].to, axis)
    ensures AlongOf(ps[2].to, axis) - AlongOf(ps[2].from, axis) == span
    // Each tick runs across the axis, `tick` long, and ends on a span end.
    ensures ps[0].to == ps[2].from && ps[1].to == ps[2].to
    ensures AlongOf(ps[0].from, axis) == AlongOf(ps[0].to, axis) && AcrossOf(ps[0].to, axis) - AcrossOf(ps[0].from, axis) == tick
    ensures AlongOf(ps[1].from, axis) == AlongOf(ps[1].to, axis) && AcrossOf(ps[1].to, axis) - AcrossOf(ps[1].from, axis) == tick
    // The arrow tips sit on the span ends; the barbs lie ArrowSize inwards, on either side.
    ensures ps[3].tip == ps[2].from && ps[4].tip == ps[2].to
    ensures AlongOf(ps[3].barb1, axis) == AlongOf(ps[3].barb2, axis) == AlongOf(ps[3].tip, axis) + ArrowSize
    ensures AlongOf(ps[4].barb1, axis) == AlongOf(ps[4].barb2, axis) == AlongOf(ps[4].tip, axis) - ArrowSize
    ensures AcrossOf(ps[3].barb1, axis) + AcrossOf(ps[3].barb2, axis) == 2.0 * AcrossOf(ps[3].tip, axis)
    ensures AcrossOf(ps[4].barb1, axis) + AcrossOf(ps[4].barb2, axis) == 2.0 * AcrossOf(ps[4].tip, axis)
    ensures AcrossOf(ps[3].barb2, axis) - AcrossOf(ps[3].barb1, axis) == ArrowSize
    ensures AcrossOf(ps[4].barb2, axis) - AcrossOf(ps[4].barb1, axis) == ArrowSize
    ensures ps[5] == Caption(caption, Plus(origin, labelAt), turn)
    // The first tick starts at the origin, the second `span` further along the axis.
    ensures ps[0].from == origin
    ensures AlongOf(ps[1].from, axis) - AlongOf(origin, axis) == span && AcrossOf(ps[1].from, axis) == AcrossOf(origin, axis)
  {
    [ Segment(Local(origin, axis, 0.0, 0.0), Local(origin, axis, 0.0, tick)),
      Segment(Local(origin, axis, span, 0.0), Local(origin, axis, span, tick)),
      Segment(Local(origin, axis, 0.0, tick), Local(origin, axis, span, tick)),
      Arrowhead(Local(origin, axis, 0.0, tick),
                Local(origin, axis, ArrowSize, tick - ArrowSize / 2.0),
                Local(origin, axis, ArrowSize, tick + ArrowSize / 2.0)),
      Arrowhead(Local(origin, axis, span, tick),
                Local(origin, axis, span - ArrowSize, tick - ArrowSize / 2.0),
                Local(origin, axis, span - ArrowSize, tick + ArrowSize / 2.0)),
      Caption(caption, Plus(origin, labelAt), turn) ]
  }

  /** A callout of zero length is still complete: both arrows point at the same spot. */
  lemma ZeroSpanStillDrawn(origin: Point, axis: Axis, tick: real, caption: Label, labelAt: Point, turn: Turn)
    ensures var ps := DimensionLine(origin, axis, tick, 0.0, caption, labelAt, turn);
      |ps| == 6 && ps[3].tip == ps[4].tip
  {
    var ps := DimensionLine(origin, axis, tick, 0.0, caption, labelAt, turn);
    assert AlongOf(ps[2].to, axis) == AlongOf(ps[2].from, axis);
    assert AcrossOf(ps[2].to, axis) == AcrossOf(ps[2].from, axis);
    match axis
    case Horizontal =>
    case Vertical =>
  }

  /** HorizontalDimension (defined in the view but not placed in the drawing): a metres label 35 px below the line's top. */
  function HorizontalDimension(y: real, width: real, value: real, offset: real): (ps: seq<Primitive>)
    ensures |ps| == 6 && ps[2].Segment? && ps[2].from.y == ps[2].to.y == y + offset + ExtensionLine
    ensures ps[2].to.x - ps[2].from.x == width && ps[2].from.x == 0.0
    ensures ps[5].Caption? && ps[5].content == FormatDimension(value, false)
  {
    DimensionLine(Point(0.0, y + offset), Horizontal, ExtensionLine, width, FormatDimension(value, false), Point(width / 2.0, TextOffset), Upright)
  }

  /** VerticalDimension: a metres label to the left of the line, turned to read upwards. */
  function VerticalDimension(x: real, y: real, height: real, value: real): (ps: seq<Primitive>)
    ensures |ps| == 6 && ps[2].Segment? && ps[2].from.x == ps[2].to.x == x + ExtensionLine / 3.0
    ensures ps[2].from.y == y && ps[2].to.y == y + height
    ensures ps[5].Caption? && ps[5].content == FormatDimension(value, false) && ps[5].turn == Counterclockwise
  {
    DimensionLine(Point(x, y), Vertical, ExtensionLine / 3.0, height, FormatDimension(value, false),
      Point(-TextOffset + 20.0, height / 2.0), Counterclockwise)
  }

  /** The x of the i-th vertical grid line, or the y of the i-th horizontal one. */
  function GridOffset(i: nat): real {
    i as real * GridStep
  }

  /**
   The first n grid lines across the given axis: line i sits at i * 50 and
   spans the whole wall in the other direction.
   */
  function GridLines(axis: Axis, n: nat): (ls: seq<Primitive>)
    ensures |ls| == n
    ensures forall i :: 0 <= i < n ==>
      ls[i] == Segment(Local(Point(0.0, 0.0), axis, GridOffset(i), 0.0),
                       Local(Point(0.0, 0.0), axis, GridOffset(i), if axis == Horizontal then RoomHeight else RoomWidth))
  {
    if n == 0 then []
    else
      GridLines(axis, n - 1) + [Segment(Local(Point(0.0, 0.0), axis, GridOffset(n - 1), 0.0),
                                        Local(Point(0.0, 0.0), axis, GridOffset(n - 1), if axis == Horizontal then RoomHeight else RoomWidth))]
  }

  /** How many grid lines fit across an extent: Math.floor(extent / 50) + 1. */
  function GridCount(extent: real): (n: nat)
    requires 0.0 <= extent
    ensures 1 <= n && GridOffset(n - 1) <= extent < GridOffset(n)
  {
    (extent / GridStep).Floor + 1
  }

  /** A multiple of the grid step. */
  predicate OnGrid(x: real) {
    (x / GridStep).Floor as real * GridStep == x
  }

  /** Every grid line sits on a multiple of the pitch. */
  lemma GridOffsetOnGrid(i: nat)
    ensures OnGrid(GridOffset(i))
  {
    assert GridOffset(i) / GridStep == i as real;
  }

  /** A non-negative multiple of the pitch is the offset of the grid line with that index. */
  lemma GridIndexOf(x: real) returns (k: nat)
    requires OnGrid(x) && 0.0 <= x
    ensures GridOffset(k) == x
  {
    var m := (x / GridStep).Floor;
    assert 0.0 <= x / GridStep;
    k := m;
  }

  /** The grid lines are exactly the multiples of 50 from 0 to the extent, both ends included. */
  lemma GridIsTheMultiples(extent: real, x: real)
    requires 0.0 <= extent
    ensures (exists i :: 0 <= i < GridCount(extent) && GridOffset(i) == x) <==> (OnGrid(x) && 0.0 <= x <= extent)
  {
    var n := GridCount(extent);
    if exists i :: 0 <= i < n && GridOffset(i) == x {
      var i :| 0 <= i < n && GridOffset(i) == x;
      GridOffsetOnGrid(i);
      assert GridOffset(i) <= GridOffset(n - 1);
    }
    if OnGrid(x) && 0.0 <= x <= extent {
      var k := GridIndexOf(x);
      assert GridOffset(k) < GridOffset(n);
      assert k < n;
    }
  }

  /** The fixed parts of the drawing. */
  const Ceiling: Primitive := Box(Point(0.0, 0.0), RoomWidth, StripThickness)
  const Floor: Primitive := Box(Point(0.0, RoomHeight - StripThickness), RoomWidth, StripThickness)
  const Walls: Primitive := Box(Point(0.0, 0.0), RoomWidth, RoomHeight)
  /** The screen face (drawn three times over, for the fill, the shine and the border). */
  const Face: Primitive := Box(Point(ScreenX, ScreenY), ScreenWidth, ScreenHeight)

  /** The drawing, part by part. */
  datatype Drawing = Drawing(
    size: Point,
    columns: seq<Primitive>,
    rows: seq<Primitive>,
    fixtures: seq<Primitive>,
    screenWidthCallout: seq<Primitive>,
    screenHeightCallout: seq<Primitive>,
    mountHeightCallout: seq<Primitive>,
    diagonalMarks: seq<Primitive>,
    roomHeightCallout: seq<Primitive>,
    warning: bool)

  /** The height of the mount-height callout: from the screen's lower edge down to the floor strip. */
  const MountSpan: real := RoomHeight - ScreenY - ScreenHeight - StripThickness

  /** The screen is hung centred left to right, 30% of the way down the wall. */
  lemma ScreenPlacement()
    ensures 2.0 * Face.corner.x + Face.width == Walls.width
    ensures Face.corner.y == 0.3 * Walls.height
  {
  }

  /** The screen-width callout, just inside the screen's top edge: it spans the face from side to side. */
  function ScreenWidthCallout(width: real): (ps: seq<Primitive>)
    ensures |ps| == 6 && ps[2].Segment? && ps[5].Caption?
    ensures ps[2].from.x == Face.corner.x && ps[2].to.x == Face.corner.x + Face.width
    ensures ps[5].content == FormatDimension(width, false)
  {
    DimensionLine(Point(ScreenX, ScreenY + 8.0), Horizontal, ExtensionLine / 3.0, ScreenWidth,
      FormatDimension(width, false), Point(ScreenWidth / 2.0, TextOffset / 3.0 + 10.0), Upright)
  }

  /** The screen-height callout, just inside the screen's right edge: it spans the face from top to bottom. */
  function ScreenHeightCallout(height: real): (ps: seq<Primitive>)
    ensures |ps| == 6 && ps[2].Segment? && ps[5].Caption?
    ensures ps[2].from.y == Face.corner.y && ps[2].to.y == Face.corner.y + Face.height
    ensures ps[5].content == FormatDimension(height, false)
  {
    DimensionLine(Point(ScreenX + ScreenWidth - 8.0, ScreenY), Vertical, -ExtensionLine / 3.0, ScreenHeight,
      FormatDimension(height, false), Point(-TextOffset, ScreenHeight / 2.0 - 15.0), Clockwise)
  }

  /** The mount-height callout, under the screen's centre: from its lower edge to the top of the floor strip, in centimetres. */
  function MountHeightCallout(mountHeight: real): (ps: seq<Primitive>)
    ensures |ps| == 6 && ps[2].Segment? && ps[5].Caption?
    ensures ps[2].from.y == Face.corner.y + Face.height && ps[2].to.y == Floor.corner.y
    ensures ps[5].content == FormatDimension(mountHeight, true)
  {
    DimensionLine(Point(ScreenX + ScreenWidth / 2.0, ScreenY + ScreenHeight), Vertical, -ExtensionLine / 3.0, MountSpan,
      FormatDimension(mountHeight, true), Point(-TextOffset, MountSpan / 2.0), Counterclockwise)
  }

  /** The room-height callout, right of the wall: from under the ceiling strip to the top of the floor strip. */
  function RoomHeightCallout(height: real): (ps: seq<Primitive>)
    ensures |ps| == 6 && ps[2].Segment? && ps[5].Caption?
    ensures ps[2].from.y == Ceiling.corner.y + Ceiling.height && ps[2].to.y == Floor.corner.y
    ensures ps[5].content == FormatDimension(height, false)
  {
    VerticalDimension(RoomWidth + Margin / 4.0 - 100.0, StripThickness, RoomHeight - 2.0 * StripThickness, height)
  }

  /** The dashed diagonal from the lower-left to the upper-right corner, labelled in metres and in whole inches. */
  function DiagonalMarks(diagonal: real): (ps: seq<Primitive>)
    ensures |ps| == 3 && ps[0].Segment? && ps[1].Caption? && ps[2].Caption?
    ensures ps[0].from == Point(Face.corner.x, Face.corner.y + Face.height)
    ensures ps[0].to == Point(Face.corner.x + Face.width, Face.corner.y)
    ensures ps[1].content == FormatDimension(diagonal, false) && ps[2].content == Inches(DiagonalInches(diagonal))
  {
    var centre := Point(ScreenX + ScreenWidth / 2.0, ScreenY + ScreenHeight / 2.0);
    [ Segment(Point(ScreenX, ScreenY + ScreenHeight), Point(ScreenX + ScreenWidth, ScreenY)),
      Caption(FormatDimension(diagonal, false), Plus(centre, Point(0.0, -12.0)), AlongDiagonal),
      Caption(Inches(DiagonalInches(diagonal)), Plus(centre, Point(0.0, 12.0)), AlongDiagonal) ]
  }

  /** The parts that never change: strips, walls, the screen face, the two axis lines and the fixed captions. */
  const Fixtures: seq<Primitive> :=
    [ Ceiling, Caption(Words("PLAFOND"), Point(RoomWidth / 2.0, 15.0), Upright),
      Floor, Caption(Words("SOL"), Point(RoomWidth / 2.0, RoomHeight - 5.0), Upright),
      Walls,
      Face,
      Segment(Point(ScreenX - 100.0, ScreenY + ScreenHeight / 2.0), Point(ScreenX + ScreenWidth, ScreenY + ScreenHeight / 2.0)),
      Caption(Words("Axe de l'écran"), Point(ScreenX - 105.0, ScreenY + ScreenHeight / 2.0 - 5.0), Upright),
      Segment(Point(ScreenX - 100.0, ScreenY + ScreenHeight - 30.0), Point(ScreenX + ScreenWidth, ScreenY + ScreenHeight - 30.0)),
      Caption(Words("Axe CFO/CFA"), Point(ScreenX - 105.0, ScreenY + ScreenHeight - 35.0), Upright),
      Caption(Words("Hauteur de salle"), Point(RoomWidth + Margin / 2.0 - 100.0, RoomHeight / 2.0), Counterclockwise) ]

  /** The i-th primitive of a part is a caption reading l. */
  predicate Says(ps: seq<Primitive>, i: nat, l: Label) {
    i < |ps| && ps[i].Caption? && ps[i].content == l
  }

  /**
   Visualization2D's render, for given validated screen and room numbers: the
   screen's three numbers label its edges and diagonal, the room's height and
   mount height label the two vertical callouts, and the warning is raised
   exactly when the screen does not fit under the ceiling.
   */
  function Draw(screen: ScreenDimensions.Dimensions, room: RoomDimensions.Dimensions): (d: Drawing)
    ensures d.size == Point(Walls.width + 2.0 * Margin, Walls.height + 2.0 * Margin)
    ensures d.columns == GridLines(Horizontal, GridCount(RoomWidth)) && d.rows == GridLines(Vertical, GridCount(RoomHeight))
    ensures Says(d.screenWidthCallout, 5, FormatDimension(screen.width, false))
    ensures Says(d.screenHeightCallout, 5, FormatDimension(screen.height, false))
    ensures Says(d.mountHeightCallout, 5, FormatDimension(room.screenHeight, true))
    ensures Says(d.roomHeightCallout, 5, FormatDimension(room.height, false))
    ensures Says(d.diagonalMarks, 1, FormatDimension(screen.diagonal, false))
    ensures Says(d.diagonalMarks, 2, Inches(DiagonalInches(screen.diagonal)))
    ensures d.warning == IsScreenTooTall(screen, room)
  {
    Drawing(
      Point(RoomWidth + Margin * 2.0, RoomHeight + Margin * 2.0),
      GridLines(Horizontal, GridCount(RoomWidth)),
      GridLines(Vertical, GridCount(RoomHeight)),
      Fixtures,
      ScreenWidthCallout(screen.width),
      ScreenHeightCallout(screen.height),
      MountHeightCallout(room.screenHeight),
      DiagonalMarks(screen.diagonal),
      RoomHeightCallout(room.height),
      IsScreenTooTall(screen, room))
  }

  /**
   The drawing's vertical grid lines stand exactly at the multiples of 50 across
   the wall, and its horizontal ones at the multiples of 50 down it.
   */
  lemma DrawnGridIsTheMultiples(screen: ScreenDimensions.Dimensions, room: RoomDimensions.Dimensions, x: real)
    ensures (exists i :: 0 <= i < |Draw(screen, room).columns| && Draw(screen, room).columns[i].from.x == x)
        <==> (OnGrid(x) && 0.0 <= x <= RoomWidth)
    ensures (exists i :: 0 <= i < |Draw(screen, room).rows| && Draw(screen, room).rows[i].from.y == x)
        <==> (OnGrid(x) && 0.0 <= x <= RoomHeight)
  {
    var d := Draw(screen, room);
    GridIsTheMultiples(RoomWidth, x);
    GridIsTheMultiples(RoomHeight, x);
    if exists i :: 0 <= i < |d.columns| && d.columns[i].from.x == x {
      var i :| 0 <= i < |d.columns| && d.columns[i].from.x == x;
      assert GridOffset(i) == x;
    }
    if exists i :: 0 <= i < GridCount(RoomWidth) && GridOffset(i) == x {
      var i :| 0 <= i < GridCount(RoomWidth) && GridOffset(i) == x;
      assert d.columns[i].from.x == x;
    }
    if exists i :: 0 <= i < |d.rows| && d.rows[i].from.y == x {
      var i :| 0 <= i < |d.rows| && d.rows[i].from.y == x;
      assert GridOffset(i) == x;
    }
    if exists i :: 0 <= i < GridCount(RoomHeight) && GridOffset(i) == x {
      var i :| 0 <= i < GridCount(RoomHeight) && GridOffset(i) == x;
      assert d.rows[i].from.y == x;
    }
  }

  /** A primitive with its words blanked out. */
  function Blank(p: Primitive): Primitive {
    if p.Caption? then p.(content := Words("")) else p
  }

  function BlankAll(ps: seq<Primitive>): (qs: seq<Primitive>)
    ensures |qs| == |ps| && forall i :: 0 <= i < |ps| ==> qs[i] == Blank(ps[i])
  {
    seq(|ps|, i requires 0 <= i < |ps| => Blank(ps[i]))
  }

  /** The drawing with every label blanked out and the warning dropped: its geometry. */
  function Geometry(d: Drawing): Drawing {
    Drawing(d.size, d.columns, d.rows, d.fixtures,
      BlankAll(d.screenWidthCallout), BlankAll(d.screenHeightCallout), BlankAll(d.mountHeightCallout),
      BlankAll(d.diagonalMarks), BlankAll(d.roomHeightCallout), false)
  }

  /** A callout's geometry does not depend on its label. */
  lemma CalloutGeometryIgnoresLabel(origin: Point, axis: Axis, tick: real, span: real, l1: Label, l2: Label, labelAt: Point, turn: Turn)
    ensures BlankAll(DimensionLine(origin, axis, tick, span, l1, labelAt, turn))
         == BlankAll(DimensionLine(origin, axis, tick, span, l2, labelAt, turn))
  {
    var a := BlankAll(DimensionLine(origin, axis, tick, span, l1, labelAt, turn));
    var b := BlankAll(DimensionLine(origin, axis, tick, span, l2, labelAt, turn));
    assert forall i :: 0 <= i < 6 ==> a[i] == b[i];
  }

  /**
   No coordinate of the drawing depends on the measurements: any two inputs
   give the same picture up to the callouts' text and the warning.
   */
  lemma GeometryIgnoresInputs(s1: ScreenDimensions.Dimensions, r1: RoomDimensions.Dimensions,
                              s2: ScreenDimensions.Dimensions, r2: RoomDimensions.Dimensions)
    ensures Geometry(Draw(s1, r1)) == Geometry(Draw(s2, r2))
  {
    ScreenWidthGeometry(s1.width, s2.width);
    ScreenHeightGeometry(s1.height, s2.height);
    MountHeightGeometry(r1.screenHeight, r2.screenHeight);
    RoomHeightGeometry(r1.height, r2.height);
    DiagonalGeometry(s1.diagonal, s2.diagonal);
  }

  lemma ScreenWidthGeometry(a: real, b: real)
    ensures BlankAll(ScreenWidthCallout(a)) == BlankAll(ScreenWidthCallout(b))
  {
    CalloutGeometryIgnoresLabel(Point(ScreenX, ScreenY + 8.0), Horizontal, ExtensionLine / 3.0, ScreenWidth,
      FormatDimension(a, false), FormatDimension(b, false), Point(ScreenWidth / 2.0, TextOffset / 3.0 + 10.0), Upright);
  }

  lemma ScreenHeightGeometry(a: real, b: real)
    ensures BlankAll(ScreenHeightCallout(a)) == BlankAll(ScreenHeightCallout(b))
  {
    CalloutGeometryIgnoresLabel(Point(ScreenX + ScreenWidth - 8.0, ScreenY), Vertical, -ExtensionLine / 3.0, ScreenHeight,
      FormatDimension(a, false), FormatDimension(b, false), Point(-TextOffset, ScreenHeight / 2.0 - 15.0), Clockwise);
  }

  lemma MountHeightGeometry(a: real, b: real)
    ensures BlankAll(MountHeightCallout(a)) == BlankAll(MountHeightCallout(b))
  {
    CalloutGeometryIgnoresLabel(Point(ScreenX + ScreenWidth / 2.0, ScreenY + ScreenHeight), Vertical, -ExtensionLine / 3.0, MountSpan,
      FormatDimension(a, true), FormatDimension(b, true), Point(-TextOffset, MountSpan / 2.0), Counterclockwise);
  }

  lemma RoomHeightGeometry(a: real, b: real)
    ensures BlankAll(RoomHeightCallout(a)) == BlankAll(RoomHeightCallout(b))
  {
    CalloutGeometryIgnoresLabel(Point(RoomWidth + Margin / 4.0 - 100.0, StripThickness), Vertical, ExtensionLine / 3.0, RoomHeight - 2.0 * StripThickness,
      FormatDimension(a, false), FormatDimension(b, false), Point(-TextOffset + 20.0, (RoomHeight - 2.0 * StripThickness) / 2.0), Counterclockwise);
  }

  lemma DiagonalGeometry(a: real, b: real)
    ensures BlankAll(DiagonalMarks(a)) == BlankAll(DiagonalMarks(b))
  {
    var m1 := BlankAll(DiagonalMarks(a));
    var m2 := BlankAll(DiagonalMarks(b));
    assert forall i :: 0 <= i < 3 ==> m1[i] == m2[i];
  }
}
