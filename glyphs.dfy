/** The catalog of the 13 glyph templates. Each template is six points (12
    coordinates, x then y) and every coordinate is one of six scalars of the
    current frame. */
module Glyphs {
  import Geometry

  /** The drawable's template numbers, in catalog order. */
  const Plus := 0
  const Minus := 1
  const X := 2
  const AngleDown := 3
  const AngleLeft := 4
  const AngleUp := 5
  const AngleRight := 6
  const Check := 7
  const ArrowDown := 8
  const ArrowLeft := 9
  const ArrowUp := 10
  const ArrowRight := 11
  const Menu := 12

  /** A row index of the template table. */
  type GlyphIndex = k: int | 0 <= k < 13

  /** The three horizontal frame scalars an x coordinate can take. */
  datatype XScalar = Left | CenterX | Right

  /** The three vertical frame scalars a y coordinate can take. */
  datatype YScalar = Top | CenterY | Bottom

  /** The value of an x scalar in frame `f`: one of its left, centre and
      right. */
  function EvalX(s: XScalar, f: Geometry.Frame): (v: real)
    ensures v in {f.left, f.CenterX(), f.right}
  {
    match s
    case Left => f.left
    case CenterX => f.CenterX()
    case Right => f.right
  }

  /** The value of a y scalar in frame `f`: one of its top, centre and
      bottom. */
  function EvalY(s: YScalar, f: Geometry.Frame): (v: real)
    ensures v in {f.top, f.CenterY(), f.bottom}
  {
    match s
    case Top => f.top
    case CenterY => f.CenterY()
    case Bottom => f.bottom
  }

  /** The template table: the x and y scalar of each of the six points of
      glyph `k`. Point `j` fills coordinates `2j` (x) and `2j + 1` (y). */
  function Layout(k: GlyphIndex): (s: seq<(XScalar, YScalar)>)
    ensures |s| == 6
  {
    if k == Plus then
      [(CenterX, Top), (CenterX, Bottom), (Left, CenterY), (Right, CenterY), (CenterX, CenterY), (CenterX, CenterY)]
    else if k == Minus then
      [(Left, CenterY), (Right, CenterY), (Left, CenterY), (Right, CenterY), (CenterX, CenterY), (CenterX, CenterY)]
    else if k == X then
      [(Left, Top), (Right, Bottom), (Left, Bottom), (Right, Top), (CenterX, CenterY), (CenterX, CenterY)]
    else if k == AngleDown then
      [(Left, CenterY), (CenterX, Bottom), (CenterX, Bottom), (Right, CenterY), (CenterX, Bottom), (CenterX, Bottom)]
    else if k == AngleLeft then
      [(Left, CenterY), (CenterX, Bottom), (Left, CenterY), (CenterX, Top), (Left, CenterY), (Left, CenterY)]
    else if k == AngleUp then
      [(CenterX, Top), (Right, CenterY), (Left, CenterY), (CenterX, Top), (CenterX, Top), (CenterX, Top)]
    else if k == AngleRight then
      [(CenterX, Top), (Right, CenterY), (CenterX, Bottom), (Right, CenterY), (Right, CenterY), (Right, CenterY)]
    else if k == Check then
      [(Right, Top), (CenterX, Bottom), (Left, CenterY), (CenterX, Bottom), (CenterX, Bottom), (CenterX, Bottom)]
    else if k == ArrowDown then
      [(Left, CenterY), (CenterX, Bottom), (CenterX, Bottom), (Right, CenterY), (CenterX, Top), (CenterX, Bottom)]
    else if k == ArrowLeft then
      [(Left, CenterY), (CenterX, Bottom), (Left, CenterY), (CenterX, Top), (Left, CenterY), (Right, CenterY)]
    else if k == ArrowUp then
      [(CenterX, Top), (Right, CenterY), (Left, CenterY), (CenterX, Top), (CenterX, Top), (CenterX, Bottom)]
    else if k == ArrowRight then
      [(CenterX, Top), (Right, CenterY), (CenterX, Bottom), (Right, CenterY), (Left, CenterY), (Right, CenterY)]
    else
      [(Left, Top), (Right, Top), (Left, CenterY), (Right, CenterY), (Left, Bottom), (Right, Bottom)]
  }

  /** Coordinate `i` of glyph `k` in frame `f`. */
  function Coord(k: GlyphIndex, i: int, f: Geometry.Frame): real
    requires 0 <= i < 12
  {
    var (x, y) := Layout(k)[i / 2];
    if i % 2 == 0 then EvalX(x, f) else EvalY(y, f)
  }

  /** The 12 coordinates of glyph `k` in frame `f`: every x coordinate is the
      frame's left, centre or right, every y coordinate its top, centre or
      bottom. */
  function Template(k: GlyphIndex, f: Geometry.Frame): (t: seq<real>)
    ensures |t| == 12
    ensures forall j :: 0 <= j < 6 ==> t[2 * j] in {f.left, f.CenterX(), f.right}
    ensures forall j :: 0 <= j < 6 ==> t[2 * j + 1] in {f.top, f.CenterY(), f.bottom}
  {
    seq(12, i requires 0 <= i < 12 => Coord(k, i, f))
  }

  /** Every point of every template lies inside the frame, once the frame's
      edges are in order. */
  lemma TemplateInsideFrame(k: GlyphIndex, f: Geometry.Frame, j: int)
    requires f.left <= f.right && f.top <= f.bottom
    requires 0 <= j < 6
    ensures f.left <= Template(k, f)[2 * j] <= f.right
    ensures f.top <= Template(k, f)[2 * j + 1] <= f.bottom
  {
  }

  /** All scalars of the empty frame are zero, so every template is. */
  lemma EmptyFrameTemplates(k: GlyphIndex, i: int)
    requires 0 <= i < 12
    ensures Coord(k, i, Geometry.EmptyFrame) == 0.0
  {
  }

  /** Points 4 and 5 (the third segment) coincide exactly for the plus,
      minus, x, the four angles and the check, that is for the glyphs
      numbered below ArrowDown; the arrows and the menu draw a real third
      line once the frame has positive width and height. */
  lemma {:induction false} ThirdSegmentCollapsed(k: GlyphIndex, f: Geometry.Frame)
    requires f.left < f.right && f.top < f.bottom
    ensures var t := Template(k, f);
      (t[8] == t[10] && t[9] == t[11]) <==> k < ArrowDown
  {
    var t := Template(k, f);
    assert t[8] == Coord(k, 8, f) && t[9] == Coord(k, 9, f);
    assert t[10] == Coord(k, 10, f) && t[11] == Coord(k, 11, f);
    assert f.left < f.CenterX() < f.right && f.top < f.CenterY() < f.bottom;
  }

  /** In every frame, even an empty or inverted one, points 4 and 5 of the
      glyphs numbered below ArrowDown are the same point. */
  lemma ThirdSegmentDegenerate(k: GlyphIndex, f: Geometry.Frame)
    requires k < ArrowDown
    ensures var t := Template(k, f); t[8] == t[10] && t[9] == t[11]
  {
  }

  /** A worked instance on the frame (0, 0, 100, 100): the plus is the
      vertical line (50,0)-(50,100), the horizontal line (0,50)-(100,50) and
      the point (50,50); the x is the two diagonals and the same point. */
  lemma PlusAndXOnSquare()
    ensures Template(Plus, Geometry.Frame(0.0, 0.0, 100.0, 100.0))
         == [50.0, 0.0, 50.0, 100.0, 0.0, 50.0, 100.0, 50.0, 50.0, 50.0, 50.0, 50.0]
    ensures Template(X, Geometry.Frame(0.0, 0.0, 100.0, 100.0))
         == [0.0, 0.0, 100.0, 100.0, 0.0, 100.0, 100.0, 0.0, 50.0, 50.0, 50.0, 50.0]
  {
  }
}
