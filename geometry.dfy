/** Rectangles and the glyph frame that the drawable derives from its bounds
    whenever they change. */
module Geometry {
  import opened Java

  /** `android.graphics.Rect`: integer edges, as handed to `onBoundsChange`. */
  datatype Rect = Rect(left: int, top: int, right: int, bottom: int) {
    function Width(): int { right - left }
    function Height(): int { bottom - top }
  }

  /** `android.graphics.RectF`, with its float edges read as exact reals: the
      frame only ever adds, subtracts and halves. */
  datatype Frame = Frame(left: real, top: real, right: real, bottom: real) {
    function CenterX(): real { (left + right) / 2.0 }
    function CenterY(): real { (top + bottom) / 2.0 }
  }

  /** A freshly allocated `RectF`: all four edges zero. */
  const EmptyFrame := Frame(0.0, 0.0, 0.0, 0.0)

  /** Where the glyph is mounted on its button. */
  datatype BackgroundPosition = Background | Left | Top | Right | Bottom {

    /** `getNum`: the position's index in the fixed list of positions. */
    function GetNum(): (n: int)
      ensures 0 <= n < |BackgroundPositions| && BackgroundPositions[n] == this
    {
      PositionListed(this);
      IndexOf(BackgroundPositions, this)
    }

    /** `enumOf`: the position at index `n`; None where `List.get` throws. */
    static function EnumOf(n: int): (r: Option<BackgroundPosition>)
      ensures r.Some? <==> 0 <= n < 5
      ensures r.Some? ==> r.value.GetNum() == n
    {
      var r := Get(BackgroundPositions, n);
      if r.Some? then IndexOfGet(BackgroundPositions, n); r else r
    }
  }

  const BackgroundPositions: seq<BackgroundPosition> := [Background, Left, Top, Right, Bottom]

  /** Every position occurs in the list. */
  lemma PositionListed(p: BackgroundPosition)
    ensures p in BackgroundPositions
  {
    match p
    case Background => assert BackgroundPositions[0] == p;
    case Left => assert BackgroundPositions[1] == p;
    case Top => assert BackgroundPositions[2] == p;
    case Right => assert BackgroundPositions[3] == p;
    case Bottom => assert BackgroundPositions[4] == p;
  }

  /** `enumOf` undoes `getNum`. */
  lemma PositionRoundTrip(p: BackgroundPosition)
    ensures BackgroundPosition.EnumOf(p.GetNum()) == Some(p)
  {
  }

  /** The padding kept between the bounds and the frame on every side: a
      quarter of the bounds' width, in integer division. */
  function Padding(b: Rect): int
  {
    Div(b.Width(), 4)
  }

  /** The amount (deltaX, deltaY) by which the frame is moved up and to the
      left for a glyph mounted at `pos`, given the bounds' height. */
  function Offset(height: int, pos: BackgroundPosition): (d: (int, int))
    ensures pos == Background ==> d == (0, 0)
    ensures 0 <= height ==> 0 <= d.0 <= height && 0 <= d.1 <= height
  {
    match pos
    case Background => (0, 0)
    case Left => (height, Div(height, 2))
    case Top => (Div(height, 2), height)
    case Right => (0, Div(height, 2))
    case Bottom => (Div(height, 2), 0)
  }

  /** The top offset is the left one with the axes swapped, and the bottom
      offset the right one with the axes swapped. */
  lemma OffsetMirror(height: int)
    ensures Offset(height, Top) == (Offset(height, Left).1, Offset(height, Left).0)
    ensures Offset(height, Bottom) == (Offset(height, Right).1, Offset(height, Right).0)
  {
  }

  /** The frame `onBoundsChange` computes from new bounds `b`: `b` inset by
      the padding on all four sides, then moved by the position's offset. */
  function ComputeFrame(b: Rect, pos: BackgroundPosition): (f: Frame)
    ensures f.right - f.left == (b.Width() - 2 * Padding(b)) as real
    ensures f.bottom - f.top == (b.Height() - 2 * Padding(b)) as real
    ensures f.CenterX() == (b.left + b.right) as real / 2.0 - Offset(b.Height(), pos).0 as real
    ensures f.CenterY() == (b.top + b.bottom) as real / 2.0 - Offset(b.Height(), pos).1 as real
  {
    var padding := Padding(b) as real;
    var (deltaX, deltaY) := Offset(b.Height(), pos);
    Frame(b.left as real + padding - deltaX as real,
          b.top as real + padding - deltaY as real,
          b.right as real - padding - deltaX as real,
          b.bottom as real - padding - deltaY as real)
  }

  /** Square bounds of side `s >= 0` give a square frame of side
      `s - 2 * (s / 4)`, which is never negative: the frame's edges are in
      order. */
  lemma SquareBoundsSquareFrame(b: Rect, pos: BackgroundPosition)
    requires b.Width() == b.Height() >= 0
    ensures var f := ComputeFrame(b, pos);
      f.right - f.left == f.bottom - f.top == (b.Width() - 2 * Div(b.Width(), 4)) as real
      && f.left <= f.right && f.top <= f.bottom
  {
    var s := b.Width();
    assert 0 <= s - Div(s, 4) * 4 < 4;
  }
}
