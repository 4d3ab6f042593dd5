/** The button that hosts the drawable: the glyph and position enums, the
    square it gives the drawable on every layout pass, and the
    touch-to-toggle rule. */
module Button {
  import opened Java
  import Geometry
  import Glyphs
  import Drawable

  /** MotionEvent.ACTION_UP */
  const ActionUp := 1

  /** The glyphs a button can be configured with. */
  datatype Draw =
    | Plus | Minus | X | AngleDown | AngleLeft | AngleUp | AngleRight
    | Check | ArrowDown | ArrowLeft | ArrowUp | ArrowRight | Menu
  {
    /** `getNum`: the glyph's index in the fixed list of glyphs. */
    function GetNum(): (n: int)
      ensures 0 <= n < |Draws| && Draws[n] == this
    {
      DrawListed(this);
      IndexOf(Draws, this)
    }

    /** `enumOf`: the glyph at index `n`; None where `List.get` throws. */
    static function EnumOf(n: int): (r: Option<Draw>)
      ensures r.Some? <==> 0 <= n < 13
      ensures r.Some? ==> r.value.GetNum() == n
    {
      var r := Get(Draws, n);
      if r.Some? then IndexOfGet(Draws, n); r else r
    }

    /** The drawable's template number for the glyph of the same name. */
    function CatalogIndex(): Glyphs.GlyphIndex
    {
      match this
      case Plus => Glyphs.Plus
      case Minus => Glyphs.Minus
      case X => Glyphs.X
      case AngleDown => Glyphs.AngleDown
      case AngleLeft => Glyphs.AngleLeft
      case AngleUp => Glyphs.AngleUp
      case AngleRight => Glyphs.AngleRight
      case Check => Glyphs.Check
      case ArrowDown => Glyphs.ArrowDown
      case ArrowLeft => Glyphs.ArrowLeft
      case ArrowUp => Glyphs.ArrowUp
      case ArrowRight => Glyphs.ArrowRight
      case Menu => Glyphs.Menu
    }
  }

  const Draws: seq<Draw> :=
    [Plus, Minus, X, AngleDown, AngleLeft, AngleUp, AngleRight,
     Check, ArrowDown, ArrowLeft, ArrowUp, ArrowRight, Menu]

  /** Every glyph occurs in the list. */
  lemma DrawListed(d: Draw)
    ensures d in Draws
  {
    assert Draws[d.CatalogIndex()] == d;
  }

  /** `enumOf` undoes `getNum` for every glyph. */
  lemma DrawRoundTrip(d: Draw)
    ensures Draw.EnumOf(d.GetNum()) == Some(d)
  {
  }

  /** A glyph's number is the drawable's template number of the same name,
      so a button configured with a glyph shows that glyph. */
  lemma DrawNumberIsCatalogIndex(d: Draw)
    ensures d.GetNum() == d.CatalogIndex()
  {
    assert Draws[d.CatalogIndex()] == d;
    IndexOfGet(Draws, d.CatalogIndex());
  }

  /** Where a button mounts its glyph. */
  datatype PositionDraw = Background | Left | Top | Right | Bottom {
    /** `getNum`: the position's index in the fixed list of positions. */
    function GetNum(): (n: int)
      ensures 0 <= n < |PositionDraws| && PositionDraws[n] == this
    {
      PositionDrawListed(this);
      IndexOf(PositionDraws, this)
    }

    /** `enumOf`: the position at index `n`; None where `List.get` throws. */
    static function EnumOf(n: int): (r: Option<PositionDraw>)
      ensures r.Some? <==> 0 <= n < 5
      ensures r.Some? ==> r.value.GetNum() == n
    {
      var r := Get(PositionDraws, n);
      if r.Some? then IndexOfGet(PositionDraws, n); r else r
    }

    /** The drawable's position of the same name. */
    function ToBackgroundPosition(): Geometry.BackgroundPosition
    {
      match this
      case Background => Geometry.Background
      case Left => Geometry.Left
      case Top => Geometry.Top
      case Right => Geometry.Right
      case Bottom => Geometry.Bottom
    }
  }

  const PositionDraws: seq<PositionDraw> := [Background, Left, Top, Right, Bottom]

  /** Every position occurs in the list. */
  lemma PositionDrawListed(p: PositionDraw)
    ensures p in PositionDraws
  {
    match p
    case Background => assert PositionDraws[0] == p;
    case Left => assert PositionDraws[1] == p;
    case Top => assert PositionDraws[2] == p;
    case Right => assert PositionDraws[3] == p;
    case Bottom => assert PositionDraws[4] == p;
  }

  /** `enumOf` undoes `getNum` for every position. */
  lemma PositionDrawRoundTrip(p: PositionDraw)
    ensures PositionDraw.EnumOf(p.GetNum()) == Some(p)
  {
  }

  /** The button's position list is in the drawable's order: passing a
      position's number to the drawable's `enumOf` gives the position of
      the same name. */
  lemma PositionOrdersAgree(p: PositionDraw)
    ensures p.GetNum() == p.ToBackgroundPosition().GetNum()
    ensures Geometry.BackgroundPosition.EnumOf(p.GetNum()) == Some(p.ToBackgroundPosition())
  {
    var n := p.GetNum();
    var q := p.ToBackgroundPosition();
    assert Geometry.BackgroundPositions[n] == q;
    IndexOfGet(Geometry.BackgroundPositions, n);
  }

  /** `Math.min` */
  function Min(a: int, b: int): int
  {
    if a <= b then a else b
  }

  /** The side of the drawable's square: the smaller of height and width for
      a background glyph, half of it (Java division) otherwise. */
  function Side(width: int, height: int, pos: Geometry.BackgroundPosition): (r: int)
    ensures pos == Geometry.Background ==> r <= height && r <= width && (r == height || r == width)
    ensures pos != Geometry.Background ==>
      r <= Div(height, 2) && r <= Div(width, 2) && (r == Div(height, 2) || r == Div(width, 2))
  {
    var m := Min(height, width);
    if pos == Geometry.Background then m else Div(m, 2)
  }

  /** The bounds `onGlobalLayout` gives the drawable, for each position. */
  function LayoutBounds(width: int, height: int, pos: Geometry.BackgroundPosition): (r: Geometry.Rect)
    ensures r.Width() == Side(width, height, pos) && r.Height() == Side(width, height, pos)
  {
    var min := Side(width, height, pos);
    ThreeHalvesMinusHalf(min);
    match pos
    case Background => Geometry.Rect(0, 0, min, min)
    case Left => Geometry.Rect(min, Div(min, 2), min * 2, Div(min * 3, 2))
    case Top => Geometry.Rect(Div(width - min, 2), min, Div(width - min, 2) + min, min * 2)
    case Right => Geometry.Rect(0, Div(min, 2), min, Div(min * 3, 2))
    case Bottom => Geometry.Rect(Div(width - min, 2), Div(height, 2) - min,
                                 Div(width - min, 2) + min, Div(height, 2) - min + min)
  }

  /** For a real view (width and height not negative) the side is not
      negative and fits in both dimensions; off the background it is half
      the smaller dimension, rounded down. */
  lemma SideFits(width: int, height: int, pos: Geometry.BackgroundPosition)
    requires 0 <= width && 0 <= height
    ensures 0 <= Side(width, height, pos) <= Min(height, width)
    ensures pos != Geometry.Background ==>
      2 * Side(width, height, pos) <= Min(height, width) <= 2 * Side(width, height, pos) + 1
  {
  }

  /** On every layout pass of a real view, the frame the drawable computes
      from its bounds is a square with its edges in order, and every point
      of every template lies inside it. */
  lemma LaidOutGlyphFits(width: int, height: int, pos: Geometry.BackgroundPosition,
                         k: Glyphs.GlyphIndex, j: int)
    requires 0 <= width && 0 <= height && 0 <= j < 6
    ensures var s := Side(width, height, pos);
      var f := Geometry.ComputeFrame(LayoutBounds(width, height, pos), pos);
      && f.right - f.left == f.bottom - f.top == (s - 2 * Div(s, 4)) as real
      && f.left <= Glyphs.Template(k, f)[2 * j] <= f.right
      && f.top <= Glyphs.Template(k, f)[2 * j + 1] <= f.bottom
  {
    var f := Geometry.ComputeFrame(LayoutBounds(width, height, pos), pos);
    SideFits(width, height, pos);
    Geometry.SquareBoundsSquareFrame(LayoutBounds(width, height, pos), pos);
    Glyphs.TemplateInsideFrame(k, f, j);
  }

  /** For the background, left and right positions the offset cancels the
      bounds' corner exactly: the frame is the square from (p, p) to
      (s - p, s - p), with side `s` and padding `p = s / 4`. */
  lemma AnchoredFrame(width: int, height: int, pos: Geometry.BackgroundPosition)
    requires pos == Geometry.Background || pos == Geometry.Left || pos == Geometry.Right
    ensures var s := Side(width, height, pos); var p := Div(s, 4);
      Geometry.ComputeFrame(LayoutBounds(width, height, pos), pos)
        == Geometry.Frame(p as real, p as real, (s - p) as real, (s - p) as real)
  {
    var s := Side(width, height, pos);
    ThreeHalvesMinusHalf(s);
    match pos {
      case Background =>
        assert LayoutBounds(width, height, pos) == Geometry.Rect(0, 0, s, s);
      case Left =>
        assert LayoutBounds(width, height, pos) == Geometry.Rect(s, Div(s, 2), s * 2, Div(s * 3, 2));
      case Right =>
        assert LayoutBounds(width, height, pos) == Geometry.Rect(0, Div(s, 2), s, Div(s * 3, 2));
    }
  }

  class TransformableButton {
    /** transformableDrawable: null until the attributes are set. */
    var drawable: Drawable.TransformableDrawable?
    /** backgroundPosition: null (None) until the attributes are set. */
    var position: Option<Geometry.BackgroundPosition>
    /** Whether an OnCheckedChangeListener is registered. */
    var hasListener: bool

    /** The drawable is consistent, and once the button knows its position
        the drawable has the same one. */
    ghost predicate Valid()
      reads this, drawable, if drawable != null then {drawable.pointsDraw} else {}
    {
      drawable != null ==>
        drawable.Valid() && (position.Some? ==> drawable.position == position.value)
    }

    /** A button whose attributes were never read (the edit-mode
        constructors skip `init`). */
    constructor Unattached()
      ensures Valid() && drawable == null && position == None && !hasListener
    {
      drawable := null;
      position := None;
      hasListener := false;
    }

    /** The constructor taking glyphs and a position directly: their numbers
        go through `setAttributes`, so the drawable gets the templates and
        the position of the same names (DrawNumberIsCatalogIndex and
        PositionOrdersAgree relate the numbers to the names). */
    constructor (unCheck: Draw, check: Draw, pos: PositionDraw)
      ensures Valid() && drawable != null && fresh(drawable) && !hasListener
      ensures drawable.unCheckDraw == unCheck.CatalogIndex() && drawable.checkDraw == check.CatalogIndex()
      ensures !drawable.checked && position == Some(pos.ToBackgroundPosition())
      ensures drawable.position == pos.ToBackgroundPosition()
      ensures drawable.rect == Geometry.Rect(0, 0, 0, 0) && drawable.bounds == Geometry.EmptyFrame
      ensures forall i :: 0 <= i < 12 ==> drawable.points[i] == 0.0
    {
      drawable := null;
      position := None;
      hasListener := false;
      new;
      PositionOrdersAgree(pos);
      var _ := SetAttributes(unCheck.CatalogIndex(), check.CatalogIndex(), pos.GetNum());
    }

    /** setAttributes: make the drawable, then look the position number up.
        The drawable exists even when the lookup throws; the position is then
        left unset and the drawable keeps its default. */
    method SetAttributes(unCheck: int, check: int, drawablePosition: int) returns (ok: bool)
      requires drawable == null && position == None
      modifies this
      ensures Valid() && drawable != null && fresh(drawable) && hasListener == old(hasListener)
      ensures drawable.unCheckDraw == unCheck && drawable.checkDraw == check && !drawable.checked
      ensures ok <==> 0 <= drawablePosition < 5
      ensures ok ==> Some(drawable.position) == position == Geometry.BackgroundPosition.EnumOf(drawablePosition)
      ensures !ok ==> position == None && drawable.position == Geometry.Background
      ensures drawable.rect == Geometry.Rect(0, 0, 0, 0) && drawable.bounds == Geometry.EmptyFrame
      ensures forall i :: 0 <= i < 12 ==> drawable.points[i] == 0.0
    {
      drawable := new Drawable.TransformableDrawable(unCheck, check);
      var p := Geometry.BackgroundPosition.EnumOf(drawablePosition);
      ok := p.Some?;
      if ok {
        position := p;
        drawable.SetPosition(p.value);
      }
    }

    /** onGlobalLayout: give the drawable its square for the current size.
        The drawable rebuilds its templates and snaps to the unchecked glyph
        only when the square actually changed. */
    method OnGlobalLayout(width: int, height: int)
      requires Valid() && drawable != null && position.Some?
      requires 0 <= drawable.unCheckDraw < 13
      modifies drawable`rect, drawable`bounds, drawable.pointsDraw, drawable.points
      ensures Valid() && drawable.checked == old(drawable.checked)
      ensures drawable.rect == LayoutBounds(width, height, position.value)
      ensures old(drawable.rect) != drawable.rect ==>
        && drawable.bounds == Geometry.ComputeFrame(drawable.rect, position.value)
        && drawable.points[..] == Glyphs.Template(drawable.unCheckDraw, drawable.bounds)
      ensures old(drawable.rect) == drawable.rect ==>
        drawable.bounds == old(drawable.bounds) && drawable.points[..] == old(drawable.points[..])
    {
      drawable.SetBounds(LayoutBounds(width, height, position.value));
    }

    /** isChecked: false while there is no drawable, otherwise the drawable's
        flag. */
    function IsChecked(): (r: bool)
      reads this, drawable
      ensures drawable == null ==> !r
      ensures drawable != null ==> r == drawable.checked
    {
      drawable != null && drawable.checked
    }

    /** setChecked: passed on to the drawable. */
    method SetChecked(checked: bool, animated: bool) returns (t: Drawable.Transition)
      requires Valid() && drawable != null && 0 <= drawable.Selected(checked) < 13
      modifies drawable`checked, drawable.points
      ensures Valid() && IsChecked() == checked
      ensures t.start == old(drawable.points[..])
      ensures t.duration == if animated then Drawable.AnimationDuration else 0
      ensures t.target == Glyphs.Template(drawable.Selected(checked), drawable.bounds)
      ensures drawable.points[..] == if animated then old(drawable.points[..]) else t.target
    {
      t := drawable.SetChecked(checked, animated);
    }

    /** setOnCheckedChangeListener: register (or clear) the listener. */
    method SetListener(present: bool)
      modifies this`hasListener
      ensures hasListener == present
    {
      hasListener := present;
    }

    /** onTouchEvent: an ACTION_UP toggles the drawable, which starts an
        animated transition from the live points toward the template of the
        new flag (`started`); every event, whatever its action, then reports
        the current state to the listener if there is one. Only the flag
        changes: the frame, the bounds, the position and the live points
        stay as they were until the animator runs. */
    method OnTouchEvent(action: int) returns (notified: Option<bool>, started: Option<Drawable.Transition>)
      requires Valid()
      requires action == ActionUp ==> drawable != null && 0 <= drawable.Selected(!drawable.checked) < 13
      modifies if drawable != null then {drawable, drawable.points} else {}
      ensures Valid() && drawable == old(drawable)
      ensures action == ActionUp ==>
        && IsChecked() == !old(IsChecked())
        && started.Some? && started.value.duration == Drawable.AnimationDuration
        && started.value.start == old(drawable.points[..])
        && started.value.target == Glyphs.Template(drawable.Selected(drawable.checked), drawable.bounds)
      ensures action != ActionUp ==> IsChecked() == old(IsChecked()) && started == None
      ensures drawable != null ==>
        && drawable.points[..] == old(drawable.points[..])
        && drawable.bounds == old(drawable.bounds) && drawable.rect == old(drawable.rect)
        && drawable.position == old(drawable.position)
      ensures notified == if hasListener then Some(IsChecked()) else None
    {
      started := None;
      if action == ActionUp {
        var t := drawable.Toggle();
        started := Some(t);
      }
      notified := if hasListener then Some(IsChecked()) else None;
    }
  }
}
