/** The shape-morphing drawable: six live points (12 coordinates), the 13
    templates computed from the current frame, the checked flag, and the
    transitions between the unchecked and the checked template. */
module Drawable {
  import Java
  import Geometry
  import opened Glyphs

  /** Length of an animated transition, in milliseconds. */
  const AnimationDuration := 250

  /** Slot of the x coordinate of point `pointIndex`. */
  function XPosition(pointIndex: int): (c: int)
    ensures c % 2 == 0 && c / 2 == pointIndex
    ensures 0 <= pointIndex < 6 <==> 0 <= c < 12
  {
    pointIndex * 2
  }

  /** Slot of the y coordinate of point `pointIndex`. */
  function YPosition(pointIndex: int): (c: int)
    ensures c % 2 == 1 && c / 2 == pointIndex
    ensures 0 <= pointIndex < 6 <==> 0 <= c < 12
  {
    XPosition(pointIndex) + 1
  }

  /** The slots split exactly: each of the 12 slots is the x slot or the y
      slot of exactly one of the points 0..5, never both. */
  lemma SlotOwner(c: int)
    requires 0 <= c < 12
    ensures 0 <= c / 2 < 6
    ensures c == XPosition(c / 2) <==> c % 2 == 0
    ensures c == YPosition(c / 2) <==> c % 2 == 1
    ensures forall p :: XPosition(p) == c ==> p == c / 2
    ensures forall p :: YPosition(p) == c ==> p == c / 2
  {
  }

  /** One line handed to the canvas: (x0, y0) to (x1, y1). */
  datatype Line = Line(x0: real, y0: real, x1: real, y1: real)

  /** The coordinates of a sequence of lines, in order: line `j` supplies
      entries 4j to 4j + 3, start point first. */
  function Coordinates(lines: seq<Line>): (c: seq<real>)
    ensures |c| == 4 * |lines|
    ensures forall j :: 0 <= j < |lines| ==>
      c[4 * j] == lines[j].x0 && c[4 * j + 1] == lines[j].y0 &&
      c[4 * j + 2] == lines[j].x1 && c[4 * j + 3] == lines[j].y1
  {
    if lines == [] then []
    else [lines[0].x0, lines[0].y0, lines[0].x1, lines[0].y1] + Coordinates(lines[1..])
  }

  /** A transition handed to the animation framework: every coordinate goes
      from `start[i]` to `target[i]` over `duration` milliseconds, all on
      one timeline. */
  datatype Transition = Transition(start: seq<real>, target: seq<real>, duration: int)

  class TransformableDrawable {
    /** mPoints: the live coordinates, point `p` at slots 2p and 2p + 1. */
    const points: array<real>
    /** mPointsDraw: row `k` holds template `k` for the current frame. */
    const pointsDraw: array2<real>
    /** mBounds: the frame the templates were computed from. */
    var bounds: Geometry.Frame
    /** mChecked */
    var checked: bool
    /** Template numbers of the unchecked and the checked glyph. Nothing
        checks them against the catalog; using one out of range fails. */
    const unCheckDraw: int
    const checkDraw: int
    /** positionDrawable */
    var position: Geometry.BackgroundPosition
    /** The bounds last set through `SetBounds` (kept by the framework). */
    var rect: Geometry.Rect

    /** The arrays have their sizes and every template row agrees with the
        current frame: no row is ever left from an earlier frame. */
    ghost predicate Valid()
      reads this, pointsDraw
    {
      && points.Length == 12
      && pointsDraw.Length0 == 13 && pointsDraw.Length1 == 12
      && forall k, i :: 0 <= k < 13 && 0 <= i < 12 ==> pointsDraw[k, i] == Coord(k, i, bounds)
    }

    /** The template shown when the flag is `enable`. */
    function Selected(enable: bool): int
    {
      if enable then checkDraw else unCheckDraw
    }

    /** A new drawable: no bounds yet, so the frame and all coordinates are
        zero (and so every template row is the empty frame's template). */
    constructor (unCheckDraw: int, checkDraw: int)
      ensures Valid() && fresh(points) && fresh(pointsDraw)
      ensures this.unCheckDraw == unCheckDraw && this.checkDraw == checkDraw
      ensures !checked && position == Geometry.Background
      ensures bounds == Geometry.EmptyFrame && rect == Geometry.Rect(0, 0, 0, 0)
      ensures forall i :: 0 <= i < 12 ==> points[i] == 0.0
    {
      this.unCheckDraw := unCheckDraw;
      this.checkDraw := checkDraw;
      points := new real[12](_ => 0.0);
      pointsDraw := new real[13, 12]((_, _) => 0.0);
      bounds := Geometry.EmptyFrame;
      checked := false;
      position := Geometry.Background;
      rect := Geometry.Rect(0, 0, 0, 0);
      new;
      forall k, i | 0 <= k < 13 && 0 <= i < 12
        ensures pointsDraw[k, i] == Coord(k, i, bounds)
      {
        EmptyFrameTemplates(k, i);
      }
    }

    /** setPositionDrawable */
    method SetPosition(p: Geometry.BackgroundPosition)
      requires Valid()
      modifies this`position
      ensures Valid() && position == p
    {
      position := p;
    }

    /** `Drawable.setBounds`: record the bounds and, only when they differ
        from the recorded ones, run `onBoundsChange`. */
    method SetBounds(r: Geometry.Rect)
      requires Valid() && 0 <= unCheckDraw < 13
      modifies this`rect, this`bounds, pointsDraw, points
      ensures Valid() && rect == r && checked == old(checked)
      ensures old(rect) != r ==>
        bounds == Geometry.ComputeFrame(r, position) && points[..] == Template(unCheckDraw, bounds)
      ensures old(rect) == r ==> bounds == old(bounds) && points[..] == old(points[..])
    {
      if r != rect {
        rect := r;
        OnBoundsChange(r);
      }
    }

    /** onBoundsChange: recompute the frame from the new bounds, rebuild all
        templates and snap the live points to the unchecked template. The
        checked flag is left as it was. */
    method OnBoundsChange(b: Geometry.Rect)
      requires Valid() && 0 <= unCheckDraw < 13
      modifies this`bounds, pointsDraw, points
      ensures Valid() && checked == old(checked)
      ensures bounds == Geometry.ComputeFrame(b, position)
      ensures points[..] == Template(unCheckDraw, bounds)
    {
      var padding := Java.Div(b.Width(), 4) as real;
      var deltaX, deltaY := 0, 0;
      match position {
        case Background =>
        case Left => deltaX, deltaY := b.Height(), Java.Div(b.Height(), 2);
        case Top => deltaY, deltaX := b.Height(), Java.Div(b.Height(), 2);
        case Right => deltaY := Java.Div(b.Height(), 2);
        case Bottom => deltaX := Java.Div(b.Height(), 2);
      }
      bounds := Geometry.Frame(b.left as real + padding - deltaX as real,
                               b.top as real + padding - deltaY as real,
                               b.right as real - padding - deltaX as real,
                               b.bottom as real - padding - deltaY as real);
      SetUpLines();
    }

    /** setUpLines: fill every row of the table from the current frame, then
        copy the unchecked row into the live points. */
    method SetUpLines()
      requires points.Length == 12 && pointsDraw.Length0 == 13 && pointsDraw.Length1 == 12
      requires 0 <= unCheckDraw < 13
      modifies pointsDraw, points
      ensures Valid()
      ensures points[..] == Template(unCheckDraw, bounds)
    {
      for k := 0 to 13
        invariant forall k', i :: 0 <= k' < k && 0 <= i < 12 ==> pointsDraw[k', i] == Coord(k', i, bounds)
      {
        for i := 0 to 12
          invariant forall k', i' :: 0 <= k' < k && 0 <= i' < 12 ==> pointsDraw[k', i'] == Coord(k', i', bounds)
          invariant forall i' :: 0 <= i' < i ==> pointsDraw[k, i'] == Coord(k, i', bounds)
        {
          pointsDraw[k, i] := Coord(k, i, bounds);
        }
      }
      for i := 0 to 12
        invariant Valid()
        invariant forall i' :: 0 <= i' < i ==> points[i'] == pointsDraw[unCheckDraw, i']
      {
        points[i] := pointsDraw[unCheckDraw, i];
      }
    }

    /** getPoint: the target of coordinate `i` when the flag becomes
        `enable`, read from the template table. */
    function GetPoint(i: int, enable: bool): (v: real)
      reads this, pointsDraw
      requires Valid() && 0 <= i < 12 && 0 <= Selected(enable) < 13
      ensures v == Template(Selected(enable), bounds)[i]
    {
      pointsDraw[Selected(enable), i]
    }

    /** x(pointIndex): the live x coordinate of a point. */
    function X(pointIndex: int): (v: real)
      reads this, points, pointsDraw
      requires Valid() && 0 <= pointIndex < 6
      ensures v == points[2 * pointIndex]
    {
      points[XPosition(pointIndex)]
    }

    /** y(pointIndex): the live y coordinate of a point. */
    function Y(pointIndex: int): (v: real)
      reads this, points, pointsDraw
      requires Valid() && 0 <= pointIndex < 6
      ensures v == points[2 * pointIndex + 1]
    {
      points[YPosition(pointIndex)]
    }

    /** The three lines `draw` hands to the canvas: points 0-1, 2-3 and 4-5.
        Together they use each live coordinate once, in slot order. */
    function Lines(): (lines: seq<Line>)
      reads this, points, pointsDraw
      requires Valid()
      ensures |lines| == 3
      ensures Coordinates(lines) == points[..]
    {
      var lines := [Line(X(0), Y(0), X(1), Y(1)),
                    Line(X(2), Y(2), X(3), Y(3)),
                    Line(X(4), Y(4), X(5), Y(5))];
      assert Coordinates(lines[2..]) == points[8..12];
      assert Coordinates(lines[1..]) == points[4..12];
      lines
    }

    /** XPointProperty.set: write the x coordinate of one point, nothing
        else. */
    method SetX(pointIndex: int, value: real)
      requires Valid() && 0 <= pointIndex < 6
      modifies points
      ensures Valid() && X(pointIndex) == value
      ensures points[..] == old(points[..])[XPosition(pointIndex) := value]
    {
      points[XPosition(pointIndex)] := value;
    }

    /** YPointProperty.set: write the y coordinate of one point, nothing
        else. */
    method SetY(pointIndex: int, value: real)
      requires Valid() && 0 <= pointIndex < 6
      modifies points
      ensures Valid() && Y(pointIndex) == value
      ensures points[..] == old(points[..])[YPosition(pointIndex) := value]
    {
      points[YPosition(pointIndex)] := value;
    }

    /** The last frame of a transition: the animator writes every target
        through the point properties. */
    method FinishTransition(t: Transition)
      requires Valid() && |t.target| == 12
      modifies points
      ensures Valid() && points[..] == t.target
    {
      for c := 0 to 12
        invariant Valid()
        invariant forall j :: 0 <= j < c ==> points[j] == t.target[j]
      {
        SlotOwner(c);
        if c % 2 == 0 {
          SetX(c / 2, t.target[c]);
        } else {
          SetY(c / 2, t.target[c]);
        }
      }
    }

    /** setChecked: the flag takes its new value at once, and every
        coordinate is sent from its live value to the selected template.
        Without animation the duration is 0 and the points land on the
        template at once; with animation they are still where they were. */
    method SetChecked(enable: bool, animated: bool) returns (t: Transition)
      requires Valid() && 0 <= Selected(enable) < 13
      modifies this`checked, points
      ensures Valid() && checked == enable
      ensures t.start == old(points[..])
      ensures t.target == Template(Selected(enable), bounds)
      ensures t.duration == if animated then AnimationDuration else 0
      ensures points[..] == if animated then old(points[..]) else t.target
    {
      var target := [GetPoint(0, enable), GetPoint(1, enable), GetPoint(2, enable), GetPoint(3, enable),
                     GetPoint(4, enable), GetPoint(5, enable), GetPoint(6, enable), GetPoint(7, enable),
                     GetPoint(8, enable), GetPoint(9, enable), GetPoint(10, enable), GetPoint(11, enable)];
      checked := enable;
      t := Transition(points[..], target, if animated then AnimationDuration else 0);
      if !animated {
        FinishTransition(t);
      }
    }

    /** toggle: an animated `SetChecked` to the opposite flag. */
    method Toggle() returns (t: Transition)
      requires Valid() && 0 <= Selected(!checked) < 13
      modifies this`checked, points
      ensures Valid() && checked == !old(checked)
      ensures t.start == old(points[..]) && t.duration == AnimationDuration
      ensures t.target == Template(Selected(checked), bounds)
      ensures points[..] == old(points[..])
    {
      if checked {
        t := SetChecked(false, true);
      } else {
        t := SetChecked(true, true);
      }
    }

    /** Two toggles in a row, each left to finish (the first ends first, both
        lasting the same): the flag is back where it was and the points rest
        on the template of that flag. */
    method ToggleTwice()
      requires Valid() && 0 <= unCheckDraw < 13 && 0 <= checkDraw < 13
      modifies this`checked, points
      ensures Valid() && checked == old(checked)
      ensures points[..] == Template(Selected(checked), bounds)
    {
      var first := Toggle();
      var second := Toggle();
      FinishTransition(first);
      FinishTransition(second);
    }
  }
}
