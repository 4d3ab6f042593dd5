# TransformableButton / TransformableDrawable in Dafny

A model of the shape-morphing engine behind the Android `TransformableButton`.
The button's glyph is drawn as three line segments between six points (12
coordinates). A glyph morphs between two templates, an unchecked one and a
checked one, by moving every coordinate to the other template.

The model has five modules, one per concern:

- `Java` (java.dfy): the Java semantics the code relies on. This is `int`
  division that truncates toward zero, `List.indexOf`, and `List.get`. A
  `get` out of range, which throws in Java, is `None` here.
- `Geometry` (geometry.dfy): `Rect` and `RectF`, the latter as `Frame` with
  real edges. Also the `BackgroundPosition` enum, and the frame that
  `onBoundsChange` derives from new bounds (`ComputeFrame`).
- `Glyphs` (glyphs.dfy): the catalog of 13 templates. Each template is a row
  of six symbolic points. Each point pairs an x scalar of the frame (left,
  centerX or right) with a y scalar (top, centerY or bottom). `Template`
  evaluates a row in a frame to its 12 coordinates.
- `Drawable` (drawable.dfy): the class `TransformableDrawable`. `mPoints` is
  an `array<real>` of 12 entries and `mPointsDraw` an `array2<real>` of
  13 × 12. The class also keeps the frame, the checked flag and the two
  template numbers. Its invariant `Valid()` says that every row of
  `mPointsDraw` is the template of the current frame. This already holds at
  construction, because all-zero arrays are the templates of the empty
  `RectF`.
- `Button` (button.dfy): the `Draw` and `PositionDraw` enums and the square
  that `onGlobalLayout` gives the drawable (`LayoutBounds`). Also the class
  `TransformableButton` with `isChecked` and the touch-to-toggle rule.

Floats are modelled as reals, since the frame and the templates only add,
subtract and halve. Java's `/` on `int` is modelled as `Java.Div`, which
truncates toward zero.

A transition is modelled by what the code hands to the animation framework:
a `Transition` that holds the start values (read from the live points when
the transition is made), the target template and the duration. The
duration is 250 ms when animated and 0 otherwise. An unanimated `SetChecked`
lands on the target at once. `FinishTransition` models the animator's last
frame, which writes every target through the point-property setters.

`Drawable.setBounds` belongs to the framework, not to this repository. It is
modelled as `SetBounds`: it records the bounds and runs `onBoundsChange` only
when the bounds differ from the recorded ones.

Behaviour of the code that a reader might not expect, and that the model
keeps:

- A bounds change re-snaps the live points to the unchecked template but
  does not reset `mChecked`. After a layout pass a checked button can show
  the unchecked glyph.
- `setChecked` does not cancel an `AnimatorSet` that is still running. It
  only starts a new one from the current values.
- Template numbers outside 0..12 are not rejected when the drawable is
  built. Each operation that indexes `mPointsDraw` with them requires them in
  range instead (`OnBoundsChange`, `SetChecked`, `Toggle`).
- The padding is `width / 4` in integer division, taken before the value is
  widened to float.

## Model

| member | source | states |
|---|---|---|
| `Java.Div` | src/com/android/buttons/TransformableDrawable.java:98 | Java `int` division: the remainder is below the divisor in size and has the dividend's sign. |
| `Java.ThreeHalvesMinusHalf` | src/com/android/buttons/TransformableButton.java:93 | `min * 3 / 2 - min / 2 == min` under Java division, for every `min`. |
| `Java.IndexOf` | src/com/android/buttons/TransformableButton.java:177-179 | `indexOf` gives -1 exactly when the element is absent; otherwise its first position. |
| `Java.Get` | src/com/android/buttons/TransformableButton.java:197-199 | `get` yields the element exactly for an index in range, and fails otherwise. |
| `Java.IndexOfGet` | src/com/android/buttons/TransformableButton.java:177-199 | On a list without duplicates, `get` and `indexOf` are inverse. |
| `Geometry.BackgroundPosition.GetNum` | src/com/android/buttons/TransformableDrawable.java:468-474 | The number of a position is in 0..4 and indexes that position in the list. |
| `Geometry.BackgroundPosition.EnumOf` | src/com/android/buttons/TransformableDrawable.java:477-479 | `enumOf(n)` succeeds exactly for n in 0..4 and gives the position numbered n. |
| `Geometry.PositionRoundTrip` | src/com/android/buttons/TransformableDrawable.java:465-479 | `enumOf(getNum(p)) == p` for every position. |
| `Geometry.Offset` | src/com/android/buttons/TransformableDrawable.java:100-119 | No offset for the background. For bounds of height h ≥ 0, both components lie in 0..h. |
| `Geometry.OffsetMirror` | src/com/android/buttons/TransformableDrawable.java:105-118 | The top offset is the left one with the axes swapped, and the bottom offset the right one with the axes swapped. |
| `Geometry.ComputeFrame` | src/com/android/buttons/TransformableDrawable.java:95-124 | The frame is the bounds inset by `width / 4` on every side and moved by the position's offset. Its size does not depend on the position, and its centre is the bounds' centre minus the offset. |
| `Geometry.SquareBoundsSquareFrame` | src/com/android/buttons/TransformableDrawable.java:98-124 | Square bounds of side s ≥ 0 give a square frame of side `s - 2 * (s / 4)` with its edges in order. |
| `Glyphs.EvalX` | src/com/android/buttons/TransformableDrawable.java:138-143 | An x scalar evaluates to the frame's left, centerX or right. |
| `Glyphs.EvalY` | src/com/android/buttons/TransformableDrawable.java:138-143 | A y scalar evaluates to the frame's top, centerY or bottom. |
| `Glyphs.Layout` | src/com/android/buttons/TransformableDrawable.java:145-328 | Every template has six points. Each point pairs an x scalar with a y scalar, so x slots only ever get left, centerX or right and y slots only top, centerY or bottom. |
| `Glyphs.Template` | src/com/android/buttons/TransformableDrawable.java:138-328 | In any frame, every x coordinate of a template is one of the frame's three x scalars, and every y coordinate one of its three y scalars. |
| `Glyphs.TemplateInsideFrame` | src/com/android/buttons/TransformableDrawable.java:146-328 | If the frame's edges are in order, every point of every template lies inside the frame. |
| `Glyphs.EmptyFrameTemplates` | src/com/android/buttons/TransformableDrawable.java:50-52 | Before any bounds are set, the zero-filled table holds exactly the templates of the empty frame. |
| `Glyphs.ThirdSegmentCollapsed` | src/com/android/buttons/TransformableDrawable.java:154-314 | In a frame of positive size, points 4 and 5 coincide exactly for templates 0..7 (plus, minus, x, the four angles, check). They differ for the arrows and the menu. |
| `Glyphs.ThirdSegmentDegenerate` | src/com/android/buttons/TransformableDrawable.java:154-314 | In every frame, points 4 and 5 of templates 0..7 are the same point. |
| `Glyphs.PlusAndXOnSquare` | src/com/android/buttons/TransformableDrawable.java:145-185 | On the frame (0,0)-(100,100), the plus and the x have the expected coordinates. |
| `Drawable.XPosition` | src/com/android/buttons/TransformableDrawable.java:359-361 | The x slot of point p is even and halves back to p. It is in 0..11 exactly when p is in 0..5. |
| `Drawable.YPosition` | src/com/android/buttons/TransformableDrawable.java:363-365 | The y slot of point p is odd and halves back to p. It is in 0..11 exactly when p is in 0..5. |
| `Drawable.SlotOwner` | src/com/android/buttons/TransformableDrawable.java:351-365 | Each of the 12 slots belongs to exactly one point, as its x slot or as its y slot. |
| `Drawable.Coordinates` | src/com/android/buttons/TransformableDrawable.java:370-380 | The coordinates handed to the canvas, line by line: line j supplies entries 4j to 4j+3, start point first. |
| `Drawable.TransformableDrawable.constructor` | src/com/android/buttons/TransformableDrawable.java:69-79 | A new drawable is unchecked and mounted as background. Its frame and all coordinates are zero, and its invariant holds. |
| `Drawable.TransformableDrawable.SetPosition` | src/com/android/buttons/TransformableDrawable.java:457-459 | Sets the mount position. |
| `Drawable.TransformableDrawable.SetBounds` | src/com/android/buttons/TransformableButton.java:85-105 | New bounds, and only new ones, recompute the frame and snap the points to the unchecked template. The flag is never touched. |
| `Drawable.TransformableDrawable.OnBoundsChange` | src/com/android/buttons/TransformableDrawable.java:95-127 | The frame becomes `ComputeFrame(bounds, position)`, every table row is rebuilt for it, and the live points equal the unchecked template. The checked flag is unchanged. |
| `Drawable.TransformableDrawable.SetUpLines` | src/com/android/buttons/TransformableDrawable.java:130-343 | Every row k of the table is template k of the current frame, and the live points are the unchecked row. |
| `Drawable.TransformableDrawable.GetPoint` | src/com/android/buttons/TransformableDrawable.java:347-349 | The target of slot i is coordinate i of the checked or the unchecked template, as selected by the flag. |
| `Drawable.TransformableDrawable.X` | src/com/android/buttons/TransformableDrawable.java:351-353 | `x(p)` is the live value of slot 2p. |
| `Drawable.TransformableDrawable.Y` | src/com/android/buttons/TransformableDrawable.java:355-357 | `y(p)` is the live value of slot 2p+1. |
| `Drawable.TransformableDrawable.Lines` | src/com/android/buttons/TransformableDrawable.java:367-383 | `draw` makes three lines from the point pairs (0,1), (2,3) and (4,5). Together they use the 12 live coordinates once each, in order. |
| `Drawable.TransformableDrawable.SetX` | src/com/android/buttons/TransformableDrawable.java:498-507 | The x setter writes slot 2p only, and the getter then reads the value written. |
| `Drawable.TransformableDrawable.SetY` | src/com/android/buttons/TransformableDrawable.java:516-525 | The y setter writes slot 2p+1 only, and the getter then reads the value written. |
| `Drawable.TransformableDrawable.FinishTransition` | src/com/android/buttons/TransformableDrawable.java:437-454 | After a transition's last frame, the live points equal its targets. |
| `Drawable.TransformableDrawable.SetChecked` | src/com/android/buttons/TransformableDrawable.java:434-455 | The flag takes its new value at once. The start values are the live points at the call, and the targets are the selected template. The duration is 250 or 0. Without animation the points are the template at once. |
| `Drawable.TransformableDrawable.Toggle` | src/com/android/buttons/TransformableDrawable.java:385-399 | The flag flips, and an animated transition starts toward the template of the new flag. |
| `Drawable.TransformableDrawable.ToggleTwice` | src/com/android/buttons/TransformableDrawable.java:385-399 | Two toggles, both left to finish, restore the flag and leave the points on that flag's template. |
| `Button.Draw.GetNum` | src/com/android/buttons/TransformableButton.java:177-195 | A glyph's number is in 0..12 and indexes that glyph in the list. |
| `Button.Draw.EnumOf` | src/com/android/buttons/TransformableButton.java:197-199 | `enumOf(n)` succeeds exactly for n in 0..12 and gives the glyph numbered n. |
| `Button.DrawRoundTrip` | src/com/android/buttons/TransformableButton.java:177-199 | `enumOf(getNum(d)) == d` for all 13 glyphs. |
| `Button.DrawNumberIsCatalogIndex` | src/com/android/buttons/TransformableButton.java:181-194 | Each glyph's number is the drawable's template constant of the same name. |
| `Button.PositionDraw.GetNum` | src/com/android/buttons/TransformableButton.java:209-220 | A position's number is in 0..4 and indexes that position in the list. |
| `Button.PositionDraw.EnumOf` | src/com/android/buttons/TransformableButton.java:222-224 | `enumOf(n)` succeeds exactly for n in 0..4 and gives the position numbered n. |
| `Button.PositionDrawRoundTrip` | src/com/android/buttons/TransformableButton.java:209-224 | `enumOf(getNum(p)) == p` for all 5 positions. |
| `Button.PositionOrdersAgree` | src/com/android/buttons/TransformableButton.java:213-220 | The button's position numbers are the drawable's: `BackgroundPosition.enumOf(p.getNum())` is the position of the same name. |
| `Button.Side` | src/com/android/buttons/TransformableButton.java:81 | For the background, the side is the smaller of height and width. Otherwise it is the smaller of their halves, in Java division. |
| `Button.LayoutBounds` | src/com/android/buttons/TransformableButton.java:79-107 | For every position, the drawable's bounds form a `min × min` square. |
| `Button.SideFits` | src/com/android/buttons/TransformableButton.java:81 | The side is not negative and is at most the smaller dimension. Off the background it is half of the smaller dimension, rounded down. |
| `Button.LaidOutGlyphFits` | src/com/android/buttons/TransformableButton.java:79-107 | After layout, the drawable's frame is a square with its edges in order, and every template point lies inside it. |
| `Button.AnchoredFrame` | src/com/android/buttons/TransformableButton.java:84-103 | For the background, left and right positions, the offset cancels the bounds' corner exactly, so the frame runs from (p, p) to (s-p, s-p). |
| `Button.TransformableButton.Unattached` | src/com/android/buttons/TransformableButton.java:27-46 | A button whose `init` was skipped has no drawable and no position. |
| `Button.TransformableButton.constructor` | src/com/android/buttons/TransformableButton.java:48-51 | The glyphs' and the position's numbers go through `setAttributes`. The drawable gets the templates of the glyphs of the same name, is unchecked, and has the position of the same name, which the button also records. The new drawable is unchecked, with bounds (0,0,0,0), the empty frame and all coordinates zero. `DrawNumberIsCatalogIndex` and `PositionOrdersAgree` link each number to its name. |
| `Button.TransformableButton.SetAttributes` | src/com/android/buttons/TransformableButton.java:64-71 | The drawable is always created. The position is set on both objects exactly when its number is in 0..4; otherwise the lookup fails and the position stays unset. The new drawable is unchecked, with bounds (0,0,0,0), the empty frame and all coordinates zero. |
| `Button.TransformableButton.OnGlobalLayout` | src/com/android/buttons/TransformableButton.java:78-109 | The drawable gets `LayoutBounds(width, height, position)`. If that square changed, the frame is recomputed and the glyph snaps to the unchecked template. Otherwise the frame and the points are kept. The flag is always kept. |
| `Button.TransformableButton.IsChecked` | src/com/android/buttons/TransformableButton.java:154-156 | False without a drawable, otherwise the drawable's flag. |
| `Button.TransformableButton.SetChecked` | src/com/android/buttons/TransformableButton.java:158-160 | Passed on to the drawable, with the same result. The button then reports the new flag. The transition starts from the live points, targets the selected template, and lasts 250 ms when animated and 0 otherwise. Without animation the points are on the template at once. |
| `Button.TransformableButton.SetListener` | src/com/android/buttons/TransformableButton.java:150-152 | Registers or clears the listener. |
| `Button.TransformableButton.OnTouchEvent` | src/com/android/buttons/TransformableButton.java:142-148 | Only ACTION_UP flips the flag. It then starts a 250 ms transition from the live points to the template of the new flag. The frame, the bounds, the position and the live points do not change. Every event notifies the listener, if set, with the state after the event. |

## Left out

- Tweening: interpolation, easing and frame scheduling by `AnimatorSet` and `ObjectAnimator`. Only the start values, the targets, the duration and the final frame are modelled. Animator sets that are still running when a new one starts keep running in the code; the model does not interleave them.
- FinishTransition: states that the last frame writes the target exactly. The float evaluator computes `start + 1.0 * (target - start)`, which can differ from the target by float rounding.
- Float rounding in general: coordinates are exact reals.
- Rendering: `Canvas`, `Paint`, the background circle and `invalidateSelf` are foreign drawing calls. `Lines` gives only the coordinates of the three `drawLine` calls.
- Dip-to-pixel conversion of the stroke width, the colours and the `Context` are display resources with no bearing on the geometry.
- LayoutBounds: does not model 32-bit wrap-around. Only `min * 3` (left and right positions) can wrap. There `min` is half the smaller dimension, so it wraps only when `min > 715,827,882`, that is when both height and width are at least 1,431,655,766 pixels. `min * 2` stays within `int` for every non-negative view size.
- `onMeasure`: it only passes packed measure specs to the framework.
- OnGlobalLayout: on a button with no drawable or no position (an edit-mode button), the code throws NullPointerException at `switch (backgroundPosition)` (TransformableButton.java:83). The requires exclude that case, and the exception is not modelled.
- SetChecked: on a button with no drawable, the code throws NullPointerException (TransformableButton.java:159). The requires exclude that case.
- OnTouchEvent: an ACTION_UP on a button with no drawable throws NullPointerException at `transformableDrawable.toggle()` (TransformableButton.java:144). The requires exclude that case. Other actions are modelled on every button.
- Attribute parsing (`TypedArray`), `isInEditMode`, attaching and detaching the layout listener, and `setBackground` / `setCompoundDrawables` are UI plumbing. `SetAttributes` takes the parsed values as parameters.
- The return value of `super.onTouchEvent` comes from the framework. The listener callback is modelled as the notification value that `OnTouchEvent` returns.
- `setAlpha`, `setColorFilter` and `getOpacity` are stubs. `getPositionDrawable` reads the field.
