# textpath in Dafny

A model of `textPath(text, path, measure, draw, textAlign)` from the
`textpath` package (`index.js`). The function lays a string out along a
polyline. It measures the path's arc length and aligns the text block on
it: left, right, or centred by default. It then walks a segment cursor
forward along the path, and for each character it calls
`draw(char, x, y, angle)` with the point the character's centre falls on and
the tangent angle of that segment. When the path's first point lies to the
right of its last, the characters are walked from the last one back to the
first, and each angle is turned by a half turn so the glyphs stay upright.

The model has four modules:

- `PathGeometry` (`path_geometry.dfy`) covers points, segment and arc
  lengths, interpolation inside a segment, and the upright rule.
- `TextLayout` (`text_layout.dfy`) states declaratively what the routine
  emits. It gives the start offset, the draw order, each character's
  centre, the segment the cursor sits on for each character (`CursorAt`),
  and the placement handed to `draw` (`PlaceAt`, `Layout`).
- `TextPath` (`text_path.dfy`) is the routine itself, as imperative Dafny
  with the same loops and variables. It returns the sequence of `draw` calls
  and is proved to return exactly `Layout`. The character loop's body is the
  method `PlaceNext`, and the cursor's inner `while` loop is
  `AdvanceCursor`.
- `LayoutProperties` (`layout_properties.dfy`) proves what the layout
  guarantees, plus two worked layouts.

`Math.sqrt` and `Math.atan2` are the two fields of a `MathLib` value passed
in. They are arbitrary functions. A lemma that needs a fact about them, such
as "a square root is never negative" (`SqrtNonNegative`), takes that fact as
a hypothesis. `measure` is an arbitrary function from strings to widths.
Strings are sequences of UTF-16 code units (`TextLayout.Text`), as
JavaScript's `length` and indexing see them.

Two consequences of the code worth knowing:

- On a path whose first point lies right of its last, `draw` receives the
  last character first (`LayoutDrawOrder`).
- Right-aligned, and with `measure(text)` equal to the sum of the
  characters' widths, the last character's centre lies at `L - w/2`, where
  `L` is the path's length and `w` the last character's width
  (`RightAlignLastCentre`).

## Model

| member | source | states |
|---|---|---|
| PathGeometry.SegLength | index.js:43 | defines a segment's length as the square root of the summed squared coordinate deltas, the formula used at lines 43, 63 and 78 |
| PathGeometry.SegLengthNonNegative | index.js:43 | a segment's length is never negative, given a square root that is never negative |
| PathGeometry.ArcLength | index.js:39-45 | defines the arc length up to `path[k]` as the sum of the first k segment lengths, the running sum of lines 41-45 and of `segmentM` at line 77 |
| PathGeometry.PathLength | index.js:39-45 | defines `pathLength` as the arc length up to the path's last point |
| PathGeometry.ArcLengthMonotone | index.js:39-45 | arc length along the path is non-negative, never decreases, and never exceeds the path's total length |
| PathGeometry.Interpolate | index.js:85-87 | defines the point `pos/len` of the way along the segment, and `NotFinite` for a segment of length zero, where the division at line 85 is by zero |
| PathGeometry.FractionInUnitInterval | index.js:85 | a position inside a segment of positive length gives an interpolation factor in [0, 1] |
| PathGeometry.LerpBetween | index.js:86-87 | for a factor in [0, 1], both coordinates of the interpolated point lie between those of the segment's ends |
| PathGeometry.InterpolateWithin | index.js:85-87 | a position inside a segment of positive length yields a finite point, a fraction in [0, 1] of the way along the segment, lying between its ends in x and in y |
| PathGeometry.Upright | index.js:81-84 | the angle is the raw tangent when not reversed; when reversed it differs from the raw tangent by exactly π; an angle in (-π, π] stays in (-π, π] |
| TextLayout.AlignFactor | index.js:47 | the factor is 0 exactly for "left", 1 exactly for "right", and 0.5 exactly for every other value, including an omitted one |
| TextLayout.StartOffset | index.js:47-48 | the start offset (0 for left, `L - W` for right, `(L - W)/2` otherwise) equals the spare length `L - W` times the alignment factor |
| TextLayout.Reversed | index.js:53 | defines the upright decision: the path's first point has a larger x than its last |
| TextLayout.DrawOrder | index.js:55-68 | defines the characters in the order the loop reads them: index `numChars - i - 1` when reversed and `i` otherwise, one per code unit of the text |
| TextLayout.DrawOrderIsTextOrReverse | index.js:66-68 | the characters are drawn in text order when not reversed, and in exactly reversed text order when reversed |
| TextLayout.DrawOrderPermutation | index.js:66-68 | the characters drawn are a permutation of the text |
| TextLayout.SumWidthsReverse | index.js:69-89 | the characters' widths add up to the same total in either draw order |
| TextLayout.Setup | index.js:39-53 | the walk keeps the path; its characters are the text, or the text reversed exactly when the first point's x exceeds the last point's x; it starts at the spare length `L - W` times the alignment factor |
| TextLayout.CharCentre | index.js:69-70 | defines `charM` for the i-th character drawn: the start offset, plus the widths of the characters drawn before it (line 89), plus half its own width |
| TextLayout.Advance | index.js:71-79 | the inner loop never moves the cursor backwards and keeps it on a segment of the path; where it stops, either no further segment exists or the arc length to the segment's end has reached the character's centre |
| TextLayout.AdvanceMinimal | index.js:71 | every segment the inner loop steps over is a non-final segment that ends short of the character's centre, so the loop stops at the first segment where it may |
| TextLayout.CursorAt | index.js:59-79 | the cursor of every character lies on a segment of the path, between segment 1 and the last one |
| TextLayout.PlaceAt | index.js:80-88 | defines the i-th `draw` call: the character, the interpolation at `charM - segmentM` on the cursor's segment, and the upright tangent angle of that segment |
| TextLayout.Layout | index.js:38-91 | defines the whole sequence of `draw` calls: `PlaceAt` for every character, in draw order, from the walk `Setup` builds |
| TextLayout.PlacedChars | index.js:88 | the characters handed to `draw` are the characters in draw order |
| TextPath.MeasurePath | index.js:39-45 | the loop computes the path's total arc length |
| TextPath.StartPosition | index.js:46-48 | the start of the text block is the start offset for the alignment |
| TextPath.AdvanceCursor | index.js:71-79 | the cursor loop ends on the segment `Advance` selects; the loop variables hold that segment's end points, its length, and the arc length before it |
| TextPath.PlaceOnSegment | index.js:80-87 | the position and angle handed to `draw` are the segment's interpolation at `segmentPos` and the upright tangent angle |
| TextPath.PlaceNext | index.js:66-89 | one pass of the character loop draws the i-th character exactly as `PlaceAt` says; it leaves `startM` at the start offset plus the widths of the characters drawn so far, and keeps the cursor state on `CursorAt`'s segment |
| TextPath.TextPath | index.js:38-91 | the routine calls `draw` exactly as `Layout` describes, in that order |
| LayoutProperties.LayoutDrawOrder | index.js:53-88 | there is one `draw` call per character; the characters are the text reversed when the first point's x exceeds the last point's x, and the text otherwise; either way they are a permutation of the text |
| LayoutProperties.CursorMonotone | index.js:59-79 | the segment cursor never moves backwards from one character to a later one |
| LayoutProperties.CursorFirstFit | index.js:71 | each character's cursor is either the last segment or one that ends at or beyond the character's centre; every segment passed over on the way ends short of that centre |
| LayoutProperties.CentresStep | index.js:69-89 | consecutive characters sit edge to edge: their centres are half of one width plus half of the other apart |
| LayoutProperties.CentreBeyondSegmentStart | index.js:62-79 | with a non-negative start offset, no character of negative width and a square root that is never negative, each character's centre lies at or beyond the start of its cursor's segment |
| LayoutProperties.SegmentStartWithinReach | index.js:62-79 | for any start offset, given no character of negative width and a square root that is never negative, each character's segment starts at the path's beginning or at or before the character's centre |
| LayoutProperties.CentreOnItsSegment | index.js:70-79 | given no character of negative width and a square root that is never negative, a character whose centre lies on the path, between 0 and the path's length, has that centre between the arc lengths of its segment's two ends |
| LayoutProperties.PlacedOnSegment | index.js:80-87 | such a character, on a segment of positive length, is drawn at a finite point lying between the segment's ends in x and in y |
| LayoutProperties.PlacedUpright | index.js:81-84 | each character's angle is its segment's tangent on a forward path; on a reversed path it is that tangent turned by π; it stays in (-π, π] |
| LayoutProperties.TextBlockEnd | index.js:46-89 | when the text's width is the sum of its characters' widths, the last character drawn ends exactly the text's width past the start offset |
| LayoutProperties.LeftAlignFirstCentre | index.js:47-70 | left-aligned text starts at the path's start: the first centre is half the first character's width along the path |
| LayoutProperties.RightAlignLastCentre | index.js:47-89 | right-aligned text ends at the path's end: the last centre lies half the last character's width short of the path's length |
| LayoutProperties.CenterAlignMargins | index.js:47-89 | centred text leaves as much path before its first character as after its last |
| LayoutProperties.HorizontalExample | index.js:38-91 | "AB" left-aligned on the path from (0, 0) to (10, 0), each letter 2 wide: A is drawn at (1, 0) and then B at (3, 0), both at angle 0 |
| LayoutProperties.ReversedExample | index.js:38-91 | the same text on the path from (10, 0) to (0, 0): B is drawn at (9, 0) and then A at (7, 0), and the raw angle π is turned back to 0 |

## Left out

- Floating point: all arithmetic is on reals, with no rounding. JavaScript's NaN and Infinity, which a zero-length segment produces at `index.js:85`, are merged into a single `NotFinite` value.
- `Math.sqrt` and `Math.atan2` are arbitrary functions. Their actual values are not modelled, and the facts a lemma needs about them are its hypotheses. `Math.pow(d, 2)` is modelled as `d * d`.
- `draw`: its calls are returned as a sequence, in order. What `draw` does with them (drawing on a canvas) is outside the routine.
- `measure` is modelled as a pure function of a string. Any state it keeps or changes is not modelled.
- `textAlign` is `None` (omitted) or a string. JavaScript's loose `==` against values that are not strings is not modelled.
- A path with fewer than two points makes the routine throw: an empty path at `index.js:53`, where `path[0]` is `undefined`, and a one-point path at `index.js:60`, where `path[1]` is. The model requires at least two points. Points are pairs of numbers; extra coordinates and values that are not numbers are not modelled.
- Text is a sequence of UTF-16 code units (`CodeUnit`), since JavaScript's `length` and indexing count those. A character outside the basic multilingual plane is two code units, and it is measured and drawn as two halves, just as the code does. `textAlign` is only compared with `'left'` and `'right'`, so it stays a Dafny `string`.
- PlacedOnSegment: this holds only for a character whose centre lies on the path, between 0 and its length, and whose segment has positive length. Text longer than the path is extrapolated past the path's ends, and the lemma says nothing about that case.
- The usage example in the documentation comment of `index.js` and the build configuration `webpack.config.js` are not part of this model.
