/** What the layout promises: the characters drawn and their order, the
    cursor's behaviour, where each character's centre and placement lie,
    the alignment of the text block, and two worked layouts. */
module LayoutProperties {
  import opened PathGeometry
  import opened TextLayout

  // ---------------------------------------------------------------------
  // Draw order

  /** One placement per character; on a path whose first point lies right of
      its last the text is drawn last character first, otherwise in reading
      order; either way every character is drawn exactly once. */
  lemma LayoutDrawOrder(text: Text, path: seq<Point>, measure: Text -> real,
                        textAlign: Option<string>, math: MathLib)
    requires |path| >= 2
    ensures |Layout(text, path, measure, textAlign, math)| == |text|
    ensures Chars(Layout(text, path, measure, textAlign, math)) ==
              if path[0].x > path[|path| - 1].x then Reverse(text) else text
    ensures multiset(Chars(Layout(text, path, measure, textAlign, math))) == multiset(text)
  {
    var w := Setup(text, path, measure, textAlign, math);
    PlacedSoFarLength(w, |text|);
    PlacedChars(w, |text|);
    assert w.drawn[..|text|] == w.drawn;
    DrawOrderIsTextOrReverse(text, w.reverse);
    DrawOrderPermutation(text, w.reverse);
  }

  // ---------------------------------------------------------------------
  // The segment cursor

  /** The cursor never moves backwards from one character to the next. */
  lemma {:induction false} CursorMonotone(w: Walk, i: nat, j: nat)
    requires |w.path| >= 2 && i <= j < |w.drawn|
    ensures CursorAt(w, i) <= CursorAt(w, j)
    decreases j - i
  {
    if i < j {
      CursorMonotone(w, i, j - 1);
    }
  }

  /** For each character the cursor stops at the first segment, from where the
      previous character left it, that ends at or beyond the character's
      centre, or at the last segment when no segment does. */
  lemma CursorFirstFit(w: Walk, i: nat)
    requires |w.path| >= 2 && i < |w.drawn|
    ensures var k := CursorAt(w, i);
            k == |w.path| - 1 || CharCentre(w, i) <= ArcLength(w.math.sqrt, w.path, k)
    ensures var from := if i == 0 then 1 else CursorAt(w, i - 1);
            forall j :: from <= j < CursorAt(w, i) ==>
              j < |w.path| - 1 && ArcLength(w.math.sqrt, w.path, j) < CharCentre(w, i)
  {
    var from := if i == 0 then 1 else CursorAt(w, i - 1);
    forall j | from <= j < CursorAt(w, i)
      ensures j < |w.path| - 1 && ArcLength(w.math.sqrt, w.path, j) < CharCentre(w, i)
    {
      AdvanceMinimal(w.math.sqrt, w.path, from, CharCentre(w, i), j);
    }
  }

  // ---------------------------------------------------------------------
  // Character centres

  /** No character has a negative width. */
  ghost predicate NonNegativeWidths(w: Walk) {
    forall j :: 0 <= j < |w.drawn| ==> 0.0 <= w.measure([w.drawn[j]])
  }

  /** Consecutive characters sit edge to edge: their centres lie half the
      one's width plus half the other's apart. */
  lemma CentresStep(w: Walk, i: nat)
    requires i + 1 < |w.drawn|
    ensures CharCentre(w, i + 1) ==
              CharCentre(w, i) + w.measure([w.drawn[i]]) / 2.0 + w.measure([w.drawn[i + 1]]) / 2.0
  {
    SumWidthsStep(w.measure, w.drawn, i);
  }

  /** Once the walk starts at a non-negative offset and no width is negative,
      each character's centre lies at or beyond the start of its cursor's
      segment. */
  lemma {:induction false} CentreBeyondSegmentStart(w: Walk, i: nat)
    requires |w.path| >= 2 && i < |w.drawn|
    requires SqrtNonNegative(w.math.sqrt) && NonNegativeWidths(w) && 0.0 <= w.start
    ensures ArcLength(w.math.sqrt, w.path, CursorAt(w, i) - 1) <= CharCentre(w, i)
  {
    var from := if i == 0 then 1 else CursorAt(w, i - 1);
    var k := CursorAt(w, i);
    if k > from {
      AdvanceMinimal(w.math.sqrt, w.path, from, CharCentre(w, i), k - 1);
    } else if i == 0 {
      assert w.drawn[..0] == [];
      assert 0.0 <= w.measure([w.drawn[0]]);
    } else {
      CentreBeyondSegmentStart(w, i - 1);
      CentresStep(w, i - 1);
      assert 0.0 <= w.measure([w.drawn[i - 1]]) && 0.0 <= w.measure([w.drawn[i]]);
    }
  }

  /** Whatever the start offset, the cursor's segment either starts at the
      path's beginning or starts at or before the character's centre. */
  lemma {:induction false} SegmentStartWithinReach(w: Walk, i: nat)
    requires |w.path| >= 2 && i < |w.drawn|
    requires SqrtNonNegative(w.math.sqrt) && NonNegativeWidths(w)
    ensures var s := ArcLength(w.math.sqrt, w.path, CursorAt(w, i) - 1);
            s == 0.0 || s <= CharCentre(w, i)
  {
    var from := if i == 0 then 1 else CursorAt(w, i - 1);
    var k := CursorAt(w, i);
    if k > from {
      AdvanceMinimal(w.math.sqrt, w.path, from, CharCentre(w, i), k - 1);
    } else if i > 0 {
      SegmentStartWithinReach(w, i - 1);
      CentresStep(w, i - 1);
      assert 0.0 <= w.measure([w.drawn[i - 1]]) && 0.0 <= w.measure([w.drawn[i]]);
    }
  }

  /** A character whose centre falls on the path, between its start and its
      length, has it on its cursor's segment, between the arc lengths of the
      segment's two ends. */
  lemma CentreOnItsSegment(w: Walk, i: nat)
    requires |w.path| >= 2 && i < |w.drawn|
    requires SqrtNonNegative(w.math.sqrt) && NonNegativeWidths(w)
    requires 0.0 <= CharCentre(w, i) <= PathLength(w.math.sqrt, w.path)
    ensures ArcLength(w.math.sqrt, w.path, CursorAt(w, i) - 1) <= CharCentre(w, i)
    ensures CharCentre(w, i) <= ArcLength(w.math.sqrt, w.path, CursorAt(w, i))
  {
    SegmentStartWithinReach(w, i);
  }

  /** A character whose centre falls on the path, on a segment of positive
      length, is drawn at a finite point of that segment: both coordinates
      lie between those of the segment's ends. */
  lemma PlacedOnSegment(w: Walk, i: nat)
    requires |w.path| >= 2 && i < |w.drawn|
    requires 0.0 < SegLength(w.math.sqrt, w.path[CursorAt(w, i) - 1], w.path[CursorAt(w, i)])
    requires SqrtNonNegative(w.math.sqrt) && NonNegativeWidths(w)
    requires 0.0 <= CharCentre(w, i) <= PathLength(w.math.sqrt, w.path)
    ensures var k := CursorAt(w, i);
            var at := PlaceAt(w, i).at;
            at.Finite? && Between(w.path[k - 1].x, at.x, w.path[k].x) && Between(w.path[k - 1].y, at.y, w.path[k].y)
  {
    var k := CursorAt(w, i);
    var p1, p2 := w.path[k - 1], w.path[k];
    var len := SegLength(w.math.sqrt, p1, p2);
    var pos := CharCentre(w, i) - ArcLength(w.math.sqrt, w.path, k - 1);
    CentreOnItsSegment(w, i);
    ArcLengthStep(w.math.sqrt, w.path, k);
    PlaceAtParts(w, i, k, p1, p2);
    InterpolateWithin(p1, p2, pos, len, PlaceAt(w, i).at);
  }

  /** The angle is the segment's tangent on a path walked forwards, the
      opposite direction on a reversed one, and stays in atan2's range. */
  lemma PlacedUpright(w: Walk, i: nat)
    requires |w.path| >= 2 && i < |w.drawn|
    ensures var k := CursorAt(w, i);
            var raw := w.math.atan2(w.path[k].y - w.path[k - 1].y, w.path[k].x - w.path[k - 1].x);
            (!w.reverse ==> PlaceAt(w, i).angle == raw) &&
            (w.reverse ==> PlaceAt(w, i).angle - raw == PI || raw - PlaceAt(w, i).angle == PI) &&
            (-PI < raw <= PI ==> -PI < PlaceAt(w, i).angle <= PI)
  {
    var k := CursorAt(w, i);
    PlaceAtParts(w, i, k, w.path[k - 1], w.path[k]);
  }

  // ---------------------------------------------------------------------
  // Alignment

  /** The text's width, when it is the sum of its characters' widths, is
      where the last character drawn ends, counted from the start offset. */
  lemma TextBlockEnd(text: Text, path: seq<Point>, measure: Text -> real,
                     textAlign: Option<string>, math: MathLib)
    requires |path| >= 2 && |text| > 0 && measure(text) == SumWidths(measure, text)
    ensures var w := Setup(text, path, measure, textAlign, math);
            var n := |text|;
            CharCentre(w, n - 1) + measure([w.drawn[n - 1]]) / 2.0 == w.start + measure(text)
  {
    var w := Setup(text, path, measure, textAlign, math);
    var n := |text|;
    SumWidthsStep(measure, w.drawn, n - 1);
    assert w.drawn[..n] == w.drawn;
    DrawOrderIsTextOrReverse(text, w.reverse);
    SumWidthsReverse(measure, text);
  }

  /** Left-aligned text starts at the path's start: the first character's
      centre lies half its width along the path. */
  lemma LeftAlignFirstCentre(text: Text, path: seq<Point>, measure: Text -> real, math: MathLib)
    requires |path| >= 2 && |text| > 0
    ensures var w := Setup(text, path, measure, Some("left"), math);
            CharCentre(w, 0) == measure([w.drawn[0]]) / 2.0
  {
    var w := Setup(text, path, measure, Some("left"), math);
    assert w.drawn[..0] == [];
  }

  /** Right-aligned text ends at the path's end: the last character drawn
      ends exactly at the path's length, so its centre lies half its width
      short of it. */
  lemma RightAlignLastCentre(text: Text, path: seq<Point>, measure: Text -> real, math: MathLib)
    requires |path| >= 2 && |text| > 0 && measure(text) == SumWidths(measure, text)
    ensures var w := Setup(text, path, measure, Some("right"), math);
            var n := |text|;
            CharCentre(w, n - 1) == PathLength(math.sqrt, path) - measure([w.drawn[n - 1]]) / 2.0
  {
    TextBlockEnd(text, path, measure, Some("right"), math);
  }

  /** Centred text leaves the same length of path before its first character
      as after its last. */
  lemma CenterAlignMargins(text: Text, path: seq<Point>, measure: Text -> real,
                           textAlign: Option<string>, math: MathLib)
    requires |path| >= 2 && |text| > 0 && measure(text) == SumWidths(measure, text)
    requires textAlign != Some("left") && textAlign != Some("right")
    ensures var w := Setup(text, path, measure, textAlign, math);
            var n := |text|;
            w.start == PathLength(math.sqrt, path) - (CharCentre(w, n - 1) + measure([w.drawn[n - 1]]) / 2.0)
  {
    TextBlockEnd(text, path, measure, textAlign, math);
  }

  // ---------------------------------------------------------------------
  // Two worked layouts

  /** The UTF-16 code units of "A" and "B". */
  const UnitA: CodeUnit := 0x41
  const UnitB: CodeUnit := 0x42

  /** "AB" left-aligned on the horizontal path from (0, 0) to (10, 0), with
      "A" and "B" 2 wide and "AB" 4 wide: A is drawn at (1, 0), then B at
      (3, 0), both upright. */
  lemma HorizontalExample(measure: Text -> real, math: MathLib)
    requires measure([UnitA, UnitB]) == 4.0 && measure([UnitA]) == 2.0 && measure([UnitB]) == 2.0
    requires math.sqrt(100.0) == 10.0 && math.atan2(0.0, 10.0) == 0.0
    ensures Layout([UnitA, UnitB], [Point(0.0, 0.0), Point(10.0, 0.0)], measure, Some("left"), math) ==
              [Placement(UnitA, Finite(1.0, 0.0), 0.0), Placement(UnitB, Finite(3.0, 0.0), 0.0)]
  {
    var path := [Point(0.0, 0.0), Point(10.0, 0.0)];
    var w := Setup([UnitA, UnitB], path, measure, Some("left"), math);
    assert SegLength(math.sqrt, path[0], path[1]) == 10.0;
    assert w.drawn == [UnitA, UnitB] && !w.reverse && w.start == 0.0;
    ExamplePlacement(w, 0, UnitA, 1.0, Point(0.0, 0.0), Point(10.0, 0.0), 1.0, 0.0) by {
      assert w.drawn[..0] == [];
    }
    ExamplePlacement(w, 1, UnitB, 3.0, Point(0.0, 0.0), Point(10.0, 0.0), 3.0, 0.0) by {
      assert w.drawn[..1] == [UnitA] && w.drawn[..1][..0] == [];
    }
    TwoPlacements(w);
  }

  /** The same text on the same path walked from (10, 0) to (0, 0): B is
      drawn first at (9, 0), then A at (7, 0), and the raw tangent angle π
      turns back to 0 so that the text stays upright. */
  lemma ReversedExample(measure: Text -> real, math: MathLib)
    requires measure([UnitA, UnitB]) == 4.0 && measure([UnitA]) == 2.0 && measure([UnitB]) == 2.0
    requires math.sqrt(100.0) == 10.0 && math.atan2(0.0, -10.0) == PI
    ensures Layout([UnitA, UnitB], [Point(10.0, 0.0), Point(0.0, 0.0)], measure, Some("left"), math) ==
              [Placement(UnitB, Finite(9.0, 0.0), 0.0), Placement(UnitA, Finite(7.0, 0.0), 0.0)]
  {
    var path := [Point(10.0, 0.0), Point(0.0, 0.0)];
    var w := Setup([UnitA, UnitB], path, measure, Some("left"), math);
    assert SegLength(math.sqrt, path[0], path[1]) == 10.0;
    assert w.drawn == [UnitB, UnitA] && w.reverse && w.start == 0.0;
    ExamplePlacement(w, 0, UnitB, 1.0, Point(10.0, 0.0), Point(0.0, 0.0), 9.0, 0.0) by {
      assert w.drawn[..0] == [];
    }
    ExamplePlacement(w, 1, UnitA, 3.0, Point(10.0, 0.0), Point(0.0, 0.0), 7.0, 0.0) by {
      assert w.drawn[..1] == [UnitB] && w.drawn[..1][..0] == [];
    }
    TwoPlacements(w);
  }

  /** On a horizontal path of one segment of length 10, a character centred
      `centre` along it is drawn `centre` tenths of the way from p1 to p2. */
  lemma ExamplePlacement(w: Walk, i: nat, c: CodeUnit, centre: real, p1: Point, p2: Point, x: real, angle: real)
    requires w.path == [p1, p2] && i < |w.drawn| && w.drawn[i] == c
    requires SegLength(w.math.sqrt, p1, p2) == 10.0 && CharCentre(w, i) == centre
    requires x == p1.x + centre / 10.0 * (p2.x - p1.x) && p1.y == 0.0 && p2.y == 0.0
    requires Upright(w.math.atan2(0.0, p2.x - p1.x), w.reverse) == angle
    ensures PlaceAt(w, i) == Placement(c, Finite(x, 0.0), angle)
  {
    PlaceAtParts(w, i, 1, p1, p2);
    assert ArcLength(w.math.sqrt, w.path, 0) == 0.0;
    assert p2.y - p1.y == 0.0 && centre / 10.0 * (p2.y - p1.y) == 0.0;
    assert Interpolate(p1, p2, centre, 10.0) == Lerp(p1, p2, centre / 10.0) == Finite(x, 0.0);
  }

  /** The layout of a two-character walk is its two placements. */
  lemma TwoPlacements(w: Walk)
    requires |w.path| >= 2 && |w.drawn| == 2
    ensures PlacedSoFar(w, 2) == [PlaceAt(w, 0), PlaceAt(w, 1)]
  {
    assert PlacedSoFar(w, 1) == [PlaceAt(w, 0)];
  }
}
