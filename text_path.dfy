/** The routine `textPath` itself, step by step: it measures the path,
    places the text block, and walks a segment cursor along the path while
    it places one character after the other. Each call of `draw` becomes one
    element of the returned sequence, and the routine is proved to return
    exactly `Layout`. */
module TextPath {
  import opened PathGeometry
  import opened TextLayout

  /** The segment cursor's state sits on segment `offset` of the path:
      its end points, the arc length before it, and its length. */
  ghost predicate OnSegment(sqrt: real -> real, path: seq<Point>, offset: nat,
                            x1: real, y1: real, x2: real, y2: real, segmentM: real, segmentLength: real)
  {
    1 <= offset < |path| && Point(x1, y1) == path[offset - 1] && Point(x2, y2) == path[offset] &&
    segmentM == ArcLength(sqrt, path, offset - 1) && segmentLength == SegLength(sqrt, path[offset - 1], path[offset])
  }

  /** The walk the routine has set up is the one `Setup` describes. */
  lemma SetupIs(text: Text, path: seq<Point>, measure: Text -> real,
                textAlign: Option<string>, math: MathLib, w: Walk)
    requires |path| >= 2
    requires w.path == path && w.measure == measure && w.math == math
    requires w.reverse == Reversed(path) && w.drawn == DrawOrder(text, w.reverse)
    requires w.start == StartOffset(PathLength(math.sqrt, path), measure(text), textAlign)
    ensures Setup(text, path, measure, textAlign, math) == w
  {
  }

  /** The character read from the text and its centre are those of the i-th character drawn. */
  lemma CharStep(w: Walk, text: Text, i: nat, c: CodeUnit, startM: real, charM: real)
    requires |w.path| >= 2 && i < |text| && w.drawn == DrawOrder(text, w.reverse)
    requires c == text[if w.reverse then |text| - i - 1 else i]
    requires startM == w.start + SumWidths(w.measure, w.drawn[..i])
    requires charM == startM + w.measure([c]) / 2.0
    ensures c == w.drawn[i] && charM == CharCentre(w, i)
  {
  }

  /** Advancing from the cursor left by the previous character lands on this one's segment. */
  lemma CursorStep(w: Walk, i: nat, from: nat, m: real)
    requires |w.path| >= 2 && i < |w.drawn|
    requires from == (if i == 0 then 1 else CursorAt(w, i - 1)) && m == CharCentre(w, i)
    ensures CursorAt(w, i) == Advance(w.math.sqrt, w.path, from, m)
  {
  }

  /** The placement built from the cursor's segment is the one `PlaceAt` describes. */
  lemma PlaceAtOnCursor(w: Walk, i: nat, k: nat, x1: real, y1: real, x2: real, y2: real,
                        pos: real, len: real, pl: Placement)
    requires |w.path| >= 2 && i < |w.drawn|
    requires k == CursorAt(w, i)
    requires Point(x1, y1) == w.path[k - 1] && Point(x2, y2) == w.path[k]
    requires pos == CharCentre(w, i) - ArcLength(w.math.sqrt, w.path, k - 1)
    requires len == SegLength(w.math.sqrt, Point(x1, y1), Point(x2, y2))
    requires pl.ch == w.drawn[i]
    requires pl.at == Interpolate(Point(x1, y1), Point(x2, y2), pos, len)
    requires pl.angle == Upright(w.math.atan2(y2 - y1, x2 - x1), w.reverse)
    ensures PlaceAt(w, i) == pl
  {
  }

  /** The total arc length of the path, summed segment by segment. */
  method MeasurePath(path: seq<Point>, math: MathLib) returns (pathLength: real)
    requires |path| >= 1
    ensures pathLength == PathLength(math.sqrt, path)
  {
    pathLength := 0.0;
    var p1 := path[0];
    for i := 1 to |path|
      invariant p1 == path[i - 1]
      invariant pathLength == ArcLength(math.sqrt, path, i - 1)
    {
      var p2 := path[i];
      pathLength := pathLength + SegLength(math.sqrt, p1, p2);
      p1 := p2;
    }
  }

  /** Where the text block starts along the path, for the given alignment. */
  method StartPosition(pathLength: real, textLength: real, textAlign: Option<string>)
    returns (startM: real)
    ensures startM == StartOffset(pathLength, textLength, textAlign)
  {
    var align := AlignFactor(textAlign);
    startM := (pathLength - textLength) * align;
  }

  /** The cursor loop of `textPath`: moves the segment cursor forward until
      the arc length up to its end reaches charM or no further segment exists. */
  method AdvanceCursor(path: seq<Point>, sqrt: real -> real, charM: real, offset0: nat,
                       x10: real, y10: real, x20: real, y20: real, segmentM0: real, segmentLength0: real)
    returns (offset: nat, x1: real, y1: real, x2: real, y2: real, segmentM: real, segmentLength: real)
    requires OnSegment(sqrt, path, offset0, x10, y10, x20, y20, segmentM0, segmentLength0)
    ensures OnSegment(sqrt, path, offset, x1, y1, x2, y2, segmentM, segmentLength)
    ensures offset == Advance(sqrt, path, offset0, charM)
  {
    offset, x1, y1, x2, y2, segmentM, segmentLength := offset0, x10, y10, x20, y20, segmentM0, segmentLength0;
    var end := |path|;
    while offset < end - 1 && segmentM + segmentLength < charM
      invariant OnSegment(sqrt, path, offset, x1, y1, x2, y2, segmentM, segmentLength)
      invariant Advance(sqrt, path, offset, charM) == Advance(sqrt, path, offset0, charM)
      decreases end - offset
    {
      x1 := x2;
      y1 := y2;
      offset := offset + 1;
      x2 := path[offset].x;
      y2 := path[offset].y;
      segmentM := segmentM + segmentLength;
      segmentLength := SegLength(sqrt, Point(x1, y1), Point(x2, y2));
    }
  }

  /** The angle and position `textPath` hands to `draw` for a character
      `segmentPos` arc-length units into the segment from (x1, y1) to (x2, y2). */
  method PlaceOnSegment(c: CodeUnit, x1: real, y1: real, x2: real, y2: real,
                        segmentPos: real, segmentLength: real, reverse: bool, math: MathLib)
    returns (placement: Placement)
    ensures placement == Placement(c, Interpolate(Point(x1, y1), Point(x2, y2), segmentPos, segmentLength),
                                   Upright(math.atan2(y2 - y1, x2 - x1), reverse))
  {
    var angle := math.atan2(y2 - y1, x2 - x1);
    if reverse {
      angle := angle + if angle > 0.0 then -PI else PI;
    }
    var at;
    if segmentLength == 0.0 {
      at := NotFinite;
    } else {
      var interpolate := segmentPos / segmentLength;
      var x := x1 + interpolate * (x2 - x1);
      var y := y1 + interpolate * (y2 - y1);
      at := Finite(x, y);
      assert at == Lerp(Point(x1, y1), Point(x2, y2), interpolate);
    }
    placement := Placement(c, at, angle);
  }

  /** One pass of the character loop of `textPath`: reads and measures the
      i-th character drawn, moves the segment cursor to it, and places it. */
  method PlaceNext(text: Text, path: seq<Point>, measure: Text -> real, math: MathLib,
                   ghost w: Walk, i: nat, reverse: bool, startM0: real, offset0: nat,
                   x10: real, y10: real, x20: real, y20: real, segmentM0: real, segmentLength0: real)
    returns (placement: Placement, startM: real, offset: nat,
             x1: real, y1: real, x2: real, y2: real, segmentM: real, segmentLength: real)
    requires w.path == path && |path| >= 2 && i < |text| && w.measure == measure && w.math == math
    requires w.reverse == reverse && w.drawn == DrawOrder(text, reverse)
    requires startM0 == w.start + SumWidths(measure, w.drawn[..i])
    requires offset0 == if i == 0 then 1 else CursorAt(w, i - 1)
    requires OnSegment(math.sqrt, path, offset0, x10, y10, x20, y20, segmentM0, segmentLength0)
    ensures placement == PlaceAt(w, i)
    ensures startM == w.start + SumWidths(measure, w.drawn[..i + 1])
    ensures offset == CursorAt(w, i)
    ensures OnSegment(math.sqrt, path, offset, x1, y1, x2, y2, segmentM, segmentLength)
  {
    var numChars := |text|;
    var index := if reverse then numChars - i - 1 else i;
    var c := text[index];
    var charLength := measure([c]);
    var charM := startM0 + charLength / 2.0;
    CharStep(w, text, i, c, startM0, charM);
    offset, x1, y1, x2, y2, segmentM, segmentLength :=
      AdvanceCursor(path, math.sqrt, charM, offset0, x10, y10, x20, y20, segmentM0, segmentLength0);
    CursorStep(w, i, offset0, charM);
    var segmentPos := charM - segmentM;
    placement := PlaceOnSegment(c, x1, y1, x2, y2, segmentPos, segmentLength, reverse, math);
    PlaceAtOnCursor(w, i, offset, x1, y1, x2, y2, segmentPos, segmentLength, placement);
    startM := startM0 + charLength;
    SumWidthsStep(measure, w.drawn, i);
  }

  /** `textPath(text, path, measure, draw, textAlign)`, the calls of `draw`
      returned as a sequence in the order they are made. */
  method TextPath(text: Text, path: seq<Point>, measure: Text -> real,
                  textAlign: Option<string>, math: MathLib)
    returns (placements: seq<Placement>)
    requires |path| >= 2
    ensures placements == Layout(text, path, measure, textAlign, math)
  {
    var pathLength := MeasurePath(path, math);
    var textLength := measure(text);
    var startM := StartPosition(pathLength, textLength, textAlign);
    var offset := 0;
    var end := |path|;

    // Keep text upright
    var reverse := path[offset].x > path[end - 1].x;
    ghost var w := Walk(path, DrawOrder(text, reverse), measure, math, startM, reverse);

    var numChars := |text|;

    var x1 := path[offset].x;
    var y1 := path[offset].y;
    offset := offset + 1;
    var x2 := path[offset].x;
    var y2 := path[offset].y;
    var segmentM := 0.0;
    var segmentLength := SegLength(math.sqrt, Point(x1, y1), Point(x2, y2));

    placements := [];
    for i := 0 to numChars
      invariant placements == PlacedSoFar(w, i)
      invariant startM == w.start + SumWidths(measure, w.drawn[..i])
      invariant offset == if i == 0 then 1 else CursorAt(w, i - 1)
      invariant OnSegment(math.sqrt, path, offset, x1, y1, x2, y2, segmentM, segmentLength)
    {
      var placement;
      placement, startM, offset, x1, y1, x2, y2, segmentM, segmentLength :=
        PlaceNext(text, path, measure, math, w, i, reverse, startM, offset, x1, y1, x2, y2, segmentM, segmentLength);
      placements := placements + [placement];
    }
    SetupIs(text, path, measure, textAlign, math, w);
  }
}
