/** What `textPath` emits, stated declaratively: the start offset the
    alignment gives, the order the characters are drawn in, the segment the
    cursor sits on for each character, and the placement handed to `draw`
    for each character. */
module TextLayout {
  import opened PathGeometry

  datatype Option<T> = None | Some(value: T)

  /** A UTF-16 code unit: what JavaScript's string indexing returns and
      what `length` counts. A character outside the basic multilingual plane
      is two of them. */
  newtype CodeUnit = u: int | 0 <= u < 0x1_0000

  /** A JavaScript string, as its sequence of UTF-16 code units. */
  type Text = seq<CodeUnit>

  /** One call of the `draw` callback: the one-unit string read from the
      text, where it goes, and its angle. */
  datatype Placement = Placement(ch: CodeUnit, at: Coords, angle: real)

  // ---------------------------------------------------------------------
  // Alignment and start offset

  /** 0 for "left", 1 for "right", and one half for anything else, an
      omitted alignment (`None`) included. */
  function AlignFactor(textAlign: Option<string>): (f: real)
    ensures f == 0.0 <==> textAlign == Some("left")
    ensures f == 1.0 <==> textAlign == Some("right")
    ensures f == 0.5 <==> textAlign != Some("left") && textAlign != Some("right")
  {
    if textAlign == Some("left") then 0.0
    else if textAlign == Some("right") then 1.0
    else 0.5
  }

  /** Arc-length offset at which the text block starts: at the path's start
      for "left", so that the block ends at the path's end for "right", and
      halfway between the two otherwise. Whatever the alignment, it is the
      spare length scaled by the alignment factor. */
  function StartOffset(pathLength: real, textLength: real, textAlign: Option<string>): (o: real)
    ensures o == (pathLength - textLength) * AlignFactor(textAlign)
  {
    if textAlign == Some("left") then 0.0
    else if textAlign == Some("right") then pathLength - textLength
    else (pathLength - textLength) / 2.0
  }

  // ---------------------------------------------------------------------
  // Draw order

  /** The text is walked backwards when the path's first point lies right of its last. */
  predicate Reversed(path: seq<Point>)
    requires |path| >= 1
  {
    path[0].x > path[|path| - 1].x
  }

  /** Index into the text of the i-th character drawn. */
  function DrawIndex(n: nat, reverse: bool, i: nat): (j: nat)
    requires i < n
    ensures j < n
  {
    if reverse then n - 1 - i else i
  }

  /** The reverse of a text, last code unit first. */
  function Reverse(s: Text): Text {
    if |s| == 0 then [] else [s[|s| - 1]] + Reverse(s[..|s| - 1])
  }

  lemma {:induction false} ReverseLength(s: Text)
    ensures |Reverse(s)| == |s|
  {
    if |s| > 0 {
      ReverseLength(s[..|s| - 1]);
    }
  }

  lemma {:induction false} ReverseAt(s: Text, i: nat)
    requires i < |s|
    ensures |Reverse(s)| == |s| && Reverse(s)[i] == s[|s| - 1 - i]
  {
    if i == 0 {
      ReverseLength(s);
    } else {
      ReverseAt(s[..|s| - 1], i - 1);
    }
  }

  lemma {:induction false} ReverseMultiset(s: Text)
    ensures multiset(Reverse(s)) == multiset(s)
  {
    if |s| > 0 {
      ReverseMultiset(s[..|s| - 1]);
      assert s == s[..|s| - 1] + [s[|s| - 1]];
    }
  }

  /** The characters in the order they are drawn. */
  function DrawOrder(text: Text, reverse: bool): (drawn: Text)
    ensures |drawn| == |text|
  {
    seq(|text|, i requires 0 <= i < |text| => text[DrawIndex(|text|, reverse, i)])
  }

  /** Drawn forwards the order is the text itself; drawn backwards it is the
      text reversed. */
  lemma DrawOrderIsTextOrReverse(text: Text, reverse: bool)
    ensures DrawOrder(text, reverse) == if reverse then Reverse(text) else text
  {
    ReverseLength(text);
    forall i | 0 <= i < |text|
      ensures DrawOrder(text, reverse)[i] == (if reverse then Reverse(text) else text)[i]
    {
      if reverse {
        ReverseAt(text, i);
      }
    }
  }

  /** Either way the characters drawn are a permutation of the text. */
  lemma DrawOrderPermutation(text: Text, reverse: bool)
    ensures multiset(DrawOrder(text, reverse)) == multiset(text)
  {
    DrawOrderIsTextOrReverse(text, reverse);
    ReverseMultiset(text);
  }

  // ---------------------------------------------------------------------
  // Character widths

  /** Sum of the measured widths of the characters of s, each measured on its own. */
  function SumWidths(measure: Text -> real, s: Text): real {
    if |s| == 0 then 0.0 else SumWidths(measure, s[..|s| - 1]) + measure([s[|s| - 1]])
  }

  lemma SumWidthsStep(measure: Text -> real, s: Text, i: nat)
    requires i < |s|
    ensures SumWidths(measure, s[..i + 1]) == SumWidths(measure, s[..i]) + measure([s[i]])
  {
    assert s[..i + 1][..i] == s[..i];
  }

  lemma {:induction false} SumWidthsAppend(measure: Text -> real, a: Text, b: Text)
    ensures SumWidths(measure, a + b) == SumWidths(measure, a) + SumWidths(measure, b)
  {
    if |b| > 0 {
      assert (a + b)[..|a + b| - 1] == a + b[..|b| - 1];
      SumWidthsAppend(measure, a, b[..|b| - 1]);
    } else {
      assert a + b == a;
    }
  }

  /** The widths add up to the same total in either draw order. */
  lemma {:induction false} SumWidthsReverse(measure: Text -> real, s: Text)
    ensures SumWidths(measure, Reverse(s)) == SumWidths(measure, s)
  {
    if |s| > 0 {
      var last := [s[|s| - 1]];
      SumWidthsReverse(measure, s[..|s| - 1]);
      SumWidthsAppend(measure, last, Reverse(s[..|s| - 1]));
      assert SumWidths(measure, last) == measure(last) by {
        assert last[..0] == [];
      }
    }
  }

  // ---------------------------------------------------------------------
  // The walk

  /** What stays fixed while the characters are placed: the path, the
      characters in draw order, the measuring function, the `Math`
      primitives, the start offset and the upright decision. */
  datatype Walk = Walk(path: seq<Point>, drawn: Text, measure: Text -> real,
                       math: MathLib, start: real, reverse: bool)

  /** The walk `textPath` sets up for its inputs: the characters are the
      text, or the text reversed on a path whose first point lies right of
      its last, and the block starts at the spare length scaled by the
      alignment factor. */
  function Setup(text: Text, path: seq<Point>, measure: Text -> real,
                 textAlign: Option<string>, math: MathLib): (w: Walk)
    requires |path| >= 2
    ensures w.path == path && |w.drawn| == |text| && w.reverse == Reversed(path)
    ensures w.drawn == if Reversed(path) then Reverse(text) else text
    ensures w.start == (PathLength(math.sqrt, path) - measure(text)) * AlignFactor(textAlign)
  {
    var reverse := Reversed(path);
    DrawOrderIsTextOrReverse(text, reverse);
    Walk(path, DrawOrder(text, reverse), measure, math,
         StartOffset(PathLength(math.sqrt, path), measure(text), textAlign), reverse)
  }

  /** Arc-length position of the centre of the i-th character drawn: the
      start offset, plus the widths of the characters drawn before it, plus
      half its own width. */
  function CharCentre(w: Walk, i: nat): real
    requires i < |w.drawn|
  {
    w.start + SumWidths(w.measure, w.drawn[..i]) + w.measure([w.drawn[i]]) / 2.0
  }

  /** The segment cursor's inner loop: from segment k (from `path[k-1]` to
      `path[k]`), step forward while a further segment exists and the arc
      length up to `path[k]` falls short of m. The result is a segment from
      k on where the walk may stop: the last one, or one reaching m. */
  function Advance(sqrt: real -> real, path: seq<Point>, k: nat, m: real): (r: nat)
    requires 1 <= k < |path|
    ensures k <= r < |path|
    ensures r == |path| - 1 || m <= ArcLength(sqrt, path, r)
    decreases |path| - k
  {
    if k < |path| - 1 && ArcLength(sqrt, path, k) < m then Advance(sqrt, path, k + 1, m) else k
  }

  /** The loop stops at the first segment where it may: every segment it
      steps over is a non-final one whose end falls short of m. */
  lemma {:induction false} AdvanceMinimal(sqrt: real -> real, path: seq<Point>, k: nat, m: real, j: nat)
    requires 1 <= k < |path| && k <= j < Advance(sqrt, path, k, m)
    ensures j < |path| - 1 && ArcLength(sqrt, path, j) < m
    decreases |path| - k
  {
    if j > k {
      AdvanceMinimal(sqrt, path, k + 1, m, j);
    }
  }

  /** The segment the i-th character drawn is placed on: the cursor starts at
      segment 1 and is advanced, never reset, for each character in turn. */
  function CursorAt(w: Walk, i: nat): (k: nat)
    requires |w.path| >= 2 && i < |w.drawn|
    ensures 1 <= k < |w.path|
  {
    Advance(w.math.sqrt, w.path, if i == 0 then 1 else CursorAt(w, i - 1), CharCentre(w, i))
  }

  /** The placement of the i-th character drawn, on its cursor's segment. */
  function PlaceAt(w: Walk, i: nat): Placement
    requires |w.path| >= 2 && i < |w.drawn|
  {
    var k := CursorAt(w, i);
    var p1, p2 := w.path[k - 1], w.path[k];
    Placement(w.drawn[i],
              Interpolate(p1, p2, CharCentre(w, i) - ArcLength(w.math.sqrt, w.path, k - 1),
                          SegLength(w.math.sqrt, p1, p2)),
              Upright(w.math.atan2(p2.y - p1.y, p2.x - p1.x), w.reverse))
  }

  /** The three parts of a placement, for the cursor's segment from p1 to p2. */
  lemma PlaceAtParts(w: Walk, i: nat, k: nat, p1: Point, p2: Point)
    requires |w.path| >= 2 && i < |w.drawn|
    requires k == CursorAt(w, i) && p1 == w.path[k - 1] && p2 == w.path[k]
    ensures PlaceAt(w, i).ch == w.drawn[i]
    ensures PlaceAt(w, i).at == Interpolate(p1, p2, CharCentre(w, i) - ArcLength(w.math.sqrt, w.path, k - 1),
                                            SegLength(w.math.sqrt, p1, p2))
    ensures PlaceAt(w, i).angle == Upright(w.math.atan2(p2.y - p1.y, p2.x - p1.x), w.reverse)
  {
  }

  /** The characters placed are the characters drawn, in the same order. */
  lemma PlacedChars(w: Walk, n: nat)
    requires |w.path| >= 2 && n <= |w.drawn|
    ensures Chars(PlacedSoFar(w, n)) == w.drawn[..n]
  {
    PlacedSoFarLength(w, n);
    forall j | 0 <= j < n
      ensures Chars(PlacedSoFar(w, n))[j] == w.drawn[j]
    {
      PlacedSoFarAt(w, n, j);
      var k := CursorAt(w, j);
      PlaceAtParts(w, j, k, w.path[k - 1], w.path[k]);
    }
  }

  /** The placements of the first n characters drawn, in order. */
  function PlacedSoFar(w: Walk, n: nat): seq<Placement>
    requires |w.path| >= 2 && n <= |w.drawn|
  {
    if n == 0 then [] else PlacedSoFar(w, n - 1) + [PlaceAt(w, n - 1)]
  }

  lemma {:induction false} PlacedSoFarLength(w: Walk, n: nat)
    requires |w.path| >= 2 && n <= |w.drawn|
    ensures |PlacedSoFar(w, n)| == n
  {
    if n > 0 {
      PlacedSoFarLength(w, n - 1);
    }
  }

  lemma {:induction false} PlacedSoFarAt(w: Walk, n: nat, j: nat)
    requires |w.path| >= 2 && j < n <= |w.drawn|
    ensures |PlacedSoFar(w, n)| == n && PlacedSoFar(w, n)[j] == PlaceAt(w, j)
  {
    if j < n - 1 {
      PlacedSoFarAt(w, n - 1, j);
    } else {
      PlacedSoFarLength(w, n - 1);
    }
  }

  /** Everything `textPath` hands to `draw`, in order. */
  function Layout(text: Text, path: seq<Point>, measure: Text -> real,
                  textAlign: Option<string>, math: MathLib): seq<Placement>
    requires |path| >= 2
  {
    PlacedSoFar(Setup(text, path, measure, textAlign, math), |text|)
  }

  /** The characters of a sequence of placements, in order. */
  function Chars(ps: seq<Placement>): (s: Text)
    ensures |s| == |ps|
  {
    seq(|ps|, i requires 0 <= i < |ps| => ps[i].ch)
  }
}
