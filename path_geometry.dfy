/** Geometry of a polyline path: segment and arc lengths, interpolation
    along one segment, and the "keep text upright" angle flip. */
module PathGeometry {

  /** One point of the path: the coordinate pair `[x, y]`. */
  datatype Point = Point(x: real, y: real)

  /** The two primitives taken from JavaScript's `Math`. Their values are
      not modelled: they are given as functions, and whatever a lemma needs
      to know about them (`SqrtNonNegative`, or a value such as
      `sqrt(100.0) == 10.0`) is one of its hypotheses. */
  datatype MathLib = MathLib(sqrt: real -> real, atan2: (real, real) -> real)

  /** `Math.PI`, written as the shortest decimal of that double. */
  const PI: real := 3.141592653589793

  /** A square root never yields a negative value for a non-negative argument. */
  ghost predicate SqrtNonNegative(sqrt: real -> real) {
    forall v :: 0.0 <= v ==> 0.0 <= sqrt(v)
  }

  /** Euclidean distance from p to q: the root of the summed squared deltas. */
  function SegLength(sqrt: real -> real, p: Point, q: Point): real {
    sqrt((q.x - p.x) * (q.x - p.x) + (q.y - p.y) * (q.y - p.y))
  }

  lemma SegLengthNonNegative(sqrt: real -> real, p: Point, q: Point)
    requires SqrtNonNegative(sqrt)
    ensures 0.0 <= SegLength(sqrt, p, q)
  {
    var dx, dy := q.x - p.x, q.y - p.y;
    assert 0.0 <= dx * dx by { if dx < 0.0 { assert dx * dx == (-dx) * (-dx); } }
    assert 0.0 <= dy * dy by { if dy < 0.0 { assert dy * dy == (-dy) * (-dy); } }
  }

  /** Arc length from `path[0]` to `path[k]`: the sum of the first k segments. */
  function ArcLength(sqrt: real -> real, path: seq<Point>, k: nat): real
    requires k < |path|
  {
    if k == 0 then 0.0 else ArcLength(sqrt, path, k - 1) + SegLength(sqrt, path[k - 1], path[k])
  }

  /** Total arc length of the path. */
  function PathLength(sqrt: real -> real, path: seq<Point>): real
    requires |path| >= 1
  {
    ArcLength(sqrt, path, |path| - 1)
  }

  lemma {:induction false} ArcLengthGrows(sqrt: real -> real, path: seq<Point>, j: nat, k: nat)
    requires SqrtNonNegative(sqrt)
    requires j <= k < |path|
    ensures 0.0 <= ArcLength(sqrt, path, j) <= ArcLength(sqrt, path, k)
  {
    if j < k {
      ArcLengthGrows(sqrt, path, j, k - 1);
      SegLengthNonNegative(sqrt, path[k - 1], path[k]);
    } else if k > 0 {
      ArcLengthGrows(sqrt, path, k - 1, k - 1);
      SegLengthNonNegative(sqrt, path[k - 1], path[k]);
    }
  }

  /** The arc length up to `path[k]` is the one up to `path[k-1]` plus the segment between them. */
  lemma ArcLengthStep(sqrt: real -> real, path: seq<Point>, k: nat)
    requires 1 <= k < |path|
    ensures ArcLength(sqrt, path, k) == ArcLength(sqrt, path, k - 1) + SegLength(sqrt, path[k - 1], path[k])
  {
  }

  /** Arc length never decreases along the path, is never negative, and
      never exceeds the path's length. */
  lemma ArcLengthMonotone(sqrt: real -> real, path: seq<Point>, j: nat, k: nat)
    requires SqrtNonNegative(sqrt)
    requires j <= k < |path|
    ensures 0.0 <= ArcLength(sqrt, path, j) <= ArcLength(sqrt, path, k) <= PathLength(sqrt, path)
  {
    ArcLengthGrows(sqrt, path, j, k);
    ArcLengthGrows(sqrt, path, k, |path| - 1);
  }

  /** Coordinates handed to the caller; a division by a zero segment length
      gives JavaScript's NaN or Infinity, which is what `NotFinite` stands for. */
  datatype Coords = Finite(x: real, y: real) | NotFinite

  /** The point t of the way from p to q. */
  function Lerp(p: Point, q: Point, t: real): Coords {
    Finite(p.x + t * (q.x - p.x), p.y + t * (q.y - p.y))
  }

  /** Interpolates `pos` arc-length units into the segment from p to q of length `len`. */
  function Interpolate(p: Point, q: Point, pos: real, len: real): Coords {
    if len == 0.0 then NotFinite else Lerp(p, q, pos / len)
  }

  /** A position inside a segment of positive length is a fraction in [0, 1]. */
  lemma FractionInUnitInterval(pos: real, len: real)
    requires 0.0 < len && 0.0 <= pos <= len
    ensures 0.0 <= pos / len <= 1.0
  {
    assert (pos / len) * len == pos;
  }

  /** For a fraction in [0, 1] the interpolated point lies between p and q in both coordinates. */
  lemma LerpBetween(p: Point, q: Point, t: real)
    requires 0.0 <= t <= 1.0
    ensures Between(p.x, Lerp(p, q, t).x, q.x) && Between(p.y, Lerp(p, q, t).y, q.y)
  {
    var dx, dy := q.x - p.x, q.y - p.y;
    ScaleWithin(dx, t);
    ScaleWithin(dy, t);
    assert Lerp(p, q, t) == Finite(p.x + t * dx, p.y + t * dy);
  }

  /** A position inside a segment of positive length interpolates to a
      finite point of that segment, a fraction in [0, 1] of the way from p to
      q, with both coordinates between those of p and q. */
  lemma InterpolateWithin(p: Point, q: Point, pos: real, len: real, at: Coords)
    requires 0.0 < len && 0.0 <= pos <= len && at == Interpolate(p, q, pos, len)
    ensures 0.0 <= pos / len <= 1.0 && at == Lerp(p, q, pos / len)
    ensures at.Finite? && Between(p.x, at.x, q.x) && Between(p.y, at.y, q.y)
  {
    FractionInUnitInterval(pos, len);
    LerpBetween(p, q, pos / len);
  }

  lemma ScaleWithin(d: real, t: real)
    requires 0.0 <= t <= 1.0
    ensures if d >= 0.0 then 0.0 <= t * d <= d else d <= t * d <= 0.0
  {
    if d >= 0.0 {
      assert (1.0 - t) * d >= 0.0;
    } else {
      assert (1.0 - t) * (-d) >= 0.0;
      assert t * (-d) >= 0.0;
    }
  }

  predicate Between(a: real, v: real, b: real) {
    (a <= v <= b) || (b <= v <= a)
  }

  /** The upright rule: on a reversed path the raw tangent angle turns by a
      half turn, subtracting π from a positive angle and adding π otherwise.
      On a path walked forwards the angle is the raw tangent; on a reversed
      path it points the opposite way; and an angle in atan2's range (-π, π]
      stays in that range. */
  function Upright(raw: real, reverse: bool): (angle: real)
    ensures !reverse ==> angle == raw
    ensures reverse ==> angle - raw == PI || raw - angle == PI
    ensures -PI < raw <= PI ==> -PI < angle <= PI
  {
    if reverse then raw + (if raw > 0.0 then -PI else PI) else raw
  }
}
