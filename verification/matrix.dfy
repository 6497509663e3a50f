/**
 A 3x3 transform matrix stored as nine reals in a flat sequence, with the
 storage layout of the library's `Matrix` class:

     logical                         storage index
     [ scaleX  skewX   transX ]      [ 0  3  6 ]
     [ skewY   scaleY  transY ]      [ 1  4  7 ]
     [ perSp0  perSp1  perSp2 ]      [ 2  5  8 ]

 so the logical entry (row, col) lives at index 3 * col + row. The setters of
 the class mutate the receiver and return it; here they are pure functions
 returning the updated value. Arithmetic is over `real`: rounding, NaN and
 infinities are not modelled.
 */
module Matrix {

  /** A matrix is exactly nine entries; the witness is the identity. */
  type Mat = v: seq<real> | |v| == 9 witness [1.0, 0.0, 0.0, 0.0, 1.0, 0.0, 0.0, 0.0, 1.0]

  /** A point as the `[x, y]` pair the class works with. */
  type Point = (real, real)

  /** The outcome of an operation that can throw an invalid-argument error. */
  datatype Result<T> = Ok(value: T) | InvalidArgument(message: string)

  // ---------------------------------------------------------------------
  // Named accessors (fixed storage indices)
  // ---------------------------------------------------------------------

  /** The logical entry in row `row` and column `col`. */
  function At(m: Mat, row: nat, col: nat): real
    requires row < 3 && col < 3
  {
    m[3 * col + row]
  }

  function ScaleX(m: Mat): real { m[0] }
  function SkewY(m: Mat): real { m[1] }
  function PerSp0(m: Mat): real { m[2] }
  function SkewX(m: Mat): real { m[3] }
  function ScaleY(m: Mat): real { m[4] }
  function PerSp1(m: Mat): real { m[5] }
  function TransX(m: Mat): real { m[6] }
  function TransY(m: Mat): real { m[7] }
  function PerSp2(m: Mat): real { m[8] }

  /** Each accessor reads the logical position the layout above gives its name. */
  lemma AccessorsFollowLayout(m: Mat)
    ensures ScaleX(m) == At(m, 0, 0) && SkewX(m) == At(m, 0, 1) && TransX(m) == At(m, 0, 2)
    ensures SkewY(m) == At(m, 1, 0) && ScaleY(m) == At(m, 1, 1) && TransY(m) == At(m, 1, 2)
    ensures PerSp0(m) == At(m, 2, 0) && PerSp1(m) == At(m, 2, 1) && PerSp2(m) == At(m, 2, 2)
  {
  }

  /** The perspective row is (0, 0, 1): the matrix is a plain affine transform. */
  predicate IsAffine(m: Mat)
  {
    PerSp0(m) == 0.0 && PerSp1(m) == 0.0 && PerSp2(m) == 1.0
  }

  // ---------------------------------------------------------------------
  // Construction and in-place setters
  // ---------------------------------------------------------------------

  /** `Matrix.identity()` and the constructor. */
  function Identity(): (r: Mat)
    ensures IsAffine(r)
    ensures forall row: nat, col: nat | row < 3 && col < 3 :: At(r, row, col) == if row == col then 1.0 else 0.0
  {
    [1.0, 0.0, 0.0, 0.0, 1.0, 0.0, 0.0, 0.0, 1.0]
  }

  /** `setScale`: writes scaleX and scaleY, nothing else. */
  function SetScale(m: Mat, sx: real, sy: real): (r: Mat)
    ensures ScaleX(r) == sx && ScaleY(r) == sy
    ensures forall i | 0 <= i < 9 && i != 0 && i != 4 :: r[i] == m[i]
  {
    m[0 := sx][4 := sy]
  }

  /**
   `setRotate(rad)`: `c` and `s` stand for `Math.cos(rad)` and `Math.sin(rad)`.
   Writes the 2x2 rotation block (c, s, -s, c) at indices 0, 1, 3, 4 only.
   */
  function SetRotate(m: Mat, c: real, s: real): (r: Mat)
    ensures ScaleX(r) == c && SkewY(r) == s && SkewX(r) == -s && ScaleY(r) == c
    ensures forall i | 0 <= i < 9 && i != 0 && i != 1 && i != 3 && i != 4 :: r[i] == m[i]
  {
    m[0 := c][1 := s][3 := -s][4 := c]
  }

  /** `postTranslate`: adds to transX and transY, nothing else. */
  function PostTranslate(m: Mat, dx: real, dy: real): (r: Mat)
    ensures TransX(r) == TransX(m) + dx && TransY(r) == TransY(m) + dy
    ensures forall i | 0 <= i < 9 && i != 6 && i != 7 :: r[i] == m[i]
  {
    m[6 := m[6] + dx][7 := m[7] + dy]
  }

  // ---------------------------------------------------------------------
  // Products
  // ---------------------------------------------------------------------

  /** Row `row` of `a` times column `col` of `b`. */
  function Dot(a: Mat, b: Mat, row: nat, col: nat): real
    requires row < 3 && col < 3
  {
    At(a, row, 0) * At(b, 0, col) + At(a, row, 1) * At(b, 1, col) + At(a, row, 2) * At(b, 2, col)
  }

  /** The textbook 3x3 product `a × b`, entry (row, col) at index 3 * col + row. */
  function TextbookMul(a: Mat, b: Mat): (r: Mat)
    ensures forall row: nat, col: nat | row < 3 && col < 3 :: At(r, row, col) == Dot(a, b, row, col)
  {
    [ Dot(a, b, 0, 0), Dot(a, b, 1, 0), Dot(a, b, 2, 0),
      Dot(a, b, 0, 1), Dot(a, b, 1, 1), Dot(a, b, 2, 1),
      Dot(a, b, 0, 2), Dot(a, b, 1, 2), Dot(a, b, 2, 2) ]
  }

  /**
   `mul` exactly as the class computes it. Eight entries are the textbook
   product; the perSp0 entry multiplies perSp1 by the right operand's scaleY
   where the textbook product uses its skewY.
   */
  function Mul(a: Mat, b: Mat): (r: Mat)
    ensures forall i | 0 <= i < 9 && i != 2 :: r[i] == TextbookMul(a, b)[i]
    ensures PerSp0(r) == PerSp0(TextbookMul(a, b)) + PerSp1(a) * (ScaleY(b) - SkewY(b))
  {
    [ ScaleX(a) * ScaleX(b) + SkewX(a) * SkewY(b) + TransX(a) * PerSp0(b),
      SkewY(a) * ScaleX(b) + ScaleY(a) * SkewY(b) + TransY(a) * PerSp0(b),
      PerSp0(a) * ScaleX(b) + PerSp1(a) * ScaleY(b) + PerSp2(a) * PerSp0(b),
      ScaleX(a) * SkewX(b) + SkewX(a) * ScaleY(b) + TransX(a) * PerSp1(b),
      SkewY(a) * SkewX(b) + ScaleY(a) * ScaleY(b) + TransY(a) * PerSp1(b),
      PerSp0(a) * SkewX(b) + PerSp1(a) * ScaleY(b) + PerSp2(a) * PerSp1(b),
      ScaleX(a) * TransX(b) + SkewX(a) * TransY(b) + TransX(a) * PerSp2(b),
      SkewY(a) * TransX(b) + ScaleY(a) * TransY(b) + TransY(a) * PerSp2(b),
      PerSp0(a) * TransX(b) + PerSp1(a) * TransY(b) + PerSp2(a) * PerSp2(b) ]
  }

  /** `scale([sx, sy])`: the receiver times a pure-scale delta. */
  function Scale(m: Mat, sx: real, sy: real): (r: Mat)
    ensures ScaleX(r) == ScaleX(m) * sx && SkewY(r) == SkewY(m) * sx
    ensures SkewX(r) == SkewX(m) * sy && ScaleY(r) == ScaleY(m) * sy
    ensures TransX(r) == TransX(m) && TransY(r) == TransY(m)
    ensures PerSp0(r) == PerSp0(m) * sx + PerSp1(m) * sy
    ensures PerSp1(r) == PerSp1(m) * sy && PerSp2(r) == PerSp2(m)
  {
    Mul(m, SetScale(Identity(), sx, sy))
  }

  /** `rotate(rad)`: the receiver times a rotation delta, with c = cos(rad) and s = sin(rad). */
  function Rotate(m: Mat, c: real, s: real): (r: Mat)
    ensures ScaleX(r) == ScaleX(m) * c + SkewX(m) * s && SkewX(r) == SkewX(m) * c - ScaleX(m) * s
    ensures SkewY(r) == SkewY(m) * c + ScaleY(m) * s && ScaleY(r) == ScaleY(m) * c - SkewY(m) * s
    ensures TransX(r) == TransX(m) && TransY(r) == TransY(m)
    ensures PerSp0(r) == PerSp0(m) * c + PerSp1(m) * c
    ensures PerSp1(r) == PerSp1(m) * c - PerSp0(m) * s && PerSp2(r) == PerSp2(m)
  {
    Mul(m, SetRotate(Identity(), c, s))
  }

  // ---------------------------------------------------------------------
  // Mapping points
  // ---------------------------------------------------------------------

  /** `mapPoint`: applies the top 2x3 block only; no perspective divide. */
  function MapPoint(m: Mat, p: Point): Point
  {
    (m[0] * p.0 + m[3] * p.1 + m[6], m[1] * p.0 + m[4] * p.1 + m[7])
  }

  /** The `k`-th (x, y) pair of a flat, interleaved coordinate sequence. */
  function PairAt(s: seq<real>, k: nat): Point
    requires 2 * k + 1 < |s|
  {
    (s[2 * k], s[2 * k + 1])
  }

  /** Maps every pair of an even-length flat sequence, front to back. */
  function MapFlat(m: Mat, s: seq<real>): seq<real>
    requires |s| % 2 == 0
  {
    if |s| == 0 then []
    else
      var p := MapPoint(m, (s[0], s[1]));
      [p.0, p.1] + MapFlat(m, s[2..])
  }

  /** MapFlat keeps the length and maps pair `k` to the image of pair `k`. */
  lemma {:induction false} MapFlatPairwise(m: Mat, s: seq<real>)
    requires |s| % 2 == 0
    ensures |MapFlat(m, s)| == |s|
    ensures forall k: nat | 2 * k + 1 < |s| :: PairAt(MapFlat(m, s), k) == MapPoint(m, PairAt(s, k))
  {
    if |s| != 0 {
      var p := MapPoint(m, (s[0], s[1]));
      var rest := MapFlat(m, s[2..]);
      MapFlatPairwise(m, s[2..]);
      assert MapFlat(m, s) == [p.0, p.1] + rest;
      forall k: nat | 2 * k + 1 < |s|
        ensures PairAt(MapFlat(m, s), k) == MapPoint(m, PairAt(s, k))
      {
        if k > 0 {
          assert PairAt(MapFlat(m, s), k) == PairAt(rest, k - 1);
          assert PairAt(s, k) == PairAt(s[2..], k - 1);
        }
      }
    }
  }

  /**
   `mapPoints` as a value computation: an empty or odd-length input is an
   invalid argument; otherwise every (x, y) pair is replaced by its image.
   */
  function MapPoints(m: Mat, s: seq<real>): (r: Result<seq<real>>)
    ensures r.InvalidArgument? <==> |s| == 0 || |s| % 2 != 0
    ensures r.Ok? ==> |r.value| == |s|
    ensures r.Ok? ==> forall k: nat | 2 * k + 1 < |s| :: PairAt(r.value, k) == MapPoint(m, PairAt(s, k))
  {
    if |s| == 0 || |s| % 2 != 0 then
      InvalidArgument("mapPoints(pointArray), pointArray is invalid")
    else
      MapFlatPairwise(m, s);
      Ok(MapFlat(m, s))
  }

  /**
   `mapPoints` as the class runs it: in place over the caller's array, one
   pair per iteration, returning that same array.
   */
  method MapPointsInPlace(m: Mat, a: array<real>) returns (r: Result<array<real>>)
    modifies a
    ensures r.InvalidArgument? <==> a.Length == 0 || a.Length % 2 != 0
    ensures r.InvalidArgument? ==> a[..] == old(a[..])
    ensures r.Ok? ==> r.value == a && MapPoints(m, old(a[..])) == Ok(a[..])
  {
    if a.Length == 0 || (a.Length > 0 && a.Length % 2 != 0) {
      return InvalidArgument("mapPoints(pointArray), pointArray is invalid");
    }
    ghost var before := a[..];
    ghost var after := MapFlat(m, before);
    MapFlatPairwise(m, before);
    var i := 0;
    while i + 1 < a.Length
      invariant 0 <= i <= a.Length && i % 2 == 0
      invariant forall j | i <= j < a.Length :: a[j] == before[j]
      invariant forall j | 0 <= j < i :: a[j] == after[j]
      decreases a.Length - i
    {
      var x := a[i];
      var y := a[i + 1];
      var p := MapPoint(m, (x, y));
      assert PairAt(after, i / 2) == MapPoint(m, PairAt(before, i / 2));
      a[i] := p.0;
      a[i + 1] := p.1;
      i := i + 2;
    }
    assert a[..] == after;
    return Ok(a);
  }

  // ---------------------------------------------------------------------
  // Canvas parameters
  // ---------------------------------------------------------------------

  /**
   The six arguments of a canvas `setTransform(a, b, c, d, e, f)` call, which
   maps (x, y) to (a*x + c*y + e, b*x + d*y + f).
   */
  datatype CanvasTransform = CanvasTransform(a: real, b: real, c: real, d: real, e: real, f: real)

  /** How a canvas applies its transform parameters to a point. */
  function CanvasApply(t: CanvasTransform, p: Point): Point
  {
    (t.a * p.0 + t.c * p.1 + t.e, t.b * p.0 + t.d * p.1 + t.f)
  }

  /** Canvas `transform()` composition: the result applies `inner` first, then `outer`. */
  function CanvasCompose(outer: CanvasTransform, inner: CanvasTransform): CanvasTransform
  {
    CanvasTransform(
      outer.a * inner.a + outer.c * inner.b,
      outer.b * inner.a + outer.d * inner.b,
      outer.a * inner.c + outer.c * inner.d,
      outer.b * inner.c + outer.d * inner.d,
      outer.a * inner.e + outer.c * inner.f + outer.e,
      outer.b * inner.e + outer.d * inner.f + outer.f)
  }

  /** `toCanvasTransformParams`: storage indices 0, 1, 3, 4, 6, 7 in that order. */
  function ToCanvasTransformParams(m: Mat): (t: CanvasTransform)
    ensures t == CanvasTransform(m[0], m[1], m[3], m[4], m[6], m[7])
  {
    CanvasTransform(ScaleX(m), SkewY(m), SkewX(m), ScaleY(m), TransX(m), TransY(m))
  }
}
