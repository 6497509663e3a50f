/**
 Facts about the `RectF` model: intersection and containment, the canvas
 rectangle, `mapRect` (as written and with the intended fourth corner) and
 `union`.
 */
module RectLaws {
  import opened Matrix
  import opened Rect
  import opened MatrixLaws

  // ---------------------------------------------------------------------
  // Size and canvas rectangle
  // ---------------------------------------------------------------------

  /** Positive width and height is exactly the proper-rectangle test. */
  lemma PositiveSizeIffProper(r: RectF)
    ensures Width(r) > 0.0 && Height(r) > 0.0 <==> IsProper(r)
  {
  }

  /** A canvas drawing `toCanvasRect()` covers the same edges as the rectangle. */
  lemma CanvasRectRoundTrip(r: RectF)
    ensures FromCanvasRect(ToCanvasRect(r)) == r
  {
  }

  // ---------------------------------------------------------------------
  // intersects and contains
  // ---------------------------------------------------------------------

  /** A non-proper rectangle contains no point. */
  lemma DegenerateContainsNothing(r: RectF, x: real, y: real)
    requires !IsProper(r)
    ensures !Contains(r, x, y)
  {
  }

  /** `intersects` is symmetric in the two rectangles. */
  lemma IntersectsSymmetric(a: RectF, b: RectF)
    ensures Intersects(a, b.left, b.top, b.right, b.bottom) == Intersects(b, a.left, a.top, a.right, a.bottom)
  {
  }

  /** Rectangles that only meet along an edge do not intersect. */
  lemma SharedEdgeDoesNotIntersect(a: RectF, b: RectF)
    requires a.right == b.left || a.bottom == b.top
    ensures !Intersects(a, b.left, b.top, b.right, b.bottom)
  {
  }

  /** A point contained in both rectangles makes them intersect. */
  lemma CommonPointIntersects(a: RectF, b: RectF, x: real, y: real)
    requires Contains(a, x, y) && Contains(b, x, y)
    ensures Intersects(a, b.left, b.top, b.right, b.bottom)
  {
  }

  /** Two proper rectangles intersect exactly when some point is contained in both. */
  lemma ProperIntersectsIffCommonPoint(a: RectF, b: RectF)
    requires IsProper(a) && IsProper(b)
    ensures Intersects(a, b.left, b.top, b.right, b.bottom)
        <==> exists x: real, y: real :: Contains(a, x, y) && Contains(b, x, y)
  {
    if Intersects(a, b.left, b.top, b.right, b.bottom) {
      var x, y := Max(a.left, b.left), Max(a.top, b.top);
      assert Contains(a, x, y) && Contains(b, x, y);
    }
  }

  // ---------------------------------------------------------------------
  // mapRect
  // ---------------------------------------------------------------------

  /** Two bounding boxes of the same points are the same rectangle. */
  lemma BoundingBoxUnique(a: RectF, b: RectF, pts: seq<Point>)
    requires IsBoundingBox(a, pts) && IsBoundingBox(b, pts)
    ensures a == b
  {
    var xs, ys := Xs(pts), Ys(pts);
    var i :| 0 <= i < |pts| && xs[i] == a.left;
    var j :| 0 <= j < |pts| && xs[j] == b.left;
    assert Encloses(a, pts[j]) && Encloses(b, pts[i]);
    i :| 0 <= i < |pts| && xs[i] == a.right;
    j :| 0 <= j < |pts| && xs[j] == b.right;
    assert Encloses(a, pts[j]) && Encloses(b, pts[i]);
    i :| 0 <= i < |pts| && ys[i] == a.top;
    j :| 0 <= j < |pts| && ys[j] == b.top;
    assert Encloses(a, pts[j]) && Encloses(b, pts[i]);
    i :| 0 <= i < |pts| && ys[i] == a.bottom;
    j :| 0 <= j < |pts| && ys[j] == b.bottom;
    assert Encloses(a, pts[j]) && Encloses(b, pts[i]);
  }

  /** Mapping through the identity gives the edges sorted per axis. */
  lemma MapRectIdentity(r: RectF)
    ensures MapRect(r, Identity())
         == RectF(Min(r.left, r.right), Min(r.top, r.bottom), Max(r.left, r.right), Max(r.top, r.bottom))
  {
    var pts := MapAll(Identity(), CornersAsWritten(r));
    forall i | 0 <= i < 4
      ensures pts[i] == CornersAsWritten(r)[i]
    {
    }
    var want := RectF(Min(r.left, r.right), Min(r.top, r.bottom), Max(r.left, r.right), Max(r.top, r.bottom));
    assert Xs(pts)[0] == r.left && Xs(pts)[1] == r.right;
    assert Ys(pts)[0] == r.top && Ys(pts)[2] == r.bottom;
    assert IsBoundingBox(want, pts);
    BoundingBoxUnique(MapRect(r, Identity()), want, pts);
  }

  /** So a rectangle whose edges are in order maps to itself under the identity. */
  lemma MapRectIdentityOrdered(r: RectF)
    requires r.left <= r.right && r.top <= r.bottom
    ensures MapRect(r, Identity()) == r
  {
    MapRectIdentity(r);
  }

  /**
   The box of a grid of images (two x values by two y values) is the min and
   max per axis, whether the grid lists its fourth point or repeats the third.
   */
  lemma GridBox(xa: real, xb: real, ya: real, yb: real)
    ensures var box := RectF(Min(xa, xb), Min(ya, yb), Max(xa, xb), Max(ya, yb));
            && IsBoundingBox(box, [(xa, ya), (xb, ya), (xa, yb), (xb, yb)])
            && IsBoundingBox(box, [(xa, ya), (xb, ya), (xa, yb), (xa, yb)])
  {
    var four: seq<Point> := [(xa, ya), (xb, ya), (xa, yb), (xb, yb)];
    var three: seq<Point> := [(xa, ya), (xb, ya), (xa, yb), (xa, yb)];
    assert Xs(four) == [xa, xb, xa, xb] && Ys(four) == [ya, ya, yb, yb];
    assert Xs(three) == [xa, xb, xa, xa] && Ys(three) == [ya, ya, yb, yb];
  }

  /** Without skew the image x ignores the source y, and the image y ignores the source x. */
  lemma NoSkewImage(m: Mat, x: real, y: real, x2: real, y2: real)
    requires SkewX(m) == 0.0 && SkewY(m) == 0.0
    ensures MapPoint(m, (x, y)).0 == MapPoint(m, (x, y2)).0
    ensures MapPoint(m, (x, y)).1 == MapPoint(m, (x2, y)).1
  {
  }

  /**
   Without skew (scale and translate only) the missing right-bottom corner
   does not matter: the as-written box is the four-corner box.
   */
  lemma MapRectNoSkewIsFourCorner(r: RectF, m: Mat)
    requires SkewX(m) == 0.0 && SkewY(m) == 0.0
    ensures MapRect(r, m) == MapRectFourCorners(r, m)
  {
    var lt, rt := MapPoint(m, (r.left, r.top)), MapPoint(m, (r.right, r.top));
    var lb, rb := MapPoint(m, (r.left, r.bottom)), MapPoint(m, (r.right, r.bottom));
    NoSkewImage(m, r.left, r.top, r.right, r.bottom);
    NoSkewImage(m, r.right, r.bottom, r.left, r.top);
    var xl, xr, yt, yb := lt.0, rt.0, lt.1, lb.1;
    var three, four := MapAll(m, CornersAsWritten(r)), MapAll(m, Corners(r));
    assert three[0] == lt && three[1] == rt && three[2] == lb && three[3] == lb;
    assert four[0] == lt && four[1] == rt && four[2] == lb && four[3] == rb;
    assert three == [(xl, yt), (xr, yt), (xl, yb), (xl, yb)];
    assert four == [(xl, yt), (xr, yt), (xl, yb), (xr, yb)];
    var want := RectF(Min(xl, xr), Min(yt, yb), Max(xl, xr), Max(yt, yb));
    GridBox(xl, xr, yt, yb);
    BoundingBoxUnique(MapRect(r, m), want, three);
    BoundingBoxUnique(MapRectFourCorners(r, m), want, four);
  }

  /** Multiplying by `k` keeps or reverses an order, by the sign of `k`. */
  lemma MulMonotone(k: real, a: real, b: real)
    requires a <= b
    ensures k >= 0.0 ==> k * a <= k * b
    ensures k < 0.0 ==> k * b <= k * a
  {
    assert k * b - k * a == k * (b - a);
  }

  /** Scaling a value between `lo` and `hi` keeps it between the scaled ends. */
  lemma ScaleBetween(k: real, lo: real, hi: real, x: real)
    requires Min(lo, hi) <= x <= Max(lo, hi)
    ensures Min(k * lo, k * hi) <= k * x <= Max(k * lo, k * hi)
  {
    if lo <= hi {
      MulMonotone(k, lo, x);
      MulMonotone(k, x, hi);
    } else {
      MulMonotone(k, hi, x);
      MulMonotone(k, x, lo);
    }
    if k >= 0.0 {
      assert lo <= hi ==> k * lo <= k * hi;
    } else {
      assert lo <= hi ==> k * hi <= k * lo;
    }
  }

  /** A sum of two values, each between two ends, lies between the extreme sums of ends. */
  lemma SumBetween(a1: real, a2: real, a: real, b1: real, b2: real, b: real, k0: real)
    requires Min(a1, a2) <= a <= Max(a1, a2) && Min(b1, b2) <= b <= Max(b1, b2)
    ensures a + b + k0 <= Max(Max(a1 + b1 + k0, a2 + b1 + k0), Max(a1 + b2 + k0, a2 + b2 + k0))
    ensures Min(Min(a1 + b1 + k0, a2 + b1 + k0), Min(a1 + b2 + k0, a2 + b2 + k0)) <= a + b + k0
  {
  }

  /** The four-corner box holds the image of each true corner. */
  lemma FourCornerBoxHoldsCorners(r: RectF, m: Mat)
    ensures var box := MapRectFourCorners(r, m);
            && Encloses(box, MapPoint(m, (r.left, r.top))) && Encloses(box, MapPoint(m, (r.right, r.top)))
            && Encloses(box, MapPoint(m, (r.left, r.bottom))) && Encloses(box, MapPoint(m, (r.right, r.bottom)))
  {
    var box := MapRectFourCorners(r, m);
    var qs := MapAll(m, Corners(r));
    assert qs[0] == MapPoint(m, (r.left, r.top)) && qs[1] == MapPoint(m, (r.right, r.top));
    assert qs[2] == MapPoint(m, (r.left, r.bottom)) && qs[3] == MapPoint(m, (r.right, r.bottom));
    assert Encloses(box, qs[0]) && Encloses(box, qs[1]) && Encloses(box, qs[2]) && Encloses(box, qs[3]);
  }

  /** The image x of a point of the box lies between the least and greatest image x of the corners. */
  lemma ImageXBetweenCorners(m: Mat, l: real, rt: real, t: real, b: real, x: real, y: real)
    requires Min(l, rt) <= x <= Max(l, rt) && Min(t, b) <= y <= Max(t, b)
    ensures var p, c0, c1, c2, c3 := MapPoint(m, (x, y)), MapPoint(m, (l, t)), MapPoint(m, (rt, t)),
                                     MapPoint(m, (l, b)), MapPoint(m, (rt, b));
            Min(Min(c0.0, c1.0), Min(c2.0, c3.0)) <= p.0 <= Max(Max(c0.0, c1.0), Max(c2.0, c3.0))
  {
    ScaleBetween(m[0], l, rt, x);
    ScaleBetween(m[3], t, b, y);
    SumBetween(m[0] * l, m[0] * rt, m[0] * x, m[3] * t, m[3] * b, m[3] * y, m[6]);
    MapPointForm(m, x, y);
    MapPointForm(m, l, t);
    MapPointForm(m, rt, t);
    MapPointForm(m, l, b);
    MapPointForm(m, rt, b);
  }

  /** The image y of a point of the box lies between the least and greatest image y of the corners. */
  lemma ImageYBetweenCorners(m: Mat, l: real, rt: real, t: real, b: real, x: real, y: real)
    requires Min(l, rt) <= x <= Max(l, rt) && Min(t, b) <= y <= Max(t, b)
    ensures var p, c0, c1, c2, c3 := MapPoint(m, (x, y)), MapPoint(m, (l, t)), MapPoint(m, (rt, t)),
                                     MapPoint(m, (l, b)), MapPoint(m, (rt, b));
            Min(Min(c0.1, c1.1), Min(c2.1, c3.1)) <= p.1 <= Max(Max(c0.1, c1.1), Max(c2.1, c3.1))
  {
    ScaleBetween(m[1], l, rt, x);
    ScaleBetween(m[4], t, b, y);
    SumBetween(m[1] * l, m[1] * rt, m[1] * x, m[4] * t, m[4] * b, m[4] * y, m[7]);
    MapPointForm(m, x, y);
    MapPointForm(m, l, t);
    MapPointForm(m, rt, t);
    MapPointForm(m, l, b);
    MapPointForm(m, rt, b);
  }

  /** A box holding the images of the four corners holds the image of every point between them. */
  lemma CornersBoundImage(box: RectF, m: Mat, l: real, rt: real, t: real, b: real, x: real, y: real)
    requires Min(l, rt) <= x <= Max(l, rt) && Min(t, b) <= y <= Max(t, b)
    requires Encloses(box, MapPoint(m, (l, t))) && Encloses(box, MapPoint(m, (rt, t)))
    requires Encloses(box, MapPoint(m, (l, b))) && Encloses(box, MapPoint(m, (rt, b)))
    ensures Encloses(box, MapPoint(m, (x, y)))
  {
    ImageXBetweenCorners(m, l, rt, t, b, x, y);
    ImageYBetweenCorners(m, l, rt, t, b, x, y);
  }

  /**
   The four-corner box encloses the image of every point of the closed
   rectangle: it is a bounding box of the transformed rectangle.
   */
  lemma MapRectFourCornersEnclosesImage(r: RectF, m: Mat, x: real, y: real)
    requires Min(r.left, r.right) <= x <= Max(r.left, r.right)
    requires Min(r.top, r.bottom) <= y <= Max(r.top, r.bottom)
    ensures Encloses(MapRectFourCorners(r, m), MapPoint(m, (x, y)))
  {
    FourCornerBoxHoldsCorners(r, m);
    CornersBoundImage(MapRectFourCorners(r, m), m, r.left, r.right, r.top, r.bottom, x, y);
  }

  /**
   The as-written `mapRect` can miss part of the image: under the shear
   x' = x + y the corner (1, 1) of the unit rectangle (0, 0, 1, 1) maps to
   x' = 2, beyond the right edge 1 of the box it computes.
   */
  lemma MapRectMissesImage(r: RectF, shear: Mat)
    requires r.left == 0.0 && r.top == 0.0 && r.right == 1.0 && r.bottom == 1.0
    requires ScaleX(shear) == 1.0 && SkewX(shear) == 1.0 && TransX(shear) == 0.0
    requires SkewY(shear) == 0.0 && ScaleY(shear) == 1.0 && TransY(shear) == 0.0
    ensures MapRect(r, shear).right == 1.0 && MapPoint(shear, (1.0, 1.0)) == (2.0, 1.0)
    ensures !Encloses(MapRect(r, shear), MapPoint(shear, (r.right, r.bottom)))
  {
    var box, pts := MapRect(r, shear), MapAll(shear, CornersAsWritten(r));
    assert pts[0] == MapPoint(shear, (0.0, 0.0)) && pts[1] == MapPoint(shear, (1.0, 0.0));
    assert pts[2] == MapPoint(shear, (0.0, 1.0)) && pts[3] == MapPoint(shear, (0.0, 1.0));
    MapPointForm(shear, 0.0, 0.0);
    MapPointForm(shear, 1.0, 0.0);
    MapPointForm(shear, 0.0, 1.0);
    MapPointForm(shear, 1.0, 1.0);
    assert pts[0].0 == 0.0 && pts[1].0 == 1.0 && pts[2].0 == 1.0 && pts[3].0 == 1.0;
    assert Encloses(box, pts[1]);
    assert box.right in Xs(pts);
  }

  // ---------------------------------------------------------------------
  // union
  // ---------------------------------------------------------------------

  /** A union with a proper argument leaves a proper receiver. */
  lemma UnionIsProper(r: RectF, other: RectF)
    requires IsProper(other)
    ensures IsProper(UnionRect(r, other))
  {
  }

  /** After a union with a proper argument, every point of either rectangle is contained. */
  lemma UnionContainsBoth(r: RectF, other: RectF, x: real, y: real)
    requires IsProper(other)
    requires Contains(r, x, y) || Contains(other, x, y)
    ensures Contains(UnionRect(r, other), x, y)
  {
  }

  /** Repeating a union changes nothing. */
  lemma UnionIdempotent(r: RectF, other: RectF)
    ensures UnionRect(UnionRect(r, other), other) == UnionRect(r, other)
  {
  }

  /**
   The union is the least rectangle holding both: any rectangle that
   contains every point of the receiver and of the argument contains every
   point of the union. A non-proper side contributes no points, and `union`
   either ignores it or replaces it.
   */
  lemma UnionIsLeast(r: RectF, other: RectF, s: RectF)
    requires forall x: real, y: real :: Contains(r, x, y) || Contains(other, x, y) ==> Contains(s, x, y)
    ensures forall x: real, y: real :: Contains(UnionRect(r, other), x, y) ==> Contains(s, x, y)
  {
    if IsProper(r) && IsProper(other) {
      CoversEdges(r, s);
      CoversEdges(other, s);
    }
  }

  /** A rectangle that contains every point of a proper one encloses its edges. */
  lemma CoversEdges(r: RectF, s: RectF)
    requires IsProper(r)
    requires forall x: real, y: real :: Contains(r, x, y) ==> Contains(s, x, y)
    ensures s.left <= r.left && r.right <= s.right && s.top <= r.top && r.bottom <= s.bottom
  {
    assert Contains(r, r.left, r.top);
    var x, y := Max(r.left, s.right), Max(r.top, s.bottom);
    assert Contains(r, x, r.top) ==> Contains(s, x, r.top);
    assert Contains(r, r.left, y) ==> Contains(s, r.left, y);
  }
}
