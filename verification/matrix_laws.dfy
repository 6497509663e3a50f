/**
 Algebraic facts about the `Matrix` model: the identity, the product as the
 class computes it against the textbook product, point mapping through
 composed transforms, and the canvas parameter order.
 */
module MatrixLaws {
  import opened Matrix

  // ---------------------------------------------------------------------
  // Identity
  // ---------------------------------------------------------------------

  /** The identity maps every point to itself. */
  lemma IdentityMapsPointToItself(p: Point)
    ensures MapPoint(Identity(), p) == p
  {
    MapPointForm(Identity(), p.0, p.1);
    assert MapPoint(Identity(), p).0 == p.0 && MapPoint(Identity(), p).1 == p.1;
  }

  /** The identity is a left unit of `mul` for every matrix. */
  lemma IdentityLeftUnit(m: Mat)
    ensures Mul(Identity(), m) == m
  {
    assert Mul(Identity(), m)[2] == m[2];
  }

  /**
   The identity is a right unit of `mul` exactly when perSp1 is zero: the
   as-written perSp0 entry picks up perSp1 * scaleY(identity) = perSp1.
   */
  lemma IdentityRightUnitIff(m: Mat)
    ensures Mul(m, Identity()) == m <==> PerSp1(m) == 0.0
  {
    if PerSp1(m) == 0.0 {
      var r := Mul(m, Identity());
      forall i | 0 <= i < 9
        ensures r[i] == m[i]
      {
      }
    } else {
      assert Mul(m, Identity())[2] != m[2];
    }
  }

  /** A concrete matrix on which the identity is not a right unit. */
  lemma RightIdentityCounterexample()
    ensures var m: Mat := [1.0, 0.0, 0.0, 0.0, 1.0, 1.0, 0.0, 0.0, 1.0];
            Mul(m, Identity()) != m && PerSp0(Mul(m, Identity())) == 1.0
  {
    var m: Mat := [1.0, 0.0, 0.0, 0.0, 1.0, 1.0, 0.0, 0.0, 1.0];
    assert Mul(m, Identity())[2] == 1.0;
  }

  // ---------------------------------------------------------------------
  // The product as written against the textbook product
  // ---------------------------------------------------------------------

  /** The textbook product has the identity as a two-sided unit. */
  lemma TextbookIdentityUnit(m: Mat)
    ensures TextbookMul(Identity(), m) == m
    ensures TextbookMul(m, Identity()) == m
  {
    var l, r := TextbookMul(Identity(), m), TextbookMul(m, Identity());
    forall i | 0 <= i < 9
      ensures l[i] == m[i] && r[i] == m[i]
    {
    }
  }

  /**
   The class's product equals the textbook product exactly when
   perSp1(a) * scaleY(b) and perSp1(a) * skewY(b) coincide.
   */
  lemma MulIsTextbookIff(a: Mat, b: Mat)
    ensures Mul(a, b) == TextbookMul(a, b) <==> PerSp1(a) * ScaleY(b) == PerSp1(a) * SkewY(b)
  {
    var r, t := Mul(a, b), TextbookMul(a, b);
    if PerSp1(a) * ScaleY(b) == PerSp1(a) * SkewY(b) {
      forall i | 0 <= i < 9
        ensures r[i] == t[i]
      {
      }
    } else {
      assert r[2] != t[2];
    }
  }

  /** In particular the two products agree whenever the left operand's perSp1 is zero. */
  lemma MulIsTextbookWhenPerSp1Zero(a: Mat, b: Mat)
    requires PerSp1(a) == 0.0
    ensures Mul(a, b) == TextbookMul(a, b)
  {
    MulIsTextbookIff(a, b);
  }

  // ---------------------------------------------------------------------
  // Affine matrices: every matrix the class's operations build
  // ---------------------------------------------------------------------

  /**
   Two matrices with perspective row (0, 0, 1) multiply to one with the same
   row, and the top six entries are the canvas composition of the two.
   */
  lemma MulAffineIsComposition(a: Mat, b: Mat)
    requires IsAffine(a) && IsAffine(b)
    ensures IsAffine(Mul(a, b))
    ensures ToCanvasTransformParams(Mul(a, b))
         == CanvasCompose(ToCanvasTransformParams(a), ToCanvasTransformParams(b))
  {
  }

  /** The setters and composers keep the perspective row (0, 0, 1). */
  lemma OperationsPreserveAffine(m: Mat, x: real, y: real)
    requires IsAffine(m)
    ensures IsAffine(SetScale(m, x, y)) && IsAffine(SetRotate(m, x, y))
    ensures IsAffine(PostTranslate(m, x, y))
    ensures IsAffine(Scale(m, x, y)) && IsAffine(Rotate(m, x, y))
  {
  }

  /**
   On matrices built through the class's operations the defective perSp0
   entry never shows: the product is the textbook product.
   */
  lemma AffineMulIsTextbook(a: Mat, b: Mat)
    requires IsAffine(a)
    ensures Mul(a, b) == TextbookMul(a, b)
  {
    MulIsTextbookWhenPerSp1Zero(a, b);
  }

  // ---------------------------------------------------------------------
  // Mapping points through composed transforms
  // ---------------------------------------------------------------------

  // The coordinates of an image over storage indices, for proofs below.
  lemma MapPointForm(m: Mat, x: real, y: real)
    ensures MapPoint(m, (x, y)).0 == m[0] * x + m[3] * y + m[6]
    ensures MapPoint(m, (x, y)).1 == m[1] * x + m[4] * y + m[7]
  {
  }

  /**
   `mapPoint` applies the first two logical rows to (x, y, 1): the image is
   (scaleX·x + skewX·y + transX, skewY·x + scaleY·y + transY).
   */
  lemma MapPointIsTopRows(m: Mat, x: real, y: real)
    ensures MapPoint(m, (x, y)).0 == At(m, 0, 0) * x + At(m, 0, 1) * y + At(m, 0, 2)
    ensures MapPoint(m, (x, y)).1 == At(m, 1, 0) * x + At(m, 1, 1) * y + At(m, 1, 2)
    ensures MapPoint(m, (x, y)).0 == ScaleX(m) * x + SkewX(m) * y + TransX(m)
    ensures MapPoint(m, (x, y)).1 == SkewY(m) * x + ScaleY(m) * y + TransY(m)
  {
    AccessorsFollowLayout(m);
    MapPointForm(m, x, y);
  }

  /** `mapPoint` does no perspective divide: the perspective row never affects an image. */
  lemma MapPointIgnoresPerspective(m: Mat, z0: real, z1: real, z2: real, p: Point)
    ensures MapPoint(m[2 := z0][5 := z1][8 := z2], p) == MapPoint(m, p)
  {
    var n := m[2 := z0][5 := z1][8 := z2];
    assert n[0] == m[0] && n[1] == m[1] && n[3] == m[3] && n[4] == m[4] && n[6] == m[6] && n[7] == m[7];
    MapPointForm(n, p.0, p.1);
    MapPointForm(m, p.0, p.1);
    assert MapPoint(n, p).0 == MapPoint(m, p).0;
    assert MapPoint(n, p).1 == MapPoint(m, p).1;
  }

  /** Substituting one affine form into another, per coordinate. */
  lemma ComposeForm(a0: real, a3: real, a6: real, b0: real, b1: real, b3: real, b4: real, b6: real, b7: real, x: real, y: real)
    ensures (a0 * b0 + a3 * b1) * x + (a0 * b3 + a3 * b4) * y + (a0 * b6 + a3 * b7 + a6)
         == a0 * (b0 * x + b3 * y + b6) + a3 * (b1 * x + b4 * y + b7) + a6
  {
  }

  /**
   Mapping through `a.mul(b)` is mapping through `b` and then `a`, provided
   `b` has perspective row (0, 0, 1).
   */
  lemma MulMapPoint(a: Mat, b: Mat, p: Point)
    requires IsAffine(b)
    ensures MapPoint(Mul(a, b), p) == MapPoint(a, MapPoint(b, p))
  {
    var q := MapPoint(b, p);
    var r := Mul(a, b);
    assert r[0] == a[0] * b[0] + a[3] * b[1] && r[3] == a[0] * b[3] + a[3] * b[4];
    assert r[6] == a[0] * b[6] + a[3] * b[7] + a[6];
    assert r[1] == a[1] * b[0] + a[4] * b[1] && r[4] == a[1] * b[3] + a[4] * b[4];
    assert r[7] == a[1] * b[6] + a[4] * b[7] + a[7];
    MapPointForm(r, p.0, p.1);
    MapPointForm(b, p.0, p.1);
    MapPointForm(a, q.0, q.1);
    ComposeForm(a[0], a[3], a[6], b[0], b[1], b[3], b[4], b[6], b[7], p.0, p.1);
    ComposeForm(a[1], a[4], a[7], b[0], b[1], b[3], b[4], b[6], b[7], p.0, p.1);
    assert MapPoint(r, p).0 == MapPoint(a, q).0;
    assert MapPoint(r, p).1 == MapPoint(a, q).1;
  }

  /** `scale([sx, sy])` scales a point first and then applies the receiver. */
  lemma ScaleMapsPoint(m: Mat, sx: real, sy: real, p: Point)
    ensures MapPoint(Scale(m, sx, sy), p) == MapPoint(m, (sx * p.0, sy * p.1))
  {
    var delta := SetScale(Identity(), sx, sy);
    assert delta == [sx, 0.0, 0.0, 0.0, sy, 0.0, 0.0, 0.0, 1.0];
    assert MapPoint(delta, p).0 == sx * p.0 && MapPoint(delta, p).1 == sy * p.1;
    MulMapPoint(m, delta, p);
  }

  /** `rotate(rad)` rotates a point by (cos, sin) first and then applies the receiver. */
  lemma RotateMapsPoint(m: Mat, c: real, s: real, p: Point)
    ensures MapPoint(Rotate(m, c, s), p) == MapPoint(m, (c * p.0 - s * p.1, s * p.0 + c * p.1))
  {
    var delta := SetRotate(Identity(), c, s);
    assert delta == [c, s, 0.0, -s, c, 0.0, 0.0, 0.0, 1.0];
    assert MapPoint(delta, p).0 == c * p.0 - s * p.1 && MapPoint(delta, p).1 == s * p.0 + c * p.1;
    MulMapPoint(m, delta, p);
  }

  /** After `postTranslate(dx, dy)` every point lands exactly (dx, dy) further. */
  lemma PostTranslateShiftsPoints(m: Mat, dx: real, dy: real, p: Point)
    ensures MapPoint(PostTranslate(m, dx, dy), p) == (MapPoint(m, p).0 + dx, MapPoint(m, p).1 + dy)
  {
    var r := PostTranslate(m, dx, dy);
    assert r[0] == m[0] && r[1] == m[1] && r[3] == m[3] && r[4] == m[4];
    assert MapPoint(r, p).0 == MapPoint(m, p).0 + dx;
    assert MapPoint(r, p).1 == MapPoint(m, p).1 + dy;
  }

  // ---------------------------------------------------------------------
  // Canvas parameters
  // ---------------------------------------------------------------------

  /** A canvas given `toCanvasTransformParams()` maps points as `mapPoint` does. */
  lemma CanvasParamsMapLikeMatrix(m: Mat, p: Point)
    ensures CanvasApply(ToCanvasTransformParams(m), p) == MapPoint(m, p)
  {
    var t := ToCanvasTransformParams(m);
    assert CanvasApply(t, p).0 == MapPoint(m, p).0;
    assert CanvasApply(t, p).1 == MapPoint(m, p).1;
  }

  /** Canvas composition applies the inner transform first, then the outer one. */
  lemma CanvasComposeApplies(outer: CanvasTransform, inner: CanvasTransform, p: Point)
    ensures CanvasApply(CanvasCompose(outer, inner), p) == CanvasApply(outer, CanvasApply(inner, p))
  {
    var q := CanvasApply(inner, p);
    calc {
      CanvasApply(CanvasCompose(outer, inner), p).0;
      (outer.a * inner.a + outer.c * inner.b) * p.0 + (outer.a * inner.c + outer.c * inner.d) * p.1
        + (outer.a * inner.e + outer.c * inner.f + outer.e);
      outer.a * (inner.a * p.0 + inner.c * p.1 + inner.e) + outer.c * (inner.b * p.0 + inner.d * p.1 + inner.f) + outer.e;
      CanvasApply(outer, q).0;
    }
    calc {
      CanvasApply(CanvasCompose(outer, inner), p).1;
      (outer.b * inner.a + outer.d * inner.b) * p.0 + (outer.b * inner.c + outer.d * inner.d) * p.1
        + (outer.b * inner.e + outer.d * inner.f + outer.f);
      outer.b * (inner.a * p.0 + inner.c * p.1 + inner.e) + outer.d * (inner.b * p.0 + inner.d * p.1 + inner.f) + outer.f;
      CanvasApply(outer, q).1;
    }
  }
}
