# graph-utils: transform matrix and RectF, modelled in Dafny

This project models the two classes of the graph-utils library. The first is
`Matrix`, a 3×3 transform matrix. It stores nine numbers in a flat array and
exposes them through named accessors. The second is `RectF`, an axis-aligned
rectangle given by four edges. A `RectF` can be mapped through a `Matrix`,
unioned with another rectangle, and tested for containment and intersection.

Files and modules:

- `matrix.dfy`, module `Matrix`. A matrix is a `seq<real>` of length 9 with
  the class's storage layout: scaleX=0, skewY=1, perSp0=2, skewX=3, scaleY=4,
  perSp1=5, transX=6, transY=7, perSp2=8. So logical entry (row, col) is at
  index `3 * col + row`. The module has the identity, the setters, `mul`
  (exactly as written), `scale`, `rotate`, `mapPoint`, `mapPoints` and
  `toCanvasTransformParams`. It also defines two reference definitions: the
  textbook product `TextbookMul`, and the canvas `setTransform` convention
  (`CanvasTransform`, `CanvasApply`, `CanvasCompose`).
- `matrix_laws.dfy`, module `MatrixLaws`. Facts about the identity and the
  product as written versus the textbook product. Also facts about mapping
  points through composed transforms, and the canvas parameter order.
- `rect.dfy`, module `Rect`. `RectF`, the three construction forms, the
  size and canvas-rect getters, `equals`, `intersects`, `contains`, `mapRect`
  (as written, plus the four-corner version) and both `union` overloads.
- `rect_laws.dfy`, module `RectLaws`. Facts about intersection and
  containment, bounding boxes, `mapRect` and `union`.

The matrix setters `setScale`, `setRotate` and `postTranslate` mutate the
receiver and return it. Here they are pure functions that return the updated
value. `union` mutates the receiver and returns nothing. Here `Union` and
`UnionRect` return the updated rectangle. `Scale`, `Rotate`, `Mul` and
`MapRect` are pure functions too. So "the receiver is unchanged" holds by
construction. `mapPoints` is modelled twice. `MapPoints` is a value
computation that returns `Ok` or `InvalidArgument`. `MapPointsInPlace` is
the in-place loop over an `array<real>`, and it returns that same array.
Its contract uses `old(a[..])` and a `modifies` clause. It is proved to leave
the array holding exactly what `MapPoints` returns.

All arithmetic is over `real`. The cosine and sine that `setRotate` computes
are parameters `c` and `s`.

In two places the code departs from what its own text intends, and the
model follows the code (see "## Findings"):

- The header comment of src/matrix.ts:3-10 lays the matrix out as a 3×3
  grid, and line 117 correctly uses `m.scaleY` for the perSp1 entry. But the
  perSp0 entry at line 115 also uses `m.scaleY`, where row 3 times column 1
  needs `m.skewY`.
- The class's own `rightBottom` getter (src/rectF.ts:78-80) returns
  `[this.right, this.bottom]`. But `mapRect` builds its fourth corner at
  line 138 as `[this.left, this.bottom]`, a repeat of the third.

One more detail of the code:

- `contains` tests `left < right && top < bottom` before the half-open bounds.
  That test is implied by the bounds, so `Contains` is exactly the half-open
  box test.

## Model

| member | source | states |
|---|---|---|
| `Matrix.AccessorsFollowLayout` | src/matrix.ts:35-69 | each named accessor reads the logical position of the 3×3 layout: scaleX (0,0), skewX (0,1), transX (0,2), skewY (1,0), scaleY (1,1), transY (1,2), perSp0 (2,0), perSp1 (2,1), perSp2 (2,2) |
| `Matrix.Identity` | src/matrix.ts:25-33 | the identity has 1 on the logical diagonal, 0 elsewhere, and perspective row (0, 0, 1) |
| `Matrix.SetScale` | src/matrix.ts:77-81 | scaleX and scaleY become sx and sy; the other seven entries are unchanged |
| `Matrix.SetRotate` | src/matrix.ts:89-96 | indices 0, 1, 3, 4 become (c, s, -s, c); indices 2, 5, 6, 7, 8 are unchanged |
| `Matrix.PostTranslate` | src/matrix.ts:124-128 | transX and transY grow by dx and dy; all other entries are unchanged |
| `Matrix.TextbookMul` | src/matrix.ts:98-122 | reference: every logical entry (row, col) is row `row` of a times column `col` of b |
| `Matrix.Mul` | src/matrix.ts:98-122 | the eight entries other than perSp0 equal the textbook product; perSp0 is off by perSp1(a)·(scaleY(b) − skewY(b)) |
| `Matrix.Scale` | src/matrix.ts:71-75 | receiver·scale-delta: the x column is scaled by sx, the y column by sy, translation kept, perSp0 picks up perSp1·sy |
| `Matrix.Rotate` | src/matrix.ts:83-87 | receiver·rotation-delta: the 2×2 block is rotated by (c, s), translation kept, perSp0 picks up perSp1·c |
| `Matrix.MapFlatPairwise` | src/matrix.ts:137-143 | the pair-by-pair mapping keeps the length and sends pair k to mapPoint of pair k |
| `Matrix.MapPoints` | src/matrix.ts:130-145 | invalid argument iff the length is 0 or odd; otherwise same length and each pair replaced by its image |
| `Matrix.MapPointsInPlace` | src/matrix.ts:130-145 | the in-place loop: same error condition, the array untouched on error, otherwise the same array returned holding the mapped pairs |
| `Matrix.ToCanvasTransformParams` | src/matrix.ts:153-162 | the result is storage indices 0, 1, 3, 4, 6, 7 in that order: (scaleX, skewY, skewX, scaleY, transX, transY) |
| `MatrixLaws.IdentityMapsPointToItself` | src/matrix.ts:147-151 | mapPoint through the identity returns the point |
| `MatrixLaws.IdentityLeftUnit` | src/matrix.ts:98-122 | identity().mul(M) == M for every M |
| `MatrixLaws.IdentityRightUnitIff` | src/matrix.ts:114-115 | M.mul(identity()) == M exactly when perSp1(M) == 0 |
| `MatrixLaws.RightIdentityCounterexample` | src/matrix.ts:114-115 | a matrix with perSp1 = 1 times the identity gets perSp0 = 1, so it is not returned unchanged |
| `MatrixLaws.TextbookIdentityUnit` | src/matrix.ts:98-122 | the textbook product has the identity as a unit on both sides |
| `MatrixLaws.MulIsTextbookIff` | src/matrix.ts:98-122 | mul equals the textbook product iff perSp1(a)·scaleY(b) == perSp1(a)·skewY(b) |
| `MatrixLaws.MulIsTextbookWhenPerSp1Zero` | src/matrix.ts:114-115 | the two products agree whenever the left operand's perSp1 is 0 |
| `MatrixLaws.MulAffineIsComposition` | src/matrix.ts:98-122 | two matrices with perspective row (0, 0, 1) multiply to one with that row, and the top six entries compose as canvas transforms |
| `MatrixLaws.OperationsPreserveAffine` | src/matrix.ts:71-128 | setScale, setRotate, postTranslate, scale and rotate keep perspective row (0, 0, 1) |
| `MatrixLaws.AffineMulIsTextbook` | src/matrix.ts:98-122 | when the left operand has perspective row (0, 0, 1), as every matrix built by the class's own operations does, mul is the textbook product |
| `MatrixLaws.MapPointIsTopRows` | src/matrix.ts:147-151 | mapPoint applies the first two logical rows to (x, y, 1): x' = scaleX·x + skewX·y + transX, y' = skewY·x + scaleY·y + transY |
| `MatrixLaws.MapPointIgnoresPerspective` | src/matrix.ts:147-151 | mapPoint does no perspective divide: replacing perSp0, perSp1 and perSp2 by any values leaves every image unchanged |
| `MatrixLaws.MulMapPoint` | src/matrix.ts:98-151 | if b has perspective row (0, 0, 1), then a.mul(b).mapPoint(p) == a.mapPoint(b.mapPoint(p)) |
| `MatrixLaws.ScaleMapsPoint` | src/matrix.ts:71-81 | m.scale([sx, sy]) maps p like m maps (sx·x, sy·y) |
| `MatrixLaws.RotateMapsPoint` | src/matrix.ts:83-96 | m.rotate(rad) maps p like m maps (c·x − s·y, s·x + c·y) |
| `MatrixLaws.PostTranslateShiftsPoints` | src/matrix.ts:124-128 | after postTranslate(dx, dy) every mapped point is shifted by exactly (dx, dy) |
| `MatrixLaws.CanvasParamsMapLikeMatrix` | src/matrix.ts:153-162 | a canvas given toCanvasTransformParams() maps every point as mapPoint does |
| `Rect.Zero` | src/rectF.ts:44-46 | the no-argument rectangle has zero edges and zero size, and is not proper |
| `Rect.Copy` | src/rectF.ts:47-52 | the copy equals the original |
| `Rect.FromEdges` | src/rectF.ts:53-63 | the four-number form stores exactly the given edges, unvalidated |
| `Rect.LeftTop` | src/rectF.ts:66-68 | the corner (left, top); it is contained in the rectangle exactly when the rectangle is proper |
| `Rect.RightTop` | src/rectF.ts:70-72 | the corner (right, top); never contained, since contains excludes the right edge |
| `Rect.LeftBottom` | src/rectF.ts:74-76 | the corner (left, bottom); never contained, since contains excludes the bottom edge |
| `Rect.RightBottom` | src/rectF.ts:78-80 | the corner (right, bottom); never contained |
| `Rect.Width` | src/rectF.ts:82-84 | left + width == right, and width > 0 exactly when left < right |
| `Rect.Height` | src/rectF.ts:86-88 | top + height == bottom, and height > 0 exactly when top < bottom |
| `Rect.ToCanvasRect` | src/rectF.ts:205-212 | the result is (left, top, width, height) with width = right − left and height = bottom − top |
| `Rect.Equals` | src/rectF.ts:90-106 | equals is true iff all four edges are equal, which is value equality |
| `Rect.Intersects` | src/rectF.ts:109-116 | a point contained in both rectangles forces intersects to be true; when both are proper and they intersect, (max left, max top) is contained in both |
| `Rect.Contains` | src/rectF.ts:119-128 | contains(x, y) iff left ≤ x < right and top ≤ y < bottom; a true answer implies the rectangle is proper |
| `Rect.SeqMin` | src/rectF.ts:150-153 | Math.min over the list is an element of the list and at most every element |
| `Rect.SeqMax` | src/rectF.ts:150-153 | Math.max over the list is an element of the list and at least every element |
| `Rect.BoundingBox` | src/rectF.ts:142-153 | the edges built from the min and max of the xs and ys hold every point, and each edge touches a point |
| `Rect.MapAll` | src/rectF.ts:139-141 | the corner list is mapped element by element through mapPoint |
| `Rect.CornersAsWritten` | src/rectF.ts:135-138 | the corner list of mapRect: its first three entries are the true corners, its fourth is (left, bottom), and that equals the right-bottom corner only when left == right |
| `Rect.MapRect` | src/rectF.ts:134-155 | the result has left ≤ right and top ≤ bottom, and it is the bounding box of the images of (left,top), (right,top), (left,bottom), (left,bottom) |
| `Rect.MapRectFourCorners` | src/rectF.ts:134-155 | corrected mapRect: the bounding box of the images of all four true corners |
| `Rect.Union` | src/rectF.ts:174-201 | a non-proper argument is a no-op; a non-proper receiver becomes the argument; otherwise the result is (min left, min top, max right, max bottom) |
| `Rect.UnionRect` | src/rectF.ts:171-172 | union(rect) has the same three cases, stated on the rectangle's own edges |
| `RectLaws.PositiveSizeIffProper` | src/rectF.ts:82-88 | width > 0 and height > 0 exactly when left < right and top < bottom |
| `RectLaws.CanvasRectRoundTrip` | src/rectF.ts:205-212 | a canvas rect (x, y, w, h) spans back to (x, y, x + w, y + h), which is the original rectangle |
| `RectLaws.DegenerateContainsNothing` | src/rectF.ts:119-128 | a rectangle with left ≥ right or top ≥ bottom contains no point |
| `RectLaws.IntersectsSymmetric` | src/rectF.ts:109-116 | a.intersects(b) == b.intersects(a) |
| `RectLaws.SharedEdgeDoesNotIntersect` | src/rectF.ts:109-116 | rectangles that only share a vertical or horizontal edge do not intersect |
| `RectLaws.CommonPointIntersects` | src/rectF.ts:109-128 | a point contained in both rectangles makes them intersect |
| `RectLaws.ProperIntersectsIffCommonPoint` | src/rectF.ts:109-128 | two proper rectangles intersect iff some point is contained in both |
| `RectLaws.BoundingBoxUnique` | src/rectF.ts:142-153 | a point list has only one bounding box |
| `RectLaws.MapRectIdentity` | src/rectF.ts:134-155 | mapRect(identity) == (min(l, r), min(t, b), max(l, r), max(t, b)) |
| `RectLaws.MapRectIdentityOrdered` | src/rectF.ts:134-155 | a rectangle with ordered edges maps to itself under the identity |
| `RectLaws.MapRectNoSkewIsFourCorner` | src/rectF.ts:134-155 | with skewX = skewY = 0 the three-corner box equals the four-corner box |
| `RectLaws.MapRectFourCornersEnclosesImage` | src/rectF.ts:134-155 | the four-corner box encloses the image of every point of the closed rectangle |
| `RectLaws.MapRectMissesImage` | src/rectF.ts:138 | under the shear x' = x + y, mapRect of (0, 0, 1, 1) has right edge 1 but the corner (1, 1) maps to x' = 2 |
| `RectLaws.UnionIsProper` | src/rectF.ts:180-199 | after union with a proper argument the receiver is proper |
| `RectLaws.UnionContainsBoth` | src/rectF.ts:165-203 | after union with a proper argument, every point contained in the argument or the old receiver is contained |
| `RectLaws.UnionIdempotent` | src/rectF.ts:165-203 | repeating the same union changes nothing |
| `RectLaws.UnionIsLeast` | src/rectF.ts:174-201 | any rectangle containing every point of the receiver and of the argument contains every point of their union, for every pair of rectangles |

## Findings

| source | as written | input that shows it | evidently intended | confidence | as-written member | corrected member |
|---|---|---|---|---|---|---|
| src/matrix.ts:115 | perSp0 of the product is `this.perSp0 * m.scaleX + this.perSp1 * m.scaleY + this.perSp2 * m.perSp0` | M = identity with perSp1 = 1: M.mul(identity()) has perSp0 = 1 instead of 0 | `this.perSp1 * m.skewY`, row 3 of `this` times column 1 of `m` | high; not executed | `Matrix.Mul`, `MatrixLaws.RightIdentityCounterexample` | `Matrix.TextbookMul`, `MatrixLaws.TextbookIdentityUnit` |
| src/rectF.ts:138 | `rightBottom` is `[this.left, this.bottom]` | rect (0, 0, 1, 1) with scaleX = skewX = scaleY = 1: the corner (1, 1) maps to x' = 2 but the box's right edge is 1 | `[this.right, this.bottom]`, so the box holds the whole image | high; not executed | `Rect.MapRect`, `RectLaws.MapRectMissesImage` | `Rect.MapRectFourCorners`, `RectLaws.MapRectFourCornersEnclosesImage` |

`Scale`, `Rotate` and `MapRect` keep the code as written. `AffineMulIsTextbook`
shows where the first defect matters. Every matrix that the class's own
operations build has perspective row (0, 0, 1). On those matrices the product
as written equals the textbook product. The defect shows only after a caller
writes a non-zero perSp0 or perSp1 into the public `value` array. A non-zero
perSp0 is enough, because a later `rotate` moves it into perSp1. `MapRectNoSkewIsFourCorner`
shows the same for the second defect under scale and translate: the as-written
box is correct there and differs only under skew or rotation.

## Left out

- Floating point: arithmetic is over `real`. Rounding, NaN and infinities are not modelled, so the `!isNaN` part of `isNumber` (src/rectF.ts:20-22) always holds.
- `Math.cos` and `Math.sin` in `setRotate` are parameters `c` and `s`. Facts that need them, such as rotate(θ) then rotate(−θ) being close to the identity, are not stated.
- Runtime argument-shape checks are not modelled: `equals` on `null`, `undefined` or a non-rectangle object; constructor and `union` calls with some arguments missing or not numbers; a `value` array whose length is not 9. A matrix is always nine entries, and each construction form is its own function.
- Builder-style chaining (setters that return `this`) and aliasing between references are not modelled, because the updates are pure functions.
- `Math.min`/`Math.max` on an empty list: `mapRect` always passes four values, so `SeqMin`/`SeqMax` require a non-empty list.
- The DOMMatrix 4×4 layout in the comment at src/matrix.ts:12-18: no code uses it.
- scripts/build.js (bundling, command-line parsing, file output) is not part of this model.
