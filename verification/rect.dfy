/**
 The library's `RectF`: an axis-aligned rectangle given by its four edges,
 with no invariant between them. A rectangle is "proper" when
 left < right and top < bottom; `contains` and `union` treat every other
 rectangle as empty. `union` mutates its receiver in the class; here it is a
 function returning the updated rectangle.
 */
module Rect {
  import opened Matrix

  datatype RectF = RectF(left: real, top: real, right: real, bottom: real)

  /** The `[x, y, width, height]` tuple of `toCanvasRect()`. */
  datatype CanvasRect = CanvasRect(x: real, y: real, width: real, height: real)

  /** The non-empty test used by `contains` and `union`. */
  predicate IsProper(r: RectF)
  {
    r.left < r.right && r.top < r.bottom
  }

  function Min(a: real, b: real): real { if a <= b then a else b }
  function Max(a: real, b: real): real { if a <= b then b else a }

  // ---------------------------------------------------------------------
  // Construction
  // ---------------------------------------------------------------------

  /** `new RectF()`: all four edges zero, so not proper. */
  function Zero(): (r: RectF)
    ensures r.left == 0.0 && r.top == 0.0 && Width(r) == 0.0 && Height(r) == 0.0
    ensures !IsProper(r)
  {
    RectF(0.0, 0.0, 0.0, 0.0)
  }

  /** `new RectF(other)`: a rectangle equal to `other`. */
  function Copy(other: RectF): (r: RectF)
    ensures Equals(r, other)
  {
    RectF(other.left, other.top, other.right, other.bottom)
  }

  /** `new RectF(left, top, right, bottom)`: stores the edges unvalidated. */
  function FromEdges(left: real, top: real, right: real, bottom: real): (r: RectF)
    ensures r.left == left && r.top == top && r.right == right && r.bottom == bottom
  {
    RectF(left, top, right, bottom)
  }

  // ---------------------------------------------------------------------
  // Derived values
  // ---------------------------------------------------------------------

  // The corner getters. Only the left-top corner lies in the half-open box
  // that `contains` tests, and it does exactly when the rectangle is proper.

  function LeftTop(r: RectF): (p: Point)
    ensures p.0 == r.left && p.1 == r.top
    ensures Contains(r, p.0, p.1) <==> IsProper(r)
  {
    (r.left, r.top)
  }

  function RightTop(r: RectF): (p: Point)
    ensures p.0 == r.right && p.1 == r.top
    ensures !Contains(r, p.0, p.1)
  {
    (r.right, r.top)
  }

  function LeftBottom(r: RectF): (p: Point)
    ensures p.0 == r.left && p.1 == r.bottom
    ensures !Contains(r, p.0, p.1)
  {
    (r.left, r.bottom)
  }

  function RightBottom(r: RectF): (p: Point)
    ensures p.0 == r.right && p.1 == r.bottom
    ensures !Contains(r, p.0, p.1)
  {
    (r.right, r.bottom)
  }

  /** The horizontal extent: positive exactly when left < right. */
  function Width(r: RectF): (w: real)
    ensures r.left + w == r.right
    ensures w > 0.0 <==> r.left < r.right
  {
    r.right - r.left
  }

  /** The vertical extent: positive exactly when top < bottom. */
  function Height(r: RectF): (h: real)
    ensures r.top + h == r.bottom
    ensures h > 0.0 <==> r.top < r.bottom
  {
    r.bottom - r.top
  }

  /** `toCanvasRect()`: the left-top corner followed by width and height. */
  function ToCanvasRect(r: RectF): (c: CanvasRect)
    ensures c.x == r.left && c.y == r.top
    ensures c.width == Width(r) && c.height == Height(r)
  {
    CanvasRect(r.left, r.top, r.right - r.left, r.bottom - r.top)
  }

  /** The rectangle a canvas draws for `rect(x, y, width, height)`. */
  function FromCanvasRect(c: CanvasRect): RectF
  {
    RectF(c.x, c.y, c.x + c.width, c.y + c.height)
  }

  // ---------------------------------------------------------------------
  // Predicates
  // ---------------------------------------------------------------------

  /** `equals`: all four edges equal, which is equality of the values. */
  function Equals(a: RectF, b: RectF): (e: bool)
    ensures e <==> a == b
  {
    a.left == b.left && a.top == b.top && a.right == b.right && a.bottom == b.bottom
  }

  /** `intersects(left, top, right, bottom)`: overlap on both axes, by strict comparisons. */
  function Intersects(r: RectF, left: real, top: real, right: real, bottom: real): (b: bool)
    ensures b && IsProper(r) && left < right && top < bottom
            ==> var x, y := Max(r.left, left), Max(r.top, top);
                Contains(r, x, y) && Contains(RectF(left, top, right, bottom), x, y)
    ensures (exists x: real, y: real :: Contains(r, x, y) && Contains(RectF(left, top, right, bottom), x, y)) ==> b
  {
    r.left < right && left < r.right && r.top < bottom && top < r.bottom
  }

  /** `contains(x, y)`: the point lies in the half-open box [left, right) x [top, bottom). */
  function Contains(r: RectF, x: real, y: real): (c: bool)
    ensures c <==> r.left <= x < r.right && r.top <= y < r.bottom
    ensures c ==> IsProper(r)
  {
    r.left < r.right && r.top < r.bottom && x >= r.left && x < r.right && y >= r.top && y < r.bottom
  }

  // ---------------------------------------------------------------------
  // Bounding boxes and mapRect
  // ---------------------------------------------------------------------

  /** `Math.min` over a non-empty list. */
  function SeqMin(xs: seq<real>): (r: real)
    requires |xs| > 0
    ensures r in xs
    ensures forall i | 0 <= i < |xs| :: r <= xs[i]
  {
    if |xs| == 1 then xs[0] else Min(xs[0], SeqMin(xs[1..]))
  }

  /** `Math.max` over a non-empty list. */
  function SeqMax(xs: seq<real>): (r: real)
    requires |xs| > 0
    ensures r in xs
    ensures forall i | 0 <= i < |xs| :: xs[i] <= r
  {
    if |xs| == 1 then xs[0] else Max(xs[0], SeqMax(xs[1..]))
  }

  function Xs(pts: seq<Point>): (xs: seq<real>)
    ensures |xs| == |pts| && forall i | 0 <= i < |pts| :: xs[i] == pts[i].0
  {
    seq(|pts|, i requires 0 <= i < |pts| => pts[i].0)
  }

  function Ys(pts: seq<Point>): (ys: seq<real>)
    ensures |ys| == |pts| && forall i | 0 <= i < |pts| :: ys[i] == pts[i].1
  {
    seq(|pts|, i requires 0 <= i < |pts| => pts[i].1)
  }

  /** `q` lies in the closed box spanned by `box`. */
  predicate Encloses(box: RectF, q: Point)
  {
    box.left <= q.0 <= box.right && box.top <= q.1 <= box.bottom
  }

  /** `box` is the smallest closed box holding `pts`: it holds them all and every edge touches one. */
  predicate IsBoundingBox(box: RectF, pts: seq<Point>)
  {
    && (forall i | 0 <= i < |pts| :: Encloses(box, pts[i]))
    && box.left in Xs(pts) && box.right in Xs(pts)
    && box.top in Ys(pts) && box.bottom in Ys(pts)
  }

  /** The min/max of the xs and ys of a non-empty point list. */
  function BoundingBox(pts: seq<Point>): (box: RectF)
    requires |pts| > 0
    ensures IsBoundingBox(box, pts)
  {
    var xs, ys := Xs(pts), Ys(pts);
    RectF(SeqMin(xs), SeqMin(ys), SeqMax(xs), SeqMax(ys))
  }

  /** Each point mapped through `m`. */
  function MapAll(m: Mat, pts: seq<Point>): (qs: seq<Point>)
    ensures |qs| == |pts| && forall i | 0 <= i < |pts| :: qs[i] == MapPoint(m, pts[i])
  {
    seq(|pts|, i requires 0 <= i < |pts| => MapPoint(m, pts[i]))
  }

  /** The corner list `mapRect` builds: its fourth entry repeats (left, bottom). */
  function CornersAsWritten(r: RectF): (c: seq<Point>)
    ensures |c| == 4 && c[..3] == Corners(r)[..3] && c[3] == LeftBottom(r)
    ensures c[3] == RightBottom(r) <==> r.left == r.right
  {
    [LeftTop(r), RightTop(r), LeftBottom(r), (r.left, r.bottom)]
  }

  /** The four true corners. */
  function Corners(r: RectF): seq<Point>
  {
    [LeftTop(r), RightTop(r), LeftBottom(r), RightBottom(r)]
  }

  /**
   `mapRect` as written: the bounding box of the images of (left, top),
   (right, top), (left, bottom) and (left, bottom) again. The image of the
   true right-bottom corner is never considered.
   */
  function MapRect(r: RectF, m: Mat): (res: RectF)
    ensures res.left <= res.right && res.top <= res.bottom
    ensures IsBoundingBox(res, MapAll(m, CornersAsWritten(r)))
  {
    BoundingBox(MapAll(m, CornersAsWritten(r)))
  }

  /** `mapRect` with the right-bottom corner as intended: the box of all four corner images. */
  function MapRectFourCorners(r: RectF, m: Mat): (res: RectF)
    ensures res.left <= res.right && res.top <= res.bottom
    ensures IsBoundingBox(res, MapAll(m, Corners(r)))
  {
    BoundingBox(MapAll(m, Corners(r)))
  }

  // ---------------------------------------------------------------------
  // union
  // ---------------------------------------------------------------------

  /**
   `union(left, top, right, bottom)`: a non-proper argument changes nothing;
   a non-proper receiver is replaced by the argument; otherwise each edge
   moves outwards only.
   */
  function Union(r: RectF, left: real, top: real, right: real, bottom: real): (u: RectF)
    ensures !(left < right && top < bottom) ==> u == r
    ensures left < right && top < bottom && !IsProper(r) ==> u == RectF(left, top, right, bottom)
    ensures left < right && top < bottom && IsProper(r)
            ==> u == RectF(Min(r.left, left), Min(r.top, top), Max(r.right, right), Max(r.bottom, bottom))
  {
    if left < right && top < bottom then
      if r.left < r.right && r.top < r.bottom then
        RectF(if r.left > left then left else r.left,
              if r.top > top then top else r.top,
              if r.right < right then right else r.right,
              if r.bottom < bottom then bottom else r.bottom)
      else
        RectF(left, top, right, bottom)
    else
      r
  }

  /** `union(rect)`: forwards the rectangle's four edges to the four-number form. */
  function UnionRect(r: RectF, other: RectF): (u: RectF)
    ensures !IsProper(other) ==> u == r
    ensures IsProper(other) && !IsProper(r) ==> u == other
    ensures IsProper(other) && IsProper(r)
            ==> u == RectF(Min(r.left, other.left), Min(r.top, other.top),
                           Max(r.right, other.right), Max(r.bottom, other.bottom))
  {
    Union(r, other.left, other.top, other.right, other.bottom)
  }
}
