/** The world bounding box of a transformed local box, over the reals. */
module BoundingBox {

  datatype Point = Point(x: real, y: real, z: real)

  datatype Box = Box(lo: Point, hi: Point)

  /** Row-major four by four; points multiply as row vectors. */
  type Matrix = m: seq<real> | |m| == 16 witness seq(16, _ => 0.0)

  predicate InBox(b: Box, p: Point) {
    b.lo.x <= p.x <= b.hi.x && b.lo.y <= p.y <= b.hi.y && b.lo.z <= p.z <= b.hi.z
  }

  function Column(m: Matrix, c: nat, p: Point): real
    requires c < 4
  {
    p.x * m[c] + p.y * m[4 + c] + p.z * m[8 + c] + m[12 + c]
  }

  function Image(m: Matrix, p: Point): Point
    requires Column(m, 3, p) != 0.0
  {
    var w := Column(m, 3, p);
    Point(Column(m, 0, p) / w, Column(m, 1, p) / w, Column(m, 2, p) / w)
  }

  predicate Affine(m: Matrix) {
    m[3] == 0.0 && m[7] == 0.0 && m[11] == 0.0 && m[15] == 1.0
  }

  function End(lo: real, hi: real, i: nat): real {
    if i == 0 then lo else hi
  }

  function Corner(v: Box, i: nat, j: nat, k: nat): Point {
    Point(End(v.lo.x, v.hi.x, i), End(v.lo.y, v.hi.y, j), End(v.lo.z, v.hi.z, k))
  }

  function Axis(c: nat, p: Point): real
    requires c < 3
  {
    if c == 0 then p.x else if c == 1 then p.y else p.z
  }

  /** The corners, numbered with the third coordinate fastest; a corner whose weight is zero is skipped. */
  predicate Usable(v: Box, m: Matrix, i: nat, j: nat, k: nat) {
    i < 2 && j < 2 && k < 2 && Column(m, 3, Corner(v, i, j, k)) != 0.0
  }

  function CornerImage(v: Box, m: Matrix, i: nat, j: nat, k: nat): Point
    requires Usable(v, m, i, j, k)
  {
    Image(m, Corner(v, i, j, k))
  }

  /** Some usable corner has an image with this coordinate. */
  predicate Touches(v: Box, m: Matrix, c: nat, r: real)
    requires c < 3
  {
    exists i, j, k :: 0 <= i < 2 && 0 <= j < 2 && 0 <= k < 2 && Usable(v, m, i, j, k)
                      && Axis(c, CornerImage(v, m, i, j, k)) == r
  }

  /** The box holds the images of all usable corners, and each of its faces touches one of them. */
  predicate Tight(v: Box, m: Matrix, b: Box) {
    && (forall i, j, k :: 0 <= i < 2 && 0 <= j < 2 && 0 <= k < 2 && Usable(v, m, i, j, k) ==>
          InBox(b, CornerImage(v, m, i, j, k)))
    && (forall c :: 0 <= c < 3 ==> Touches(v, m, c, Axis(c, b.lo)) && Touches(v, m, c, Axis(c, b.hi)))
  }

  function MinOf(s: seq<real>): (r: real)
    requires s != []
    ensures r in s && forall i :: 0 <= i < |s| ==> r <= s[i]
  {
    if |s| == 1 then s[0] else
    var r := MinOf(s[..|s| - 1]);
    assert s == s[..|s| - 1] + [s[|s| - 1]];
    if s[|s| - 1] < r then s[|s| - 1] else r
  }

  function MaxOf(s: seq<real>): (r: real)
    requires s != []
    ensures r in s && forall i :: 0 <= i < |s| ==> s[i] <= r
  {
    if |s| == 1 then s[0] else
    var r := MaxOf(s[..|s| - 1]);
    assert s == s[..|s| - 1] + [s[|s| - 1]];
    if s[|s| - 1] > r then s[|s| - 1] else r
  }

  ghost predicate IsImage(v: Box, m: Matrix, q: Point) {
    exists i, j, k :: 0 <= i < 2 && 0 <= j < 2 && 0 <= k < 2 && Usable(v, m, i, j, k) && CornerImage(v, m, i, j, k) == q
  }

  /** The lists hold the images of the usable corners before number `n`, and of no others. */
  ghost predicate Collected(v: Box, m: Matrix, n: nat, xs: seq<real>, ys: seq<real>, zs: seq<real>) {
    && |xs| == |ys| == |zs|
    && (forall x :: 0 <= x < |xs| ==> IsImage(v, m, Point(xs[x], ys[x], zs[x])))
    && (forall i, j, k :: 0 <= i < 2 && 0 <= j < 2 && 0 <= k < 2 && Usable(v, m, i, j, k) && 4 * i + 2 * j + k < n ==>
          exists x :: 0 <= x < |xs| && CornerImage(v, m, i, j, k) == Point(xs[x], ys[x], zs[x]))
  }

  lemma SkipCorner(v: Box, m: Matrix, i: nat, j: nat, k: nat, xs: seq<real>, ys: seq<real>, zs: seq<real>)
    requires i < 2 && j < 2 && k < 2 && !Usable(v, m, i, j, k)
    requires Collected(v, m, 4 * i + 2 * j + k, xs, ys, zs)
    ensures Collected(v, m, 4 * i + 2 * j + k + 1, xs, ys, zs)
  {
    hide Usable, CornerImage;
    forall a, b, c | 0 <= a < 2 && 0 <= b < 2 && 0 <= c < 2 && Usable(v, m, a, b, c)
                     && 4 * a + 2 * b + c < 4 * i + 2 * j + k + 1
      ensures exists x :: 0 <= x < |xs| && CornerImage(v, m, a, b, c) == Point(xs[x], ys[x], zs[x])
    {
      SameNumber(a, b, c, i, j, k);
      assert (a, b, c) != (i, j, k);
    }
  }

  lemma SameNumber(a: nat, b: nat, c: nat, i: nat, j: nat, k: nat)
    requires a < 2 && b < 2 && c < 2 && i < 2 && j < 2 && k < 2
    ensures 4 * a + 2 * b + c == 4 * i + 2 * j + k ==> (a, b, c) == (i, j, k)
  {
  }

  lemma AddCorner(v: Box, m: Matrix, i: nat, j: nat, k: nat, xs: seq<real>, ys: seq<real>, zs: seq<real>)
    requires i < 2 && j < 2 && k < 2 && Usable(v, m, i, j, k)
    requires Collected(v, m, 4 * i + 2 * j + k, xs, ys, zs)
    ensures var q := CornerImage(v, m, i, j, k);
            Collected(v, m, 4 * i + 2 * j + k + 1, xs + [q.x], ys + [q.y], zs + [q.z])
  {
    hide Usable, CornerImage;
    var q := CornerImage(v, m, i, j, k);
    assert IsImage(v, m, q);
    var xs', ys', zs' := xs + [q.x], ys + [q.y], zs + [q.z];
    forall a, b, c | 0 <= a < 2 && 0 <= b < 2 && 0 <= c < 2 && Usable(v, m, a, b, c)
                     && 4 * a + 2 * b + c < 4 * i + 2 * j + k + 1
      ensures exists x :: 0 <= x < |xs'| && CornerImage(v, m, a, b, c) == Point(xs'[x], ys'[x], zs'[x])
    {
      if 4 * a + 2 * b + c < 4 * i + 2 * j + k {
        var x :| 0 <= x < |xs| && CornerImage(v, m, a, b, c) == Point(xs[x], ys[x], zs[x]);
        assert xs'[x] == xs[x] && ys'[x] == ys[x] && zs'[x] == zs[x];
      } else {
        assert a == i && b == j && c == k;
        assert xs'[|xs|] == q.x && ys'[|xs|] == q.y && zs'[|xs|] == q.z;
      }
    }
  }

  lemma FoundAt(v: Box, m: Matrix, xs: seq<real>, ys: seq<real>, zs: seq<real>, c: nat, s: seq<real>, r: real)
    requires Collected(v, m, 8, xs, ys, zs) && c < 3 && r in s
    requires s == if c == 0 then xs else if c == 1 then ys else zs
    ensures Touches(v, m, c, r)
  {
    hide Usable, CornerImage;
    var x :| 0 <= x < |s| && s[x] == r;
    assert IsImage(v, m, Point(xs[x], ys[x], zs[x]));
    var i, j, k :| 0 <= i < 2 && 0 <= j < 2 && 0 <= k < 2 && Usable(v, m, i, j, k)
                   && CornerImage(v, m, i, j, k) == Point(xs[x], ys[x], zs[x]);
    assert Axis(c, CornerImage(v, m, i, j, k)) == r;
  }

  lemma SameLength(v: Box, m: Matrix, xs: seq<real>, ys: seq<real>, zs: seq<real>)
    requires Collected(v, m, 8, xs, ys, zs)
    ensures |xs| == |ys| == |zs|
  {
  }

  lemma AllBounded(v: Box, m: Matrix, xs: seq<real>, ys: seq<real>, zs: seq<real>)
    requires Collected(v, m, 8, xs, ys, zs) && xs != []
    ensures forall i, j, k :: 0 <= i < 2 && 0 <= j < 2 && 0 <= k < 2 && Usable(v, m, i, j, k) ==>
              InBox(Box(Point(MinOf(xs), MinOf(ys), MinOf(zs)), Point(MaxOf(xs), MaxOf(ys), MaxOf(zs))),
                    CornerImage(v, m, i, j, k))
  {
    hide Usable, CornerImage;
    forall i, j, k | 0 <= i < 2 && 0 <= j < 2 && 0 <= k < 2 && Usable(v, m, i, j, k)
      ensures InBox(Box(Point(MinOf(xs), MinOf(ys), MinOf(zs)), Point(MaxOf(xs), MaxOf(ys), MaxOf(zs))),
                    CornerImage(v, m, i, j, k))
    {
      var x :| 0 <= x < |xs| && CornerImage(v, m, i, j, k) == Point(xs[x], ys[x], zs[x]);
    }
  }

  lemma TightOf(v: Box, m: Matrix, xs: seq<real>, ys: seq<real>, zs: seq<real>)
    requires Collected(v, m, 8, xs, ys, zs) && xs != []
    ensures Tight(v, m, Box(Point(MinOf(xs), MinOf(ys), MinOf(zs)), Point(MaxOf(xs), MaxOf(ys), MaxOf(zs))))
  {
    hide Touches, Usable, CornerImage, Collected, InBox;
    AllBounded(v, m, xs, ys, zs);
    SameLength(v, m, xs, ys, zs);
    FoundAt(v, m, xs, ys, zs, 0, xs, MinOf(xs));
    FoundAt(v, m, xs, ys, zs, 0, xs, MaxOf(xs));
    FoundAt(v, m, xs, ys, zs, 1, ys, MinOf(ys));
    FoundAt(v, m, xs, ys, zs, 1, ys, MaxOf(ys));
    FoundAt(v, m, xs, ys, zs, 2, zs, MinOf(zs));
    FoundAt(v, m, xs, ys, zs, 2, zs, MaxOf(zs));
  }

  predicate NoneUsable(v: Box, m: Matrix) {
    forall i, j, k :: 0 <= i < 2 && 0 <= j < 2 && 0 <= k < 2 ==> !Usable(v, m, i, j, k)
  }

  /** Transforms the eight corners and bounds them again; without a usable corner the input is the answer. */
  method TransformBox(v: Box, m: Matrix) returns (b: Box)
    ensures if NoneUsable(v, m) then b == v else Tight(v, m, b)
  {
    hide Collected;
    var xs: seq<real>, ys: seq<real>, zs: seq<real> := [], [], [];
    NothingCollected(v, m);
    for i := 0 to 2
      invariant Collected(v, m, 4 * i, xs, ys, zs)
    {
      for j := 0 to 2
        invariant Collected(v, m, 4 * i + 2 * j, xs, ys, zs)
      {
        for k := 0 to 2
          invariant Collected(v, m, 4 * i + 2 * j + k, xs, ys, zs)
        {
          var c := Corner(v, i, j, k);
          var w := Column(m, 3, c);
          if w == 0.0 {
            SkipCorner(v, m, i, j, k, xs, ys, zs);
          } else {
            AddCorner(v, m, i, j, k, xs, ys, zs);
            xs, ys, zs := xs + [Column(m, 0, c) / w], ys + [Column(m, 1, c) / w], zs + [Column(m, 2, c) / w];
          }
        }
      }
    }
    EmptyIff(v, m, xs, ys, zs);
    if xs == [] {
      b := v;
    } else {
      TightOf(v, m, xs, ys, zs);
      b := Box(Point(MinOf(xs), MinOf(ys), MinOf(zs)), Point(MaxOf(xs), MaxOf(ys), MaxOf(zs)));
    }
  }

  lemma NothingCollected(v: Box, m: Matrix)
    ensures Collected(v, m, 0, [], [], [])
  {
  }

  lemma EmptyIff(v: Box, m: Matrix, xs: seq<real>, ys: seq<real>, zs: seq<real>)
    requires Collected(v, m, 8, xs, ys, zs)
    ensures xs == [] <==> NoneUsable(v, m)
    ensures |xs| == |ys| == |zs|
  {
    hide Usable, CornerImage;
    if xs != [] {
      assert IsImage(v, m, Point(xs[0], ys[0], zs[0]));
      var i, j, k :| 0 <= i < 2 && 0 <= j < 2 && 0 <= k < 2 && Usable(v, m, i, j, k)
                     && CornerImage(v, m, i, j, k) == Point(xs[0], ys[0], zs[0]);
    }
  }

  // ---- affine matrices ---------------------------------------------------

  lemma AffineWeight(m: Matrix, p: Point)
    requires Affine(m)
    ensures Column(m, 3, p) == 1.0
    ensures Image(m, p) == Point(Column(m, 0, p), Column(m, 1, p), Column(m, 2, p))
  {
  }

  /** The end of the interval where a line of slope `a` is lowest. */
  function Low(a: real): (i: nat)
    ensures i < 2
  {
    if a >= 0.0 then 0 else 1
  }

  lemma LineEnds(a: real, lo: real, x: real, hi: real)
    requires lo <= x <= hi
    ensures End(lo, hi, Low(a)) * a <= x * a <= End(lo, hi, 1 - Low(a)) * a
  {
    if a >= 0.0 {
      assert (x - lo) * a >= 0.0 && (hi - x) * a >= 0.0;
    } else {
      assert (x - lo) * a <= 0.0 && (hi - x) * a <= 0.0;
    }
  }

  lemma ColumnLe(m: Matrix, c: nat, p: Point, q: Point)
    requires c < 3
    ensures p.x * m[c] <= q.x * m[c] && p.y * m[4 + c] <= q.y * m[4 + c] && p.z * m[8 + c] <= q.z * m[8 + c] ==>
              Column(m, c, p) <= Column(m, c, q)
  {
  }

  /** The image of a point lies between those of two corners, in each coordinate. */
  lemma CornersAround(v: Box, m: Matrix, c: nat, p: Point)
    requires c < 3 && InBox(v, p)
    ensures Column(m, c, Corner(v, Low(m[c]), Low(m[4 + c]), Low(m[8 + c]))) <= Column(m, c, p)
    ensures Column(m, c, p) <= Column(m, c, Corner(v, 1 - Low(m[c]), 1 - Low(m[4 + c]), 1 - Low(m[8 + c])))
  {
    hide End, Low, Column;
    var lo, hi := Corner(v, Low(m[c]), Low(m[4 + c]), Low(m[8 + c])),
                  Corner(v, 1 - Low(m[c]), 1 - Low(m[4 + c]), 1 - Low(m[8 + c]));
    ColumnLe(m, c, lo, p);
    ColumnLe(m, c, p, hi);
    LineEnds(m[c], v.lo.x, p.x, v.hi.x);
    LineEnds(m[4 + c], v.lo.y, p.y, v.hi.y);
    LineEnds(m[8 + c], v.lo.z, p.z, v.hi.z);
  }

  predicate Ordered(v: Box) {
    v.lo.x <= v.hi.x && v.lo.y <= v.hi.y && v.lo.z <= v.hi.z
  }

  /** The transformed box contains the image of every point of the box. */
  lemma ContainsImages(v: Box, m: Matrix, b: Box, p: Point)
    requires Affine(m) && Tight(v, m, b) && InBox(v, p)
    ensures Column(m, 3, p) != 0.0 && InBox(b, Image(m, p))
  {
    hide Tight, Column, InBox;
    AffineWeight(m, p);
    AxisInside(v, m, b, p, 0);
    AxisInside(v, m, b, p, 1);
    AxisInside(v, m, b, p, 2);
    InsideByAxis(m, b, p);
  }

  lemma InsideByAxis(m: Matrix, b: Box, p: Point)
    requires Axis(0, b.lo) <= Column(m, 0, p) <= Axis(0, b.hi)
    requires Axis(1, b.lo) <= Column(m, 1, p) <= Axis(1, b.hi)
    requires Axis(2, b.lo) <= Column(m, 2, p) <= Axis(2, b.hi)
    ensures InBox(b, Point(Column(m, 0, p), Column(m, 1, p), Column(m, 2, p)))
  {
  }

  lemma AxisInside(v: Box, m: Matrix, b: Box, p: Point, c: nat)
    requires Affine(m) && Tight(v, m, b) && InBox(v, p) && c < 3
    ensures Axis(c, b.lo) <= Column(m, c, p) <= Axis(c, b.hi)
  {
    hide Column, Tight;
    CornersAround(v, m, c, p);
    CornerInside(v, m, b, c, Low(m[c]), Low(m[4 + c]), Low(m[8 + c]));
    CornerInside(v, m, b, c, 1 - Low(m[c]), 1 - Low(m[4 + c]), 1 - Low(m[8 + c]));
  }

  lemma CornerInside(v: Box, m: Matrix, b: Box, c: nat, i: nat, j: nat, k: nat)
    requires Affine(m) && Tight(v, m, b) && i < 2 && j < 2 && k < 2 && c < 3
    ensures Axis(c, b.lo) <= Column(m, c, Corner(v, i, j, k)) <= Axis(c, b.hi)
  {
    hide Column;
    AffineWeight(m, Corner(v, i, j, k));
    assert Usable(v, m, i, j, k);
    assert InBox(b, CornerImage(v, m, i, j, k));
  }

  /** Each face is reached by the image of a point of the box: no smaller box would do. */
  lemma LeastBox(v: Box, m: Matrix, b: Box, other: Box)
    requires Affine(m) && Ordered(v) && Tight(v, m, b)
    requires forall p :: InBox(v, p) ==> Column(m, 3, p) != 0.0 && InBox(other, Image(m, p))
    ensures other.lo.x <= b.lo.x && other.lo.y <= b.lo.y && other.lo.z <= b.lo.z
    ensures b.hi.x <= other.hi.x && b.hi.y <= other.hi.y && b.hi.z <= other.hi.z
  {
    hide Column, Touches, Usable;
    FaceInside(v, m, other, 0, Axis(0, b.lo));
    FaceInside(v, m, other, 0, Axis(0, b.hi));
    FaceInside(v, m, other, 1, Axis(1, b.lo));
    FaceInside(v, m, other, 1, Axis(1, b.hi));
    FaceInside(v, m, other, 2, Axis(2, b.lo));
    FaceInside(v, m, other, 2, Axis(2, b.hi));
  }

  lemma FaceInside(v: Box, m: Matrix, other: Box, c: nat, r: real)
    requires c < 3 && Touches(v, m, c, r) && Ordered(v)
    requires forall p :: InBox(v, p) ==> Column(m, 3, p) != 0.0 && InBox(other, Image(m, p))
    ensures Axis(c, other.lo) <= r <= Axis(c, other.hi)
  {
    hide Column;
    var i, j, k :| 0 <= i < 2 && 0 <= j < 2 && 0 <= k < 2 && Usable(v, m, i, j, k)
                   && Axis(c, CornerImage(v, m, i, j, k)) == r;
    assert InBox(v, Corner(v, i, j, k));
  }
}
