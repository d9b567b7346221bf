/**
 * Index triples of the potential-array grid, the 27-cell neighbourhood
 * generator and the numeric conversions Python applies to grid values
 * (`int()` on a float, `math.ceil`).
 */
module Points {

  /** A grid index (i, j, k); indices may be negative after mirroring. */
  type Point = (int, int, int)

  /** A point of space (x, y, z), or (r, theta, z) in the cylindrical traps. */
  type Vec = (real, real, real)

  /** The decimal that numpy prints for `numpy.pi`. */
  const Pi: real := 3.141592653589793

  function Abs(n: int): (r: nat)
    ensures r == n || r == -n
  {
    if n < 0 then -n else n
  }

  /** The index read from the stored one-eighth of space: `(abs(i), abs(j), abs(k))`. */
  function Mirror(p: Point): (r: Point)
    ensures r.0 >= 0 && r.1 >= 0 && r.2 >= 0
    ensures r.0 == Abs(p.0) && r.1 == Abs(p.1) && r.2 == Abs(p.2)
  {
    (Abs(p.0), Abs(p.1), Abs(p.2))
  }

  /** Two indices differ by at most one along every axis (a point is adjacent to itself). */
  predicate Adjacent(p: Point, q: Point)
  {
    -1 <= q.0 - p.0 <= 1 && -1 <= q.1 - p.1 <= 1 && -1 <= q.2 - p.2 <= 1
  }

  lemma AdjacentSymmetric(p: Point, q: Point)
    requires Adjacent(p, q)
    ensures Adjacent(q, p)
  {
  }

  // ---------------------------------------------------------------------
  // _gen_near_coords: three nested loops over `directions`, yielding
  // (i+i1, j+j1, k+k1) when `delta` holds and (i*i1, j*j1, k*k1) otherwise.
  // ---------------------------------------------------------------------

  function Combine(p: Point, a: int, b: int, c: int, delta: bool): Point
  {
    if delta then (p.0 + a, p.1 + b, p.2 + c) else (p.0 * a, p.1 * b, p.2 * c)
  }

  /** The innermost loop: `k1` runs over `ks`. */
  function NearInner(p: Point, a: int, b: int, ks: seq<int>, delta: bool): (r: seq<Point>)
    ensures |r| == |ks|
    ensures forall n :: 0 <= n < |ks| ==> r[n] == Combine(p, a, b, ks[n], delta)
  {
    seq(|ks|, n requires 0 <= n < |ks| => Combine(p, a, b, ks[n], delta))
  }

  /** The middle loop: `j1` runs over `js`. */
  function NearMiddle(p: Point, a: int, js: seq<int>, ks: seq<int>, delta: bool): (r: seq<Point>)
    ensures |r| == |js| * |ks|
  {
    if js == [] then []
    else NearInner(p, a, js[0], ks, delta) + NearMiddle(p, a, js[1..], ks, delta)
  }

  /** The outer loop: `i1` runs over `offsets`. */
  function NearOuter(p: Point, offsets: seq<int>, js: seq<int>, ks: seq<int>, delta: bool): (r: seq<Point>)
    ensures |r| == |offsets| * (|js| * |ks|)
  {
    if offsets == [] then []
    else NearMiddle(p, offsets[0], js, ks, delta) + NearOuter(p, offsets[1..], js, ks, delta)
  }

  /** `_gen_near_coords(i, j, k, directions, delta)` as the sequence it yields. */
  function NearCoords(p: Point, directions: seq<int>, delta: bool): (r: seq<Point>)
    ensures |r| == |directions| * (|directions| * |directions|)
  {
    NearOuter(p, directions, directions, directions, delta)
  }

  lemma {:induction false} NearMiddleMembers(p: Point, a: int, js: seq<int>, ks: seq<int>, delta: bool, q: Point)
    ensures q in NearMiddle(p, a, js, ks, delta) <==>
      exists b, c :: b in js && c in ks && q == Combine(p, a, b, c, delta)
    decreases |js|
  {
    if js != [] {
      NearMiddleMembers(p, a, js[1..], ks, delta, q);
      var inner := NearInner(p, a, js[0], ks, delta);
      if q in inner {
        var n :| 0 <= n < |ks| && inner[n] == q;
        assert js[0] in js && ks[n] in ks && q == Combine(p, a, js[0], ks[n], delta);
      }
      if exists b, c :: b in js && c in ks && q == Combine(p, a, b, c, delta) {
        var b, c :| b in js && c in ks && q == Combine(p, a, b, c, delta);
        if b == js[0] {
          var n :| 0 <= n < |ks| && ks[n] == c;
          assert inner[n] == q;
        } else {
          assert b in js[1..];
        }
      }
    }
  }

  lemma {:induction false} NearOuterMembers(p: Point, offsets: seq<int>, js: seq<int>, ks: seq<int>, delta: bool, q: Point)
    ensures q in NearOuter(p, offsets, js, ks, delta) <==>
      exists a, b, c :: a in offsets && b in js && c in ks && q == Combine(p, a, b, c, delta)
    decreases |offsets|
  {
    if offsets != [] {
      NearOuterMembers(p, offsets[1..], js, ks, delta, q);
      NearMiddleMembers(p, offsets[0], js, ks, delta, q);
      if exists a, b, c :: a in offsets && b in js && c in ks && q == Combine(p, a, b, c, delta) {
        var a, b, c :| a in offsets && b in js && c in ks && q == Combine(p, a, b, c, delta);
        if a != offsets[0] {
          assert a in offsets[1..];
        }
      }
    }
  }

  /** Every yielded triple combines the point with one choice of direction per axis, and every such choice is yielded. */
  lemma NearCoordsMembers(p: Point, directions: seq<int>, delta: bool, q: Point)
    ensures q in NearCoords(p, directions, delta) <==>
      exists a, b, c :: a in directions && b in directions && c in directions && q == Combine(p, a, b, c, delta)
  {
    NearOuterMembers(p, directions, directions, directions, delta, q);
  }

  /** The 27 offsets {-1, 0, 1}^3 around a point. */
  function Neighbourhood(p: Point): (r: seq<Point>)
    ensures |r| == 27
  {
    NearCoords(p, [-1, 0, 1], true)
  }

  /** With offsets {-1, 0, 1} and `delta`, the generator yields exactly the adjacent cells, the point itself included. */
  lemma NeighbourhoodIsAdjacency(p: Point, q: Point)
    ensures q in Neighbourhood(p) <==> Adjacent(p, q)
  {
    NearCoordsMembers(p, [-1, 0, 1], true, q);
    if Adjacent(p, q) {
      var a, b, c := q.0 - p.0, q.1 - p.1, q.2 - p.2;
      assert a in [-1, 0, 1] && b in [-1, 0, 1] && c in [-1, 0, 1];
      assert q == Combine(p, a, b, c, true);
    }
  }

  /** With offsets {-1, 1} and no `delta`, the generator yields the eight sign flips of the point. */
  lemma ReflectionsAreSignFlips(p: Point, q: Point)
    ensures q in NearCoords(p, [-1, 1], false) <==>
      Mirror(q) == Mirror(p) && (q.0 == p.0 || q.0 == -p.0) && (q.1 == p.1 || q.1 == -p.1) && (q.2 == p.2 || q.2 == -p.2)
  {
    NearCoordsMembers(p, [-1, 1], false, q);
    if (q.0 == p.0 || q.0 == -p.0) && (q.1 == p.1 || q.1 == -p.1) && (q.2 == p.2 || q.2 == -p.2) {
      var a := if q.0 == p.0 then 1 else -1;
      var b := if q.1 == p.1 then 1 else -1;
      var c := if q.2 == p.2 then 1 else -1;
      assert a in [-1, 1] && b in [-1, 1] && c in [-1, 1];
      assert q == Combine(p, a, b, c, false);
    }
  }

  // ---------------------------------------------------------------------
  // Python numeric conversions
  // ---------------------------------------------------------------------

  /** `n` is the integer next to `x` on the side of zero, less than one step away. */
  predicate TruncatedFrom(n: int, x: real)
  {
    (0.0 <= x ==> n as real <= x < n as real + 1.0) && (x < 0.0 ==> n as real - 1.0 < x <= n as real)
  }

  /** Python `int(x)` on a float: truncation toward zero. */
  function Trunc(x: real): (r: int)
    ensures TruncatedFrom(r, x)
  {
    if x >= 0.0 then x.Floor else -((-x).Floor)
  }

  /** Truncation never moves away from zero and keeps the sign, unlike floor on negative values. */
  lemma TruncTowardZero(x: real)
    ensures (Trunc(x) as real) * (Trunc(x) as real) <= x * x
    ensures x >= 0.0 ==> Trunc(x) >= 0
    ensures -1.0 < x < 1.0 ==> Trunc(x) == 0
    ensures x < 0.0 && x != x.Floor as real ==> Trunc(x) == x.Floor + 1
  {
  }

  /** Python `math.ceil`. */
  function Ceil(x: real): (r: int)
    ensures r as real - 1.0 < x <= r as real
  {
    if x.Floor as real == x then x.Floor else x.Floor + 1
  }

  /** `int` of an integral float is that integer. */
  lemma TruncOfInteger(n: int)
    ensures Trunc(n as real) == n
  {
  }

  /** `math.ceil` is the least integer not below its argument. */
  lemma CeilLeast(x: real, n: int)
    requires x <= n as real
    ensures Ceil(x) <= n
  {
  }

  lemma CeilOfInteger(n: int)
    ensures Ceil(n as real) == n
  {
  }

  /** Squares of non-negative numbers are ordered as the numbers are. */
  lemma SquaresOrdered(x: real, y: real)
    requires x >= 0.0 && y >= 0.0
    ensures x * x < y * y <==> x < y
    ensures x * x <= y * y <==> x <= y
  {
    assert y * y - x * x == (y - x) * (y + x);
    if x < y {
      PositiveProduct(y - x, y + x);
    } else {
      assert (x - y) * (x + y) >= 0.0;
    }
    if x <= y {
      assert (y - x) * (y + x) >= 0.0;
    } else {
      PositiveProduct(x - y, x + y);
    }
  }

  lemma PositiveProduct(a: real, b: real)
    requires a > 0.0 && b > 0.0
    ensures a * b > 0.0
  {
  }

  // Real arithmetic steps the solver does not take on its own in a larger context.

  lemma DivMono(x: real, y: real, d: real)
    requires d > 0.0 && x <= y
    ensures x / d <= y / d
  {
  }
  lemma DivSum(x: real, y: real, d: real)
    requires d != 0.0
    ensures x / d + y / d == (x + y) / d
    ensures x / d - y / d == (x - y) / d
  {
  }
  lemma ScaleDiv(k: real, x: real, d: real)
    requires d != 0.0
    ensures k * (x / d) == (k * x) / d
  {
  }
  lemma DivCancel(x: real, d: real)
    requires d != 0.0
    ensures (x / d) * d == x
    ensures (x * d) / d == x
  {
  }
  lemma MulMono(a: real, b: real, c: real)
    requires a <= b && c >= 0.0
    ensures a * c <= b * c
  {
  }
  lemma MulStrict(a: real, b: real, c: real)
    requires a < b && c > 0.0
    ensures a * c < b * c
  {
  }
}
