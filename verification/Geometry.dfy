/** Points, cell keys and distance as local navigation uses them.
    Coordinates are exact reals: floating-point rounding is not modelled. */
module Geometry {
  datatype Point = Point(x: real, y: real, z: real)

  /** The cell of a point: whole columns, heights rounded to the nearest half block. */
  datatype CellKey = CellKey(x: int, halfY: int, z: int)

  datatype EdgeKey = EdgeKey(source: CellKey, target: CellKey)

  function Abs(r: real): real {
    if r < 0.0 then -r else r
  }

  function Max(a: real, b: real): real {
    if a < b then b else a
  }

  /** Rounding a half goes up, as Math.round does. */
  function Key(p: Point): CellKey {
    CellKey(p.x.Floor, (2.0 * p.y + 0.5).Floor, p.z.Floor)
  }

  function LocalEdgeKey(a: Point, b: Point): EdgeKey {
    EdgeKey(Key(a), Key(b))
  }

  function Square(r: real): real {
    r * r
  }

  function HorizontalSquared(ax: real, az: real, bx: real, bz: real): real {
    Square(ax - bx) + Square(az - bz)
  }

  // ---------------------------------------------------------------------
  // Distance
  // ---------------------------------------------------------------------

  ghost predicate IsMetric(d: (Point, Point) -> real) {
    && (forall p :: d(p, p) == 0.0)
    && (forall p, q :: d(p, q) >= 0.0)
    && (forall p, q, r :: d(p, r) <= d(p, q) + d(q, r))
  }

  function Taxicab(p: Point, q: Point): real {
    Abs(p.x - q.x) + Abs(p.y - q.y) + Abs(p.z - q.z)
  }

  /** What the search needs of a distance; HypotIsMetric shows that the Euclidean one qualifies. */
  type Metric = d: (Point, Point) -> real | IsMetric(d) ghost witness Taxicab

  function SquaredDistance(p: Point, q: Point): real {
    Square(p.x - q.x) + Square(p.y - q.y) + Square(p.z - q.z)
  }

  /** A square root on the non-negative reals, the one thing assumed of Math.hypot. */
  ghost predicate IsRoot(root: real -> real) {
    forall s :: s >= 0.0 ==> root(s) >= 0.0 && Square(root(s)) == s
  }

  lemma SquareNonNegative(a: real)
    ensures Square(a) >= 0.0
  {
  }

  lemma SquareStrict(a: real, b: real)
    requires a > b >= 0.0
    ensures Square(a) > Square(b)
  {
    var d := a - b;
    assert d * d >= 0.0 && d * b >= 0.0 && d * d != 0.0;
    assert a * a == b * b + 2.0 * (d * b) + d * d;
  }

  lemma SquareOfSum(a: real, b: real)
    ensures Square(a + b) == Square(a) + Square(b) + 2.0 * (a * b)
  {
  }

  lemma SquareOfProduct(a: real, b: real)
    ensures Square(a * b) == Square(a) * Square(b)
  {
    var s := a * b;
    assert s * s == s * a * b;
    assert s * a == a * a * b;
  }

  /** The Lagrange identity for one pair of coordinates. */
  lemma CrossTerms(a: real, b: real, u: real, v: real)
    ensures Square(a) * Square(v) + Square(b) * Square(u) >= 2.0 * ((a * u) * (b * v))
  {
    SquareOfProduct(a, v);
    SquareOfProduct(b, u);
    SquareOfSum(a * v, -(b * u));
    SquareNonNegative(a * v - b * u);
    assert (a * v) * (b * u) == (a * u) * (b * v) by {
      var p, q := a * v, a * u;
      assert p * b * u == q * b * v;
    }
  }

  lemma Expand(a: real, b: real, c: real, u: real, v: real, w: real)
    ensures (a + b + c) * (u + v + w) == a * u + a * v + a * w + b * u + b * v + b * w + c * u + c * v + c * w
  {
  }

  /** Cauchy-Schwarz in three dimensions. */
  lemma CauchySchwarz(a: real, b: real, c: real, u: real, v: real, w: real)
    ensures Square(a * u + b * v + c * w)
         <= (Square(a) + Square(b) + Square(c)) * (Square(u) + Square(v) + Square(w))
  {
    var p, q, r := a * u, b * v, c * w;
    SquareOfSum(p + q, r);
    SquareOfSum(p, q);
    Expand(Square(a), Square(b), Square(c), Square(u), Square(v), Square(w));
    SquareOfProduct(a, u);
    SquareOfProduct(b, v);
    SquareOfProduct(c, w);
    CrossTerms(a, b, u, v);
    CrossTerms(a, c, u, w);
    CrossTerms(b, c, v, w);
    assert (p + q) * r == p * r + q * r;
  }

  lemma SumOfRootsBounds(ra: real, rb: real, rc: real, dot: real)
    requires ra >= 0.0 && rb >= 0.0 && rc >= 0.0
    requires Square(rc) == Square(ra) + Square(rb) + 2.0 * dot
    requires Square(dot) <= Square(ra) * Square(rb)
    ensures rc <= ra + rb
  {
    SquareOfProduct(ra, rb);
    SquareOfSum(ra, rb);
    assert ra * rb >= 0.0;
    if dot > ra * rb {
      SquareStrict(dot, ra * rb);
    }
    if rc > ra + rb {
      SquareStrict(rc, ra + rb);
    }
  }

  lemma SquaresOfSums(a: real, b: real, c: real, u: real, v: real, w: real)
    ensures Square(a + u) + Square(b + v) + Square(c + w)
         == (Square(a) + Square(b) + Square(c)) + (Square(u) + Square(v) + Square(w)) + 2.0 * (a * u + b * v + c * w)
  {
    SquareOfSum(a, u);
    SquareOfSum(b, v);
    SquareOfSum(c, w);
  }

  /** The triangle inequality for a triangle with sides (a, b, c) and (u, v, w). */
  lemma Triangle(a: real, b: real, c: real, u: real, v: real, w: real, ra: real, rb: real, rc: real)
    requires ra >= 0.0 && rb >= 0.0 && rc >= 0.0
    requires Square(ra) == Square(a) + Square(b) + Square(c)
    requires Square(rb) == Square(u) + Square(v) + Square(w)
    requires Square(rc) == Square(a + u) + Square(b + v) + Square(c + w)
    ensures rc <= ra + rb
  {
    SquaresOfSums(a, b, c, u, v, w);
    CauchySchwarz(a, b, c, u, v, w);
    SumOfRootsBounds(ra, rb, rc, a * u + b * v + c * w);
  }

  lemma SquaredDistanceNonNegative(p: Point, q: Point)
    ensures SquaredDistance(p, q) >= 0.0
  {
    SquareNonNegative(p.x - q.x);
    SquareNonNegative(p.y - q.y);
    SquareNonNegative(p.z - q.z);
  }

  lemma HypotTriangle(root: real -> real, p: Point, q: Point, r: Point)
    requires IsRoot(root)
    ensures root(SquaredDistance(p, r)) <= root(SquaredDistance(p, q)) + root(SquaredDistance(q, r))
  {
    SquaredDistanceNonNegative(p, q);
    SquaredDistanceNonNegative(q, r);
    SquaredDistanceNonNegative(p, r);
    assert p.x - r.x == (p.x - q.x) + (q.x - r.x);
    assert p.y - r.y == (p.y - q.y) + (q.y - r.y);
    assert p.z - r.z == (p.z - q.z) + (q.z - r.z);
    Triangle(p.x - q.x, p.y - q.y, p.z - q.z, q.x - r.x, q.y - r.y, q.z - r.z,
      root(SquaredDistance(p, q)), root(SquaredDistance(q, r)), root(SquaredDistance(p, r)));
  }

  /** Any square root turns the sum of squared differences into a metric, so
      everything proved for a Metric holds of the distance the bot computes. */
  lemma HypotIsMetric(root: real -> real)
    requires IsRoot(root)
    ensures IsMetric((p: Point, q: Point) => root(SquaredDistance(p, q)))
  {
    var d := (p: Point, q: Point) => root(SquaredDistance(p, q));
    forall p: Point
      ensures d(p, p) == 0.0
    {
      var zero := root(0.0);
      assert SquaredDistance(p, p) == 0.0;
      if zero > 0.0 {
        SquareStrict(zero, 0.0);
      }
    }
    forall p, q
      ensures d(p, q) >= 0.0
    {
      SquaredDistanceNonNegative(p, q);
    }
    forall p, q, r
      ensures d(p, r) <= d(p, q) + d(q, r)
    {
      HypotTriangle(root, p, q, r);
    }
  }
}
