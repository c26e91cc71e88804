/** Three-dimensional vectors over the reals, with the few inequalities the movement proofs need.
    Square roots are avoided: "length at most r" is written Within(v, r). */
module Vectors {

  datatype Vec = Vec(x: real, y: real, z: real)

  const ORIGIN := Vec(0.0, 0.0, 0.0)

  function Add(a: Vec, b: Vec): Vec { Vec(a.x + b.x, a.y + b.y, a.z + b.z) }

  function Sub(a: Vec, b: Vec): Vec { Vec(a.x - b.x, a.y - b.y, a.z - b.z) }

  function Scale(k: real, a: Vec): Vec { Vec(k * a.x, k * a.y, k * a.z) }

  function Dot(a: Vec, b: Vec): real { a.x * b.x + a.y * b.y + a.z * b.z }

  function Cross(a: Vec, b: Vec): Vec {
    Vec(a.y * b.z - a.z * b.y, a.z * b.x - a.x * b.z, a.x * b.y - a.y * b.x)
  }

  function Square(a: Vec): real { Dot(a, a) }

  function Abs(r: real): real { if r < 0.0 then -r else r }

  /** The length of v is at most r. */
  predicate Within(v: Vec, r: real) { 0.0 <= r && Square(v) <= r * r }

  lemma SquareNonNegative(a: Vec)
    ensures 0.0 <= Square(a)
  {
    assert 0.0 <= a.x * a.x && 0.0 <= a.y * a.y && 0.0 <= a.z * a.z;
  }

  lemma SquareOrigin()
    ensures Square(ORIGIN) == 0.0
  {}

  lemma DotSymmetric(a: Vec, b: Vec)
    ensures Dot(a, b) == Dot(b, a)
  {}

  lemma ScaleOne(v: Vec)
    ensures Scale(1.0, v) == v
  {}

  lemma ScaleDot(k: real, a: Vec, b: Vec)
    ensures Dot(Scale(k, a), b) == k * Dot(a, b)
  {
    assert (k * a.x) * b.x == k * (a.x * b.x) && (k * a.y) * b.y == k * (a.y * b.y) && (k * a.z) * b.z == k * (a.z * b.z);
  }

  lemma PushAxis(p: real, a: real, x: real) returns (square: real)
    ensures square == (p + a * x) * (p + a * x) && square == p * p + 2.0 * a * (p * x) + a * a * (x * x)
  {
    var m := a * x;
    square := (p + m) * (p + m);
    assert square == p * p + 2.0 * (p * m) + m * m;
    assert p * m == a * (p * x) && m * m == a * a * (x * x);
  }

  /** The speed after adding `a` along w. */
  lemma PushSpeed(v: Vec, w: Vec, a: real)
    ensures Square(Add(v, Scale(a, w))) == Square(v) + 2.0 * a * Dot(v, w) + a * a * Square(w)
  {
    var x := PushAxis(v.x, a, w.x);
    var y := PushAxis(v.y, a, w.y);
    var z := PushAxis(v.z, a, w.z);
  }

  lemma SquareOfDifference(a: real, b: real, c: real, d: real) returns (square: real)
    ensures square == (a * b - c * d) * (a * b - c * d)
    ensures square == (a * a) * (b * b) + (c * c) * (d * d) - 2.0 * ((a * d) * (c * b))
  {
    var m, n := a * b, c * d;
    square := (m - n) * (m - n);
    assert square == m * m + n * n - 2.0 * (m * n);
    assert m * m == (a * a) * (b * b) && n * n == (c * c) * (d * d);
    assert m * n == (a * d) * (c * b);
  }

  lemma SquareOfSum(a: real, b: real, c: real) returns (square: real)
    ensures square == (a + b + c) * (a + b + c)
    ensures square == a * a + b * b + c * c + 2.0 * (a * b) + 2.0 * (a * c) + 2.0 * (b * c)
  {
    square := (a + b + c) * (a + b + c);
  }

  lemma ProductOfSums(a: real, b: real, c: real, x: real, y: real, z: real) returns (product: real)
    ensures product == (a + b + c) * (x + y + z)
    ensures product == a * x + a * y + a * z + b * x + b * y + b * z + c * x + c * y + c * z
  {
    product := (a + b + c) * (x + y + z);
  }

  /** Lagrange's identity, the source of both Cauchy-Schwarz and the bound on a cross product. */
  lemma Lagrange(a: Vec, b: Vec)
    ensures Square(Cross(a, b)) == Square(a) * Square(b) - Dot(a, b) * Dot(a, b)
  {
    var Vec(p, q, r) := a;
    var Vec(s, t, u) := b;
    var x := SquareOfDifference(q, u, r, t);
    var y := SquareOfDifference(r, s, p, u);
    var z := SquareOfDifference(p, t, q, s);
    var c := Cross(a, b);
    assert c.x == q * u - r * t && c.y == r * s - p * u && c.z == p * t - q * s;
    assert x == c.x * c.x && y == c.y * c.y && z == c.z * c.z;
    assert (p * s) * (p * s) == (p * p) * (s * s) && (q * t) * (q * t) == (q * q) * (t * t);
    assert (r * u) * (r * u) == (r * r) * (u * u);
    Collect(p * p, q * q, r * r, s * s, t * t, u * u, p * s, q * t, r * u, x, y, z);
  }

  lemma Collect(pp: real, qq: real, rr: real, ss: real, tt: real, uu: real, ps: real, qt: real, ru: real,
                x: real, y: real, z: real)
    requires x == qq * uu + rr * tt - 2.0 * (qt * ru)
    requires y == rr * ss + pp * uu - 2.0 * (ru * ps)
    requires z == pp * tt + qq * ss - 2.0 * (ps * qt)
    requires ps * ps == pp * ss && qt * qt == qq * tt && ru * ru == rr * uu
    ensures x + y + z == (pp + qq + rr) * (ss + tt + uu) - (ps + qt + ru) * (ps + qt + ru)
  {
    var product := ProductOfSums(pp, qq, rr, ss, tt, uu);
    var square := SquareOfSum(ps, qt, ru);
  }

  lemma CauchySchwarz(a: Vec, b: Vec)
    ensures Dot(a, b) * Dot(a, b) <= Square(a) * Square(b)
  {
    Lagrange(a, b);
    SquareNonNegative(Cross(a, b));
  }

  lemma ProductNonNegative(a: real, b: real)
    requires 0.0 <= a && 0.0 <= b
    ensures 0.0 <= a * b
  {}

  lemma ProductMonotone(a: real, b: real, c: real, d: real)
    requires 0.0 <= a <= c && 0.0 <= b <= d
    ensures a * b <= c * d
  {
    assert a * b <= c * b;
    assert c * b <= c * d;
  }

  lemma SquareStrict(a: real, b: real)
    requires 0.0 <= a < b
    ensures a * a < b * b
  {
    assert 0.0 <= a * (b - a) && 0.0 < b * (b - a);
  }

  /** For non-negative bounds, comparing squares compares the numbers. */
  lemma RootMonotone(a: real, b: real)
    requires 0.0 <= b && a * a <= b * b
    ensures a <= b
  {
    if b < a {
      SquareStrict(b, a);
    }
  }

  lemma DotWithin(a: Vec, r: real, b: Vec, s: real)
    requires Within(a, r) && Within(b, s)
    ensures Dot(a, b) <= r * s
  {
    CauchySchwarz(a, b);
    SquareNonNegative(a);
    SquareNonNegative(b);
    ProductMonotone(Square(a), Square(b), r * r, s * s);
    assert (r * r) * (s * s) == (r * s) * (r * s);
    RootMonotone(Dot(a, b), r * s);
  }

  /** The triangle inequality. */
  lemma WithinAdd(a: Vec, r: real, b: Vec, s: real)
    requires Within(a, r) && Within(b, s)
    ensures Within(Add(a, b), r + s)
  {
    DotWithin(a, r, b, s);
    calc {
      Square(Add(a, b));
      (a.x + b.x) * (a.x + b.x) + (a.y + b.y) * (a.y + b.y) + (a.z + b.z) * (a.z + b.z);
      Square(a) + 2.0 * Dot(a, b) + Square(b);
    <=
      r * r + 2.0 * (r * s) + s * s;
      (r + s) * (r + s);
    }
  }

  lemma SquareScale(k: real, a: Vec)
    ensures Square(Scale(k, a)) == k * k * Square(a)
  {
    calc {
      Square(Scale(k, a));
      (k * a.x) * (k * a.x) + (k * a.y) * (k * a.y) + (k * a.z) * (k * a.z);
      k * k * (a.x * a.x) + k * k * (a.y * a.y) + k * k * (a.z * a.z);
      k * k * Square(a);
    }
  }

  lemma WithinScale(k: real, a: Vec, r: real)
    requires 0.0 <= k && Within(a, r)
    ensures Within(Scale(k, a), k * r)
  {
    SquareScale(k, a);
    assert 0.0 <= k * k && k * k * Square(a) <= k * k * (r * r);
    assert k * k * (r * r) == (k * r) * (k * r);
  }
}
