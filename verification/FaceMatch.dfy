/** Face matching over real arithmetic: the similarity score and the search for the best entry.  The
    square root is a parameter, known only by what a square root is. */
module FaceMatch {
  type Vector = seq<real>

  function Dot(a: Vector, b: Vector): real
    requires |a| == |b|
  {
    if a == [] then 0.0 else Dot(a[..|a| - 1], b[..|b| - 1]) + a[|a| - 1] * b[|b| - 1]
  }

  predicate IsRoot(r: real, x: real) {
    r >= 0.0 && r * r == x
  }

  const NEGLIGIBLE := 0.000000001
  const MATCH_THRESHOLD := 0.45

  lemma {:induction false} DotSelf(a: Vector)
    ensures Dot(a, a) >= 0.0
  {
    if a != [] {
      DotSelf(a[..|a| - 1]);
      SquareNonNegative(a[|a| - 1]);
    }
  }

  lemma SquareNonNegative(x: real)
    ensures x * x >= 0.0
  {
  }

  /** The inductive step: if d squared is at most p q, the same holds with one more coordinate. */
  lemma OneMoreCoordinate(d: real, p: real, q: real, x: real, y: real)
    requires p >= 0.0 && q >= 0.0 && d * d <= p * q
    ensures (d + x * y) * (d + x * y) <= (p + x * x) * (q + y * y)
  {
    var u, v := p * (y * y), q * (x * x);
    SquareNonNegative(x);
    SquareNonNegative(y);
    Product(p, y * y);
    Product(q, x * x);
    var m := d * (x * y);
    CrossTerm(d, p, q, x, y);
    AtMostMean(m, u, v);
    Expand(d, x * y);
    assert (p + x * x) * (q + y * y) == p * q + p * (y * y) + (x * x) * q + (x * x) * (y * y);
    assert (x * y) * (x * y) == (x * x) * (y * y);
  }

  lemma Product(a: real, b: real)
    requires a >= 0.0 && b >= 0.0
    ensures a * b >= 0.0
  {
  }

  lemma Expand(a: real, b: real)
    ensures (a + b) * (a + b) == a * a + 2.0 * (a * b) + b * b
  {
  }

  lemma CrossTerm(d: real, p: real, q: real, x: real, y: real)
    requires d * d <= p * q
    ensures (d * (x * y)) * (d * (x * y)) <= (p * (y * y)) * (q * (x * x))
  {
    var s := (x * y) * (x * y);
    SquareNonNegative(x * y);
    assert (d * (x * y)) * (d * (x * y)) == (d * d) * s;
    Scale(d * d, p * q, s);
    assert (p * (y * y)) * (q * (x * x)) == (p * q) * s;
  }

  lemma Scale(a: real, b: real, s: real)
    requires a <= b && s >= 0.0
    ensures a * s <= b * s
  {
  }

  /** If m squared is at most u v, then 2 m is at most u + v. */
  lemma AtMostMean(m: real, u: real, v: real)
    requires u >= 0.0 && v >= 0.0 && m * m <= u * v
    ensures 2.0 * m <= u + v
  {
    Expand(u, v);
    Expand(u, -v);
    SquareNonNegative(u - v);
    assert (u + v) * (u + v) >= 4.0 * (u * v);
    assert (2.0 * m) * (2.0 * m) == 4.0 * (m * m);
    if 2.0 * m > u + v {
      LargerSquare(u + v, 2.0 * m);
    }
  }

  lemma LargerSquare(a: real, b: real)
    requires 0.0 <= a < b
    ensures a * a < b * b
  {
    assert b * b - a * a == (b - a) * (b + a);
    StrictProduct(b - a, b + a);
  }

  lemma StrictProduct(a: real, b: real)
    requires a > 0.0 && b > 0.0
    ensures a * b > 0.0
  {
  }

  /** Cauchy-Schwarz for every pair of vectors of the same length. */
  lemma {:induction false} CauchySchwarz(a: Vector, b: Vector)
    requires |a| == |b|
    ensures Dot(a, b) * Dot(a, b) <= Dot(a, a) * Dot(b, b)
  {
    if a != [] {
      var p, q := a[..|a| - 1], b[..|b| - 1];
      CauchySchwarz(p, q);
      DotSelf(p);
      DotSelf(q);
      OneMoreCoordinate(Dot(p, q), Dot(p, p), Dot(q, q), a[|a| - 1], b[|b| - 1]);
    }
  }

  // What the dot product is: bilinear, symmetric, and one or zero on unit vectors.

  function Plus(a: Vector, b: Vector): (r: Vector)
    requires |a| == |b|
    ensures |r| == |a|
  {
    seq(|a|, i requires 0 <= i < |a| => a[i] + b[i])
  }

  function Times(k: real, a: Vector): (r: Vector)
    ensures |r| == |a|
  {
    seq(|a|, i requires 0 <= i < |a| => k * a[i])
  }

  function UnitVector(n: nat, i: nat): (r: Vector)
    ensures |r| == n
  {
    seq(n, j requires 0 <= j < n => if j == i then 1.0 else 0.0)
  }

  lemma {:induction false} DotSymmetric(a: Vector, b: Vector)
    requires |a| == |b|
    ensures Dot(a, b) == Dot(b, a)
  {
    if a != [] {
      DotSymmetric(a[..|a| - 1], b[..|b| - 1]);
    }
  }

  lemma LinearStep(k: real, p: real, q: real, x: real, y: real, z: real)
    ensures (k * p + q) + (k * x + y) * z == k * (p + x * z) + (q + y * z)
  {
    Distribute(k, x, y, z);
    assert k * (p + x * z) == k * p + k * (x * z);
  }

  lemma Distribute(k: real, x: real, y: real, z: real)
    ensures (k * x + y) * z == k * (x * z) + y * z
  {
  }

  /** k times a plus b. */
  function Combined(k: real, a: Vector, b: Vector): (r: Vector)
    requires |a| == |b|
    ensures |r| == |a|
  {
    Plus(Times(k, a), b)
  }

  lemma CombinedPrefix(k: real, a: Vector, b: Vector)
    requires |a| == |b| && a != []
    ensures var n := |a| - 1;
            Combined(k, a, b)[..n] == Combined(k, a[..n], b[..n]) && Combined(k, a, b)[n] == k * a[n] + b[n]
  {
    var n := |a| - 1;
    forall i | 0 <= i < n ensures Combined(k, a, b)[..n][i] == Combined(k, a[..n], b[..n])[i] {
      assert a[..n][i] == a[i] && b[..n][i] == b[i];
    }
  }

  /** Linear in the first argument, and by symmetry in the second. */
  lemma {:induction false} DotLinear(k: real, a: Vector, b: Vector, c: Vector)
    requires |a| == |b| == |c|
    ensures Dot(Plus(Times(k, a), b), c) == k * Dot(a, c) + Dot(b, c)
  {
    if a != [] {
      var n := |a| - 1;
      DotLinear(k, a[..n], b[..n], c[..n]);
      CombinedPrefix(k, a, b);
      LinearStep(k, Dot(a[..n], c[..n]), Dot(b[..n], c[..n]), a[n], b[n], c[n]);
    }
  }

  lemma {:induction false} DotZero(a: Vector, z: Vector)
    requires |a| == |z| && forall i :: 0 <= i < |z| ==> z[i] == 0.0
    ensures Dot(a, z) == 0.0
  {
    if a != [] {
      DotZero(a[..|a| - 1], z[..|a| - 1]);
    }
  }

  /** Every coordinate counts, and counts once. */
  lemma {:induction false} DotUnit(a: Vector, i: nat)
    requires i < |a|
    ensures Dot(a, UnitVector(|a|, i)) == a[i]
  {
    var n := |a| - 1;
    if i < n {
      DotUnit(a[..n], i);
      assert UnitVector(|a|, i)[..n] == UnitVector(n, i);
    } else {
      DotZero(a[..n], UnitVector(|a|, i)[..n]);
    }
  }

  lemma UnitVectors(n: nat, i: nat, j: nat)
    requires i < n && j < n
    ensures Dot(UnitVector(n, i), UnitVector(n, j)) == if i == j then 1.0 else 0.0
  {
    DotUnit(UnitVector(n, i), j);
  }

  lemma AtLeast(x: real, y: real) returns (e: real)
    requires x > 0.0 && y > 0.0
    ensures e > 0.0 && x * y >= e
  {
    StrictProduct(x, y);
    e := x * y;
  }

  lemma PositiveSquare(q: real) returns (e: real)
    requires q > 0.0 || q < 0.0
    ensures e > 0.0 && q * q >= e
  {
    if q > 0.0 {
      e := AtLeast(q, q);
    } else {
      var p := -q;
      e := AtLeast(p, p);
      assert q * q == p * p;
    }
  }

  /** A vector with a coordinate has a norm. */
  lemma {:induction false} DotSelfPositive(a: Vector, i: nat)
    requires i < |a| && (a[i] > 0.0 || a[i] < 0.0)
    ensures Dot(a, a) > 0.0
  {
    var n := |a| - 1;
    DotSelf(a[..n]);
    SquareNonNegative(a[n]);
    if i == n {
      var e := PositiveSquare(a[n]);
    } else {
      DotSelfPositive(a[..n], i);
    }
  }

  lemma ResidueTerms(k: real, x: real, y: real, z: real, br: real, ar: real, rr: real)
    requires rr == -k * br + ar && br == -k * z + y && ar == -k * y + x
    ensures rr == x - 2.0 * (k * y) + k * (k * z)
  {
    assert -k * br == k * (k * z) - k * y;
  }

  // The residue of a after subtracting k times b.

  lemma ResidueAgainst(k: real, a: Vector, b: Vector, c: Vector)
    requires |a| == |b| == |c|
    ensures Dot(c, Plus(Times(-k, b), a)) == -k * Dot(b, c) + Dot(a, c)
  {
    DotLinear(-k, b, a, c);
    DotSymmetric(c, Plus(Times(-k, b), a));
  }

  lemma ResidueSquare(k: real, a: Vector, b: Vector, x: real, y: real, z: real)
    requires |a| == |b| && x == Dot(a, a) && y == Dot(a, b) && z == Dot(b, b)
    ensures Dot(Plus(Times(-k, b), a), Plus(Times(-k, b), a)) == x - 2.0 * (k * y) + k * (k * z)
  {
    var r := Plus(Times(-k, b), a);
    var (br, ar) := (Dot(b, r), Dot(a, r));
    DotSymmetric(b, a);
    DotSymmetric(b, r);
    DotSymmetric(a, r);
    ResidueAgainst(k, a, b, r);
    ResidueAgainst(k, a, b, b);
    ResidueAgainst(k, a, b, a);
    ResidueTerms(k, x, y, z, br, ar, Dot(r, r));
  }

  lemma Quotient(y: real, z: real) returns (k: real)
    requires z > 0.0
    ensures k * z == y
  {
    k := y / z;
  }

  lemma Opposite(k: real, x: real)
    ensures (-k) * x == -(k * x)
  {
  }

  lemma NoResidue(k: real, a: Vector, b: Vector)
    requires |a| == |b| && Dot(Plus(Times(-k, b), a), Plus(Times(-k, b), a)) == 0.0
    ensures a == Times(k, b)
  {
    var r := Plus(Times(-k, b), a);
    forall i | 0 <= i < |a| ensures a[i] == Times(k, b)[i] {
      assert r[i] == Times(-k, b)[i] + a[i];
      Opposite(k, b[i]);
      if r[i] > 0.0 || r[i] < 0.0 {
        DotSelfPositive(r, i);
      }
    }
  }

  /** The equality case of Cauchy-Schwarz: only multiples reach the bound. */
  lemma EqualityCase(a: Vector, b: Vector, x: real, y: real, z: real) returns (k: real)
    requires |a| == |b| && x == Dot(a, a) && y == Dot(a, b) && z == Dot(b, b)
    requires z > 0.0 && y * y == x * z
    ensures k * z == y && a == Times(k, b)
  {
    k := Quotient(y, z);
    Vanishes(x, y, z, k);
    ResidueSquare(k, a, b, x, y, z);
    NoResidue(k, a, b);
  }

  lemma Vanishes(x: real, y: real, z: real, k: real)
    requires z > 0.0 && k * z == y && y * y == x * z
    ensures x - 2.0 * (k * y) + k * (k * z) == 0.0
  {
    assert k * y * z == y * y;
    assert (k * y - x) * z == 0.0;
    assert k * y == x;
  }

  lemma DotOfMultiple(k: real, b: Vector)
    ensures Dot(Times(k, b), b) == k * Dot(b, b)
    ensures Dot(Times(k, b), Times(k, b)) == k * (k * Dot(b, b))
  {
    var zero := Times(0.0, b);
    var a := Times(k, b);
    assert Plus(a, zero) == a;
    DotZero(b, zero);
    DotZero(a, zero);
    DotSymmetric(b, zero);
    DotSymmetric(a, zero);
    DotSymmetric(a, b);
    DotLinear(k, b, zero, b);
    DotLinear(k, b, zero, a);
  }

  /** The score of two embeddings: zero unless they have the same positive length and their norms do
      not vanish, and otherwise the cosine of their angle. */
  ghost predicate IsScore(s: real, a: Vector, b: Vector, sqrt: real -> real) {
    if |a| != |b| || a == [] then s == 0.0
    else ScoreOf(s, Dot(a, a), Dot(a, b), Dot(b, b), sqrt)
  }

  ghost predicate ScoreOf(s: real, x: real, y: real, z: real, sqrt: real -> real) {
    var d := sqrt(x) * sqrt(z);
    if d < NEGLIGIBLE then s == 0.0 else s * d == y
  }

  lemma ScoreUnique(s: real, s': real, a: Vector, b: Vector, sqrt: real -> real)
    requires IsScore(s, a, b, sqrt) && IsScore(s', a, b, sqrt)
    ensures s == s'
  {
    if |a| == |b| && a != [] {
      var d := sqrt(Dot(a, a)) * sqrt(Dot(b, b));
      if d >= NEGLIGIBLE {
        assert (s - s') * d == 0.0;
      }
    }
  }

  /** A quotient of something by a positive divisor whose square bounds its own lies in [-1, 1]. */
  lemma UnitQuotient(s: real, d: real, n: real)
    requires d > 0.0 && s * d == n && n * n <= d * d
    ensures -1.0 <= s <= 1.0
  {
    if s > 1.0 {
      Scale2(1.0, s, d);
      LargerSquare(d, n);
    } else if s < -1.0 {
      Scale2(1.0, -s, d);
      LargerSquare(d, -n);
    }
  }

  lemma Scale2(a: real, b: real, d: real)
    requires a < b && d > 0.0
    ensures a * d < b * d
  {
    StrictProduct(b - a, d);
  }

  lemma RootsMultiply(r: real, t: real, x: real, y: real)
    requires IsRoot(r, x) && IsRoot(t, y)
    ensures (r * t) * (r * t) == x * y && r * t >= 0.0
  {
    Product(r, t);
    assert (r * t) * (r * t) == (r * r) * (t * t);
  }

  /** Every score lies between -1 and 1. */
  lemma ScoreBounded(s: real, a: Vector, b: Vector, sqrt: real -> real)
    requires forall x :: x >= 0.0 ==> IsRoot(sqrt(x), x)
    requires IsScore(s, a, b, sqrt)
    ensures -1.0 <= s <= 1.0
  {
    if |a| == |b| && a != [] {
      var d := sqrt(Dot(a, a)) * sqrt(Dot(b, b));
      if d >= NEGLIGIBLE {
        DotSelf(a);
        DotSelf(b);
        RootsMultiply(sqrt(Dot(a, a)), sqrt(Dot(b, b)), Dot(a, a), Dot(b, b));
        CauchySchwarz(a, b);
        UnitQuotient(s, d, Dot(a, b));
      }
    }
  }

  /** An embedding with a norm scores 1 against itself: nothing scores higher. */
  lemma SelfScore(s: real, a: Vector, sqrt: real -> real)
    requires forall x :: x >= 0.0 ==> IsRoot(sqrt(x), x)
    requires a != [] && Dot(a, a) >= NEGLIGIBLE && IsScore(s, a, a, sqrt)
    ensures s == 1.0
  {
    var d := Dot(a, a);
    RootsMultiply(sqrt(d), sqrt(d), d, d);
    assert sqrt(d) * sqrt(d) == d;
    assert (s - 1.0) * d == 0.0;
  }

  // The score in plain numbers: x and z are the squared norms and y the dot product.

  lemma NormsDoNotVanish(s: real, x: real, y: real, z: real, sqrt: real -> real) returns (d: real)
    requires forall x :: x >= 0.0 ==> IsRoot(sqrt(x), x)
    requires x >= 0.0 && z >= 0.0 && ScoreOf(s, x, y, z, sqrt) && sqrt(x) * sqrt(z) >= 0.000000001
    ensures d > 0.0 && d * d == x * z && z > 0.0 && (s == 1.0 <==> y == d)
  {
    var (p, q) := (sqrt(x), sqrt(z));
    RootsMultiply(p, q, x, z);
    d := p * q;
    StrictProduct(d, d);
    PositiveSecond(x, z);
    OneMeansEqual(s, y, d);
  }

  lemma TimesZero(x: real)
    ensures x * 0.0 == 0.0
  {
  }

  lemma PositiveSecond(x: real, z: real)
    requires z >= 0.0 && x * z > 0.0
    ensures z > 0.0
  {
    if z == 0.0 {
      TimesZero(x);
    }
  }

  lemma OneMeansEqual(s: real, y: real, d: real)
    requires d > 0.0 && s * d == y
    ensures s == 1.0 <==> y == d
  {
    if y == d {
      assert (s - 1.0) * d == 0.0;
    }
  }

  /** Two embeddings whose norms do not vanish score 1 if and only if one is a positive multiple of the other. */
  lemma ScoreOneIff(s: real, a: Vector, b: Vector, sqrt: real -> real)
    requires forall x :: x >= 0.0 ==> IsRoot(sqrt(x), x)
    requires |a| == |b| && a != [] && IsScore(s, a, b, sqrt)
    requires sqrt(Dot(a, a)) * sqrt(Dot(b, b)) >= 0.000000001
    ensures s == 1.0 <==> exists k :: k > 0.0 && a == Times(k, b)
  {
    var (x, y, z) := (Dot(a, a), Dot(a, b), Dot(b, b));
    DotSelf(a);
    DotSelf(b);
    var d := NormsDoNotVanish(s, x, y, z, sqrt);
    MultipleIff(a, b, d, x, y, z);
  }

  lemma MultipleIff(a: Vector, b: Vector, d: real, x: real, y: real, z: real)
    requires |a| == |b| && x == Dot(a, a) && y == Dot(a, b) && z == Dot(b, b)
    requires z > 0.0 && d > 0.0 && d * d == x * z
    ensures y == d <==> exists k :: k > 0.0 && a == Times(k, b)
  {
    if y == d {
      var k := PositiveMultiple(a, b, d, x, z);
    } else if k :| k > 0.0 && a == Times(k, b) {
      MultipleReaches(k, b, d, x, z);
    }
  }

  lemma PositiveMultiple(a: Vector, b: Vector, d: real, x: real, z: real) returns (k: real)
    requires |a| == |b| && x == Dot(a, a) && d == Dot(a, b) && z == Dot(b, b)
    requires z > 0.0 && d > 0.0 && d * d == x * z
    ensures k > 0.0 && a == Times(k, b)
  {
    k := EqualityCase(a, b, x, d, z);
    PositiveFactor(k, z);
  }

  lemma MultipleReaches(k: real, b: Vector, d: real, x: real, z: real)
    requires x == Dot(Times(k, b), Times(k, b)) && z == Dot(b, b)
    requires k > 0.0 && z > 0.0 && d > 0.0 && d * d == x * z
    ensures Dot(Times(k, b), b) == d
  {
    DotOfMultiple(k, b);
    SameSquare(d, k, z);
  }

  lemma PositiveFactor(k: real, z: real)
    requires z > 0.0 && k * z > 0.0
    ensures k > 0.0
  {
    if k < 0.0 {
      StrictProduct(-k, z);
      Opposite(k, z);
    }
  }

  lemma SameSquare(d: real, k: real, z: real)
    requires d >= 0.0 && k > 0.0 && z > 0.0 && d * d == (k * (k * z)) * z
    ensures d == k * z
  {
    Product(k, z);
    assert (k * z) * (k * z) == (k * (k * z)) * z;
    if d < k * z {
      LargerSquare(d, k * z);
    } else if d > k * z {
      LargerSquare(k * z, d);
    }
  }

  lemma RootOfOne(q: real)
    requires IsRoot(q, 1.0)
    ensures q == 1.0
  {
    if q < 1.0 {
      LargerSquare(q, 1.0);
    } else if q > 1.0 {
      LargerSquare(1.0, q);
    }
  }

  lemma UnitNorm(n: nat, i: nat, sqrt: real -> real)
    requires forall x :: x >= 0.0 ==> IsRoot(sqrt(x), x)
    requires i < n
    ensures var e := UnitVector(n, i); Dot(e, e) == 1.0 && sqrt(1.0) == 1.0
  {
    UnitVectors(n, i, i);
    RootOfOne(sqrt(1.0));
  }

  /** Scored against the unit vectors, an embedding gives back its coordinates, over its norm. */
  lemma DirectionCosine(s: real, a: Vector, i: nat, sqrt: real -> real, norm: real)
    requires forall x :: x >= 0.0 ==> IsRoot(sqrt(x), x)
    requires i < |a| && IsScore(s, a, UnitVector(|a|, i), sqrt)
    requires norm == sqrt(Dot(a, a)) && norm >= 0.000000001
    ensures s * norm == a[i]
  {
    DotUnit(a, i);
    UnitNorm(|a|, i, sqrt);
    AgainstUnit(s, Dot(a, a), a[i], sqrt, norm);
  }

  lemma AgainstUnit(s: real, x: real, y: real, sqrt: real -> real, norm: real)
    requires ScoreOf(s, x, y, 1.0, sqrt) && sqrt(1.0) == 1.0 && norm == sqrt(x) && norm >= 0.000000001
    ensures s * norm == y
  {
    assert norm * 1.0 == norm;
  }

  /** No comparison, no score: unequal lengths or no coordinates, and vanishing norms. */
  lemma NoComparison(s: real, a: Vector, b: Vector, sqrt: real -> real)
    requires IsScore(s, a, b, sqrt) && (|a| != |b| || a == [])
    ensures s == 0.0
  {
  }

  lemma VanishingNorms(s: real, a: Vector, b: Vector, sqrt: real -> real, x: real, z: real)
    requires IsScore(s, a, b, sqrt) && |a| == |b|
    requires x == Dot(a, a) && z == Dot(b, b) && sqrt(x) * sqrt(z) < 0.000000001
    ensures s == 0.0
  {
    if a != [] {
      NoNorm(s, x, Dot(a, b), z, sqrt);
    }
  }

  lemma NoNorm(s: real, x: real, y: real, z: real, sqrt: real -> real)
    requires ScoreOf(s, x, y, z, sqrt) && sqrt(x) * sqrt(z) < 0.000000001
    ensures s == 0.0
  {
  }

  datatype FaceEntry = FaceEntry(name: string, embedding: Vector)

  const UNKNOWN := "Unknown"

  /** Position i holds the first entry with the highest score. */
  ghost predicate FirstBest(scores: seq<real>, i: int) {
    && 0 <= i < |scores|
    && (forall k :: 0 <= k < |scores| ==> scores[k] <= scores[i])
    && (forall k :: 0 <= k < i ==> scores[k] < scores[i])
  }

  ghost predicate AreScores(scores: seq<real>, emb: Vector, db: seq<FaceEntry>, sqrt: real -> real) {
    |scores| == |db| && forall k :: 0 <= k < |db| ==> IsScore(scores[k], emb, db[k].embedding, sqrt)
  }

  lemma ScoresUnique(ss: seq<real>, ts: seq<real>, emb: Vector, db: seq<FaceEntry>, sqrt: real -> real)
    requires AreScores(ss, emb, db, sqrt) && AreScores(ts, emb, db, sqrt)
    ensures ss == ts
  {
    forall k | 0 <= k < |db| ensures ss[k] == ts[k] {
      ScoreUnique(ss[k], ts[k], emb, db[k].embedding, sqrt);
    }
  }

  /** The right answer: the first best entry's name if its score reaches the threshold, else unknown;
      and the confidence is the best score, or zero if none is positive. */
  ghost predicate IsMatch(name: string, confidence: real, scores: seq<real>, db: seq<FaceEntry>)
    requires |scores| == |db|
  {
    && (forall i :: FirstBest(scores, i) ==>
          && name == (if scores[i] >= MATCH_THRESHOLD then db[i].name else UNKNOWN)
          && confidence == (if scores[i] > 0.0 then scores[i] else 0.0))
    && (db == [] ==> name == UNKNOWN && confidence == 0.0)
  }

  /** The loop's best so far: no entry yet and zero, or the first best entry with its positive score. */
  ghost predicate Leads(scores: seq<real>, best: int, bestScore: real) {
    if bestScore <= 0.0 then bestScore == 0.0 && forall k :: 0 <= k < |scores| ==> scores[k] <= 0.0
    else FirstBest(scores, best) && bestScore == scores[best]
  }

  lemma LeaderExtended(scores: seq<real>, s: real, best: int, bestScore: real)
    requires Leads(scores, best, bestScore)
    ensures if s > bestScore then Leads(scores + [s], |scores|, s) else Leads(scores + [s], best, bestScore)
  {
  }

  lemma ScoresExtended(scores: seq<real>, s: real, emb: Vector, db: seq<FaceEntry>, n: nat, sqrt: real -> real)
    requires n < |db| && AreScores(scores, emb, db[..n], sqrt) && IsScore(s, emb, db[n].embedding, sqrt)
    ensures AreScores(scores + [s], emb, db[..n + 1], sqrt)
  {
  }

  lemma LeaderIsMatch(name: string, bestScore: real, scores: seq<real>, db: seq<FaceEntry>, best: int)
    requires |scores| == |db| && Leads(scores, best, bestScore)
    requires name == if bestScore >= MATCH_THRESHOLD then db[best].name else UNKNOWN
    ensures IsMatch(name, bestScore, scores, db)
  {
    if bestScore > 0.0 {
      forall i | FirstBest(scores, i) ensures i == best {}
    }
  }

  datatype Outcome = Recognized(name: string, confidence: real, granted: bool) | Overridden

  /** An override skips recognition; otherwise access is granted exactly to a match that is not called unknown. */
  ghost predicate RightOutcome(o: Outcome, override: bool, emb: Vector, scores: seq<real>, db: seq<FaceEntry>,
                               sqrt: real -> real) {
    match o
    case Overridden => override
    case Recognized(name, confidence, granted) =>
      && !override && AreScores(scores, emb, db, sqrt) && IsMatch(name, confidence, scores, db)
      && (granted <==> name != UNKNOWN)
  }

  ghost predicate RightOutcomes(os: seq<Outcome>, overrides: seq<bool>, embs: seq<Vector>, scores: seq<seq<real>>,
                                db: seq<FaceEntry>, sqrt: real -> real) {
    && |os| == |scores| && |os| <= |overrides| && |os| <= |embs|
    && forall i :: 0 <= i < |os| ==> RightOutcome(os[i], overrides[i], embs[i], scores[i], db, sqrt)
  }

  lemma OutcomesExtended(os: seq<Outcome>, overrides: seq<bool>, embs: seq<Vector>, scores: seq<seq<real>>,
                         db: seq<FaceEntry>, sqrt: real -> real, o: Outcome, ss: seq<real>)
    requires RightOutcomes(os, overrides, embs, scores, db, sqrt) && |os| < |overrides| && |os| < |embs|
    requires RightOutcome(o, overrides[|os|], embs[|os|], ss, db, sqrt)
    ensures RightOutcomes(os + [o], overrides, embs, scores + [ss], db, sqrt)
  {
  }

  class FaceRecognizer<Rect> {
    var database: seq<FaceEntry>
    var frameCount: nat
    var lastFaces: seq<Rect>

    constructor (database: seq<FaceEntry>)
      ensures this.database == database && frameCount == 0 && lastFaces == []
    {
      this.database, frameCount, lastFaces := database, 0, [];
    }

    static method CosineSimilarity(a: Vector, b: Vector, sqrt: real -> real) returns (s: real)
      requires forall x :: x >= 0.0 ==> IsRoot(sqrt(x), x)
      ensures IsScore(s, a, b, sqrt)
      ensures -1.0 <= s <= 1.0
    {
      if |a| != |b| || |a| == 0 {
        return 0.0;
      }
      var dot, na, nb := 0.0, 0.0, 0.0;
      for i := 0 to |a|
        invariant dot == Dot(a[..i], b[..i]) && na == Dot(a[..i], a[..i]) && nb == Dot(b[..i], b[..i])
      {
        assert a[..i + 1][..i] == a[..i] && b[..i + 1][..i] == b[..i];
        dot, na, nb := dot + a[i] * b[i], na + a[i] * a[i], nb + b[i] * b[i];
      }
      assert a[..|a|] == a && b[..|b|] == b;
      var d := sqrt(na) * sqrt(nb);
      s := if d < NEGLIGIBLE then 0.0 else dot / d;
      ScoreBounded(s, a, b, sqrt);
    }

    /** The matching loop finds the first best entry of any database: the answer is right for the scores of
        its entries, which are the only ones there are. */
    method Match(emb: Vector, sqrt: real -> real) returns (bestName: string, bestScore: real)
      requires forall x :: x >= 0.0 ==> IsRoot(sqrt(x), x)
      ensures exists scores :: AreScores(scores, emb, database, sqrt)
      ensures forall scores :: AreScores(scores, emb, database, sqrt) ==> IsMatch(bestName, bestScore, scores, database)
    {
      bestName, bestScore := "Unknown", 0.0;
      ghost var scores: seq<real> := [];
      ghost var best: int := -1;
      for n := 0 to |database|
        invariant |scores| == n && AreScores(scores, emb, database[..n], sqrt)
        invariant Leads(scores, best, bestScore)
        invariant bestName == if bestScore >= MATCH_THRESHOLD then database[best].name else UNKNOWN
      {
        var s := CosineSimilarity(emb, database[n].embedding, sqrt);
        ScoresExtended(scores, s, emb, database, n, sqrt);
        LeaderExtended(scores, s, best, bestScore);
        scores := scores + [s];
        if s > bestScore {
          best := n;
          bestScore := s;
          if s >= 0.45 {
            bestName := database[n].name;
          }
        }
      }
      assert database[..|database|] == database;
      LeaderIsMatch(bestName, bestScore, scores, database, best);
      forall ss | AreScores(ss, emb, database, sqrt) ensures ss == scores {
        ScoresUnique(ss, scores, emb, database, sqrt);
      }
    }

    /** One frame: detection on every third frame, then one outcome per face, in order.  The detected
        faces, the override switch and the embeddings come from outside. */
    method Process(detected: seq<Rect>, overrides: seq<bool>, embeddings: seq<Vector>, sqrt: real -> real)
      returns (outcomes: seq<Outcome>, ghost scores: seq<seq<real>>)
      requires forall x :: x >= 0.0 ==> IsRoot(sqrt(x), x)
      requires var faces := if frameCount % 3 == 0 then detected else lastFaces;
               |overrides| == |faces| && |embeddings| == |faces|
      modifies this`frameCount, this`lastFaces
      ensures frameCount == old(frameCount) + 1
      ensures lastFaces == if old(frameCount) % 3 == 0 then detected else old(lastFaces)
      ensures |outcomes| == |lastFaces|
      ensures RightOutcomes(outcomes, overrides, embeddings, scores, database, sqrt)
    {
      if frameCount % 3 == 0 {
        lastFaces := detected;
      }
      frameCount := frameCount + 1;
      outcomes, scores := [], [];
      for i := 0 to |lastFaces|
        invariant frameCount == old(frameCount) + 1
        invariant lastFaces == if old(frameCount) % 3 == 0 then detected else old(lastFaces)
        invariant |outcomes| == i
        invariant RightOutcomes(outcomes, overrides, embeddings, scores, database, sqrt)
      {
        var o := Overridden;
        ghost var ss: seq<real> := [];
        if !overrides[i] {
          var name, score := Match(embeddings[i], sqrt);
          ss :| AreScores(ss, embeddings[i], database, sqrt);
          o := Recognized(name, score, name != "Unknown");
        }
        OutcomesExtended(outcomes, overrides, embeddings, scores, database, sqrt, o, ss);
        outcomes, scores := outcomes + [o], scores + [ss];
      }
    }
  }

  lemma {:induction false} SomeFirstBest(scores: seq<real>) returns (i: nat)
    requires scores != []
    ensures FirstBest(scores, i)
  {
    i := 0;
    if |scores| > 1 {
      var n := |scores| - 1;
      i := SomeFirstBest(scores[..n]);
      if scores[n] > scores[i] {
        i := n;
      }
    }
  }

  /** There is exactly one right answer, and access is granted if and only if the first best entry
      reaches the threshold and is not itself called unknown. */
  lemma GrantedIff(name: string, confidence: real, scores: seq<real>, db: seq<FaceEntry>)
    requires |scores| == |db| && IsMatch(name, confidence, scores, db)
    ensures name != "Unknown" <==>
            exists i :: FirstBest(scores, i) && scores[i] >= 0.45 && db[i].name != "Unknown"
  {
    if db != [] {
      var i := SomeFirstBest(scores);
      forall j | FirstBest(scores, j) ensures j == i {}
    }
  }

  /** The confidence is the best score there is, or zero if none is positive. */
  lemma ConfidenceIsBest(name: string, confidence: real, scores: seq<real>, db: seq<FaceEntry>)
    requires |scores| == |db| && IsMatch(name, confidence, scores, db)
    ensures confidence >= 0.0 && (confidence == 0.0 || confidence in scores)
    ensures forall k :: 0 <= k < |scores| ==> scores[k] <= confidence
  {
    if db != [] {
      var i := SomeFirstBest(scores);
      assert FirstBest(scores, i);
    }
  }

  /** A face is recognised unless the override is active, and then let in if and only if the first best entry reaches
      the threshold and is not called unknown. */
  lemma AccessIff(o: Outcome, override: bool, emb: Vector, scores: seq<real>, db: seq<FaceEntry>, sqrt: real -> real)
    requires RightOutcome(o, override, emb, scores, db, sqrt)
    ensures o.Overridden? <==> override
    ensures o.Recognized? ==>
      && |scores| == |db|
      && (o.granted <==> exists i :: FirstBest(scores, i) && scores[i] >= 0.45 && db[i].name != "Unknown")
  {
    if o.Recognized? {
      GrantedIff(o.name, o.confidence, scores, db);
    }
  }

  /** An embedding stored in the database, with a norm, is matched with full score: by its own entry or
      by an earlier one that it fits just as well. */
  lemma EnrolledFaceScoresFull(emb: Vector, scores: seq<real>, db: seq<FaceEntry>, sqrt: real -> real, i: nat)
    returns (j: nat)
    requires forall x :: x >= 0.0 ==> IsRoot(sqrt(x), x)
    requires AreScores(scores, emb, db, sqrt)
    requires i < |db| && db[i].embedding == emb && emb != [] && Dot(emb, emb) >= NEGLIGIBLE
    ensures j <= i && FirstBest(scores, j) && scores[j] == 1.0
  {
    SelfScore(scores[i], emb, sqrt);
    j := SomeFirstBest(scores);
    ScoreBounded(scores[j], emb, db[j].embedding, sqrt);
  }
}
