/**
 * Cosine similarity over the reals. The square root is a parameter: any
 * function that returns the nonnegative root of every nonnegative number.
 */
module Cosine {

  type Vector = seq<real>

  ghost predicate IsRoot(r: real, x: real) {
    r >= 0.0 && r * r == x
  }

  ghost predicate IsSqrt(sqrt: real -> real) {
    forall x: real {:trigger IsRoot(sqrt(x), x)} :: x >= 0.0 ==> IsRoot(sqrt(x), x)
  }

  function Dot(a: Vector, b: Vector): real
    requires |a| == |b|
  {
    if a == [] then 0.0 else
      var n := |a| - 1;
      Dot(a[..n], b[..n]) + a[n] * b[n]
  }

  function Scale(c: real, a: Vector): (r: Vector)
    ensures |r| == |a| && forall i :: 0 <= i < |a| ==> r[i] == c * a[i]
  {
    seq(|a|, i requires 0 <= i < |a| => c * a[i])
  }

  /** `max(0.0, min(1.0, x))` */
  function Clamp(x: real): real {
    var capped := if x < 1.0 then x else 1.0;
    if capped > 0.0 then capped else 0.0
  }

  function Ratio(d: real, m: real, n: real): real
    requires m != 0.0 && n != 0.0
  {
    assert m * n != 0.0;
    d / (m * n)
  }

  /** The score before it is moved to the unit interval. */
  function RawCosine(sqrt: real -> real, a: Vector, b: Vector): real
    requires |a| == |b|
    requires sqrt(Dot(a, a)) != 0.0 && sqrt(Dot(b, b)) != 0.0
  {
    Ratio(Dot(a, b), sqrt(Dot(a, a)), sqrt(Dot(b, b)))
  }

  /** The score of two vectors; empty, unequal or zero vectors score zero. */
  function Similarity(sqrt: real -> real, a: Vector, b: Vector): (r: real)
    ensures 0.0 <= r <= 1.0
  {
    if a == [] || b == [] || |a| != |b| then 0.0
    else if sqrt(Dot(a, a)) == 0.0 || sqrt(Dot(b, b)) == 0.0 then 0.0
    else Clamp((RawCosine(sqrt, a, b) + 1.0) / 2.0)
  }

  ghost predicate NonZero(a: Vector) {
    exists i :: 0 <= i < |a| && a[i] != 0.0
  }

  // Real arithmetic

  lemma SquareOfDifference(p: real, x: real, q: real, y: real)
    ensures Sq(p * x - q * y) == p * p * (x * x) - 2.0 * (p * q) * (x * y) + q * q * (y * y)
  {
  }

  lemma Distribute(c: real, x: real, y: real)
    ensures c * (x + y) == c * x + c * y
  {
  }

  lemma ProductRegroup(c: real, x: real, y: real)
    ensures (c * x) * y == c * (x * y)
    ensures y * (c * x) == c * (x * y)
  {
  }

  lemma SquareOfProduct(x: real, y: real)
    ensures (x * y) * (x * y) == (x * x) * (y * y)
  {
  }

  lemma ProductPositive(x: real, y: real)
    requires x > 0.0 && y > 0.0
    ensures x * y > 0.0
  {
  }

  lemma PositiveWhenProduct(x: real, y: real, z: real)
    requires x > 0.0 && y > 0.0 && z == x * y
    ensures z > 0.0
  {
  }

  ghost function Sq(x: real): real { x * x }

  lemma SquareOfPositive(x: real)
    requires x > 0.0
    ensures Sq(x) > 0.0
  {
    PositiveWhenProduct(x, x, Sq(x));
  }

  lemma SquareOfNegation(x: real, y: real)
    requires y == -x
    ensures Sq(x) == Sq(y)
  {
  }

  lemma Square(x: real)
    ensures Sq(x) >= 0.0
    ensures x != 0.0 ==> Sq(x) > 0.0
    ensures x == 0.0 ==> Sq(x) == 0.0
  {
    if x > 0.0 {
      SquareOfPositive(x);
    } else if x < 0.0 {
      SquareOfNegation(x, -x);
      SquareOfPositive(-x);
    }
  }

  lemma SquareGrows(x: real, y: real)
    requires 0.0 <= x < y
    ensures x * x < y * y
  {
    ProductPositive(y - x, y + x);
    assert (y - x) * (y + x) == y * y - x * x;
  }

  lemma RootUnique(x: real, y: real)
    requires x >= 0.0 && y >= 0.0 && x * x == y * y
    ensures x == y
  {
    if x < y {
      SquareGrows(x, y);
    } else if y < x {
      SquareGrows(y, x);
    }
  }

  lemma AbsFromSquares(d: real, m: real)
    requires m >= 0.0 && d * d <= m * m
    ensures -m <= d <= m
  {
    if d > m {
      SquareGrows(m, d);
    } else if d < -m {
      assert (-d) * (-d) == d * d;
      SquareGrows(m, -d);
    }
  }

  lemma FactorSign(y: real, gap: real)
    requires y > 0.0
    ensures y * gap >= 0.0 <==> gap >= 0.0
    ensures y * gap == 0.0 <==> gap == 0.0
  {
  }

  // Sums of squares

  /** The sum over i of (p * a[i] - q * b[i]) squared. */
  ghost function Residual(p: real, a: Vector, q: real, b: Vector): real
    requires |a| == |b|
  {
    if a == [] then 0.0 else
      var n := |a| - 1;
      Residual(p, a[..n], q, b[..n]) + Sq(p * a[n] - q * b[n])
  }

  ghost function Quadratic(p: real, x: real, q: real, d: real, y: real): real {
    p * p * x - 2.0 * (p * q) * d + q * q * y
  }

  /** One more component (u, v) adds the square of its difference. */
  lemma QuadraticAdds(p: real, q: real, u: real, v: real, x: real, d: real, y: real, x': real, d': real, y': real,
          e: real)
    requires x' == x + u * u && d' == d + u * v && y' == y + v * v && e == p * u - q * v
    ensures Quadratic(p, x', q, d', y') == Quadratic(p, x, q, d, y) + Sq(e)
  {
    SquareOfDifference(p, u, q, v);
    Distribute(p * p, x, u * u);
    Distribute(2.0 * (p * q), d, u * v);
    Distribute(q * q, y, v * v);
  }

  lemma QuadraticOfZero(p: real, q: real)
    ensures Quadratic(p, 0.0, q, 0.0, 0.0) == 0.0
  {
  }

  lemma {:induction false} ResidualExpands(p: real, a: Vector, q: real, b: Vector)
    requires |a| == |b|
    ensures Residual(p, a, q, b) == Quadratic(p, Dot(a, a), q, Dot(a, b), Dot(b, b))
  {
    hide Quadratic;
    if a == [] {
      QuadraticOfZero(p, q);
    } else {
      var n := |a| - 1;
      ResidualExpands(p, a[..n], q, b[..n]);
      QuadraticAdds(p, q, a[n], b[n], Dot(a[..n], a[..n]), Dot(a[..n], b[..n]), Dot(b[..n], b[..n]),
                    Dot(a, a), Dot(a, b), Dot(b, b), p * a[n] - q * b[n]);
    }
  }

  lemma {:induction false} ResidualNonNegative(p: real, a: Vector, q: real, b: Vector)
    requires |a| == |b|
    ensures Residual(p, a, q, b) >= 0.0
    ensures Residual(p, a, q, b) == 0.0 ==> forall i :: 0 <= i < |a| ==> p * a[i] == q * b[i]
  {
    if a != [] {
      var n := |a| - 1;
      ResidualNonNegative(p, a[..n], q, b[..n]);
      var d := p * a[n] - q * b[n];
      Square(d);
      if Residual(p, a, q, b) == 0.0 {
        forall i | 0 <= i < |a| ensures p * a[i] == q * b[i] {
          if i < n {
            assert p * a[..n][i] == q * b[..n][i];
          }
        }
      }
    }
  }

  lemma {:induction false} DotNonNegative(a: Vector)
    ensures Dot(a, a) >= 0.0
    ensures Dot(a, a) == 0.0 <==> !NonZero(a)
  {
    if a != [] {
      var n := |a| - 1;
      DotNonNegative(a[..n]);
      Square(a[n]);
      assert Dot(a, a) == Dot(a[..n], a[..n]) + Sq(a[n]);
      if NonZero(a[..n]) {
        var i :| 0 <= i < n && a[..n][i] != 0.0;
        assert a[i] != 0.0;
      } else if a[n] == 0.0 {
        assert forall i :: 0 <= i < n ==> a[..n][i] == a[i];
      }
    }
  }

  lemma LagrangeAlgebra(x: real, y: real, d: real)
    ensures Quadratic(y, x, d, d, y) == y * (x * y - d * d)
  {
  }

  lemma LagrangeIdentity(a: Vector, b: Vector, x: real, y: real, d: real)
    requires |a| == |b| && x == Dot(a, a) && y == Dot(b, b) && d == Dot(a, b)
    ensures Residual(y, a, d, b) == y * (x * y - d * d)
  {
    ResidualExpands(y, a, d, b);
    LagrangeAlgebra(x, y, d);
  }

  lemma GapNonNegative(x: real, y: real, d: real, residual: real)
    requires y > 0.0 && residual >= 0.0 && residual == y * (x * y - d * d)
    ensures d * d <= x * y
  {
    FactorSign(y, x * y - d * d);
  }

  lemma CauchySchwarz(a: Vector, b: Vector)
    requires |a| == |b|
    ensures Dot(a, b) * Dot(a, b) <= Dot(a, a) * Dot(b, b)
  {
    var x, y, d := Dot(a, a), Dot(b, b), Dot(a, b);
    DotNonNegative(b);
    if y > 0.0 {
      LagrangeIdentity(a, b, x, y, d);
      ResidualNonNegative(y, a, d, b);
      GapNonNegative(x, y, d, Residual(y, a, d, b));
    } else {
      ZeroDot(a, b);
    }
  }

  lemma {:induction false} ZeroDot(a: Vector, b: Vector)
    requires |a| == |b| && !NonZero(b)
    ensures Dot(a, b) == 0.0
  {
    if a != [] {
      var n := |a| - 1;
      assert b[n] == 0.0;
      assert !NonZero(b[..n]) by {
        assert forall i :: 0 <= i < n ==> b[..n][i] == b[i];
      }
      ZeroDot(a[..n], b[..n]);
    }
  }

  // Roots

  lemma Root(sqrt: real -> real, x: real)
    requires IsSqrt(sqrt) && x >= 0.0
    ensures sqrt(x) >= 0.0 && sqrt(x) * sqrt(x) == x
    ensures sqrt(x) == 0.0 <==> x == 0.0
  {
    assert IsRoot(sqrt(x), x);
    Square(sqrt(x));
  }

  lemma Norms(sqrt: real -> real, a: Vector, b: Vector)
    requires IsSqrt(sqrt) && |a| == |b| && NonZero(a) && NonZero(b)
    ensures sqrt(Dot(a, a)) > 0.0 && sqrt(Dot(b, b)) > 0.0
    ensures var m := sqrt(Dot(a, a)) * sqrt(Dot(b, b)); m > 0.0 && m * m == Dot(a, a) * Dot(b, b)
  {
    DotNonNegative(a);
    DotNonNegative(b);
    Root(sqrt, Dot(a, a));
    Root(sqrt, Dot(b, b));
    ProductPositive(sqrt(Dot(a, a)), sqrt(Dot(b, b)));
    SquareOfProduct(sqrt(Dot(a, a)), sqrt(Dot(b, b)));
  }

  // What the score means

  lemma QuotientInUnit(d: real, m: real)
    requires m > 0.0 && -m <= d <= m
    ensures -1.0 <= d / m <= 1.0
    ensures d / m == 1.0 <==> d == m
  {
  }

  lemma DotWithinNorms(sqrt: real -> real, a: Vector, b: Vector)
    requires IsSqrt(sqrt) && |a| == |b| && NonZero(a) && NonZero(b)
    ensures var m := sqrt(Dot(a, a)) * sqrt(Dot(b, b)); m > 0.0 && -m <= Dot(a, b) <= m
  {
    hide Dot;
    Norms(sqrt, a, b);
    CauchySchwarz(a, b);
    AbsFromSquares(Dot(a, b), sqrt(Dot(a, a)) * sqrt(Dot(b, b)));
  }

  /** For nonzero vectors of equal length the clamp changes nothing. */
  lemma ClampNeverFires(sqrt: real -> real, a: Vector, b: Vector)
    requires IsSqrt(sqrt) && |a| == |b| && NonZero(a) && NonZero(b)
    ensures sqrt(Dot(a, a)) != 0.0 && sqrt(Dot(b, b)) != 0.0
    ensures -1.0 <= RawCosine(sqrt, a, b) <= 1.0
    ensures Similarity(sqrt, a, b) == (RawCosine(sqrt, a, b) + 1.0) / 2.0
  {
    hide Dot;
    Norms(sqrt, a, b);
    DotWithinNorms(sqrt, a, b);
    QuotientInUnit(Dot(a, b), sqrt(Dot(a, a)) * sqrt(Dot(b, b)));
  }

  /**
   * The score is the cosine, the dot product over the product of the norms,
   * moved from [-1, 1] to [0, 1]; it is zero for empty, unequal or zero vectors.
   */
  lemma ScoreMeaning(sqrt: real -> real, a: Vector, b: Vector, m: real, n: real)
    requires IsSqrt(sqrt)
    ensures |a| != |b| || !NonZero(a) || !NonZero(b) ==> Similarity(sqrt, a, b) == 0.0
    ensures |a| == |b| && NonZero(a) && NonZero(b)
            && m >= 0.0 && n >= 0.0 && m * m == Dot(a, a) && n * n == Dot(b, b) ==>
              (2.0 * Similarity(sqrt, a, b) - 1.0) * (m * n) == Dot(a, b)
  {
    hide Dot;
    if |a| == |b| {
      DotNonNegative(a);
      DotNonNegative(b);
      Root(sqrt, Dot(a, a));
      Root(sqrt, Dot(b, b));
      if NonZero(a) && NonZero(b) && m >= 0.0 && n >= 0.0 && m * m == Dot(a, a) && n * n == Dot(b, b) {
        ClampNeverFires(sqrt, a, b);
        RootUnique(m, sqrt(Dot(a, a)));
        RootUnique(n, sqrt(Dot(b, b)));
      }
    }
  }

  /** Two vectors of norm five, with the dot product 24. */
  lemma ScoreExample(sqrt: real -> real)
    requires IsSqrt(sqrt)
    ensures Similarity(sqrt, [3.0, 4.0], [4.0, 3.0]) == 0.98
  {
    var a, b := [3.0, 4.0], [4.0, 3.0];
    assert a[..1] == [3.0] && b[..1] == [4.0] && [3.0][..0] == [] && [4.0][..0] == [];
    assert Dot(a, a) == 25.0 && Dot(b, b) == 25.0 && Dot(a, b) == 24.0;
    assert a[0] != 0.0 && b[0] != 0.0;
    ScoreMeaning(sqrt, a, b, 5.0, 5.0);
  }

  /** The raw score is one exactly when the Cauchy-Schwarz inequality is an equality with a positive product. */
  lemma FullScore(sqrt: real -> real, a: Vector, b: Vector)
    requires IsSqrt(sqrt) && |a| == |b| && NonZero(a) && NonZero(b)
    ensures Similarity(sqrt, a, b) == 1.0 <==> Dot(a, b) == sqrt(Dot(a, a)) * sqrt(Dot(b, b))
  {
    hide Dot;
    hide Similarity;
    ClampNeverFires(sqrt, a, b);
    Norms(sqrt, a, b);
    DotWithinNorms(sqrt, a, b);
    QuotientInUnit(Dot(a, b), sqrt(Dot(a, a)) * sqrt(Dot(b, b)));
  }

  // Scaling

  lemma ScaledTerm(c: real, rest: real, x: real, y: real, cx: real)
    requires cx == c * x
    ensures c * rest + cx * y == c * (rest + x * y)
  {
  }

  lemma {:induction false} DotSymmetric(a: Vector, b: Vector)
    requires |a| == |b|
    ensures Dot(a, b) == Dot(b, a)
  {
    if a != [] {
      var n := |a| - 1;
      DotSymmetric(a[..n], b[..n]);
    }
  }

  lemma {:induction false} DotScale(c: real, a: Vector, b: Vector)
    requires |a| == |b|
    ensures Dot(Scale(c, a), b) == c * Dot(a, b)
  {
    if a != [] {
      var n := |a| - 1;
      DotScale(c, a[..n], b[..n]);
      ScalePrefix(c, a);
      ScaledTerm(c, Dot(a[..n], b[..n]), a[n], b[n], Scale(c, a)[n]);
    }
  }

  lemma ScalePrefix(c: real, a: Vector)
    requires a != []
    ensures Scale(c, a)[..|a| - 1] == Scale(c, a[..|a| - 1])
  {
    var n := |a| - 1;
    forall i | 0 <= i < n ensures Scale(c, a)[..n][i] == Scale(c, a[..n])[i] {
      assert a[..n][i] == a[i];
    }
  }

  lemma ScaledRoot(c: real, r: real, x: real, s: real)
    requires c > 0.0 && r >= 0.0 && r * r == x && s >= 0.0 && s * s == c * (c * x)
    ensures s == c * r
  {
    SquareOfProduct(c, r);
    ProductRegroup(c, c, x);
    FactorSign(c, r);
    RootUnique(s, c * r);
  }

  lemma ScaledNorm(sqrt: real -> real, c: real, a: Vector)
    requires IsSqrt(sqrt) && c > 0.0
    ensures sqrt(Dot(Scale(c, a), Scale(c, a))) == c * sqrt(Dot(a, a))
  {
    DotScale(c, a, a);
    DotScale(c, a, Scale(c, a));
    DotSymmetric(a, Scale(c, a));
    DotNonNegative(a);
    DotNonNegative(Scale(c, a));
    Root(sqrt, Dot(a, a));
    Root(sqrt, Dot(Scale(c, a), Scale(c, a)));
    ScaledRoot(c, sqrt(Dot(a, a)), Dot(a, a), sqrt(Dot(Scale(c, a), Scale(c, a))));
  }

  lemma CancelFactor(c: real, d: real, m: real, n: real, cd: real, cm: real)
    requires c > 0.0 && m > 0.0 && n > 0.0 && cd == c * d && cm == c * m
    ensures cm != 0.0 && Ratio(cd, cm, n) == Ratio(d, m, n)
  {
  }

  /** Stretching the query changes no score. */
  lemma ScaleInvariant(sqrt: real -> real, c: real, a: Vector, b: Vector)
    requires IsSqrt(sqrt) && c > 0.0
    ensures Similarity(sqrt, Scale(c, a), b) == Similarity(sqrt, a, b)
  {
    hide Dot;
    hide Clamp;
    hide Ratio;
    hide Scale;
    if a != [] && |a| == |b| {
      ScaledNorm(sqrt, c, a);
      DotScale(c, a, b);
      DotNonNegative(a);
      DotNonNegative(b);
      Root(sqrt, Dot(a, a));
      Root(sqrt, Dot(b, b));
      FactorSign(c, sqrt(Dot(a, a)));
      if sqrt(Dot(a, a)) != 0.0 && sqrt(Dot(b, b)) != 0.0 {
        CancelFactor(c, Dot(a, b), sqrt(Dot(a, a)), sqrt(Dot(b, b)),
                     Dot(Scale(c, a), b), sqrt(Dot(Scale(c, a), Scale(c, a))));
      }
    }
  }

  lemma SelfScore(sqrt: real -> real, a: Vector)
    requires IsSqrt(sqrt) && NonZero(a)
    ensures Similarity(sqrt, a, a) == 1.0
  {
    DotNonNegative(a);
    Root(sqrt, Dot(a, a));
    FullScore(sqrt, a, a);
  }

  lemma {:induction false} FullScoreResidual(sqrt: real -> real, a: Vector, b: Vector, x: real, y: real, d: real)
    requires IsSqrt(sqrt) && |a| == |b| && NonZero(a) && NonZero(b)
    requires x == Dot(a, a) && y == Dot(b, b) && d == Dot(a, b)
    requires Similarity(sqrt, a, b) == 1.0
    ensures y > 0.0 && d > 0.0 && Residual(y, a, d, b) == 0.0
  {
    FullScore(sqrt, a, b);
    Norms(sqrt, a, b);
    DotNonNegative(b);
    LagrangeIdentity(a, b, x, y, d);
    ZeroGap(x, y, d, Residual(y, a, d, b));
  }

  lemma ZeroGap(x: real, y: real, d: real, residual: real)
    requires d * d == x * y && residual == y * (x * y - d * d)
    ensures residual == 0.0
  {
  }

  lemma ZeroResidualIsScale(a: Vector, b: Vector, y: real, d: real) returns (c: real)
    requires |a| == |b| && y > 0.0 && d > 0.0 && Residual(y, a, d, b) == 0.0
    ensures c > 0.0 && a == Scale(c, b)
  {
    ResidualNonNegative(y, a, d, b);
    c := d / y;
    forall i | 0 <= i < |a| ensures a[i] == Scale(c, b)[i] {
      SolveFor(a[i], y, d, b[i]);
    }
  }

  lemma FullScoreIsScale(sqrt: real -> real, a: Vector, b: Vector) returns (c: real)
    requires IsSqrt(sqrt) && |a| == |b| && NonZero(a) && NonZero(b)
    requires Similarity(sqrt, a, b) == 1.0
    ensures c > 0.0 && a == Scale(c, b)
  {
    FullScoreResidual(sqrt, a, b, Dot(a, a), Dot(b, b), Dot(a, b));
    c := ZeroResidualIsScale(a, b, Dot(b, b), Dot(a, b));
  }

  lemma ScaleScoresFull(sqrt: real -> real, c: real, b: Vector)
    requires IsSqrt(sqrt) && c > 0.0 && NonZero(b)
    ensures Similarity(sqrt, Scale(c, b), b) == 1.0
  {
    ScaleInvariant(sqrt, c, b, b);
    SelfScore(sqrt, b);
  }

  /**
   * Among vectors of the query's length, the full score marks exactly the
   * positive multiples of the query; a stored copy of the query is one.
   */
  lemma FullScoreMeansParallel(sqrt: real -> real, a: Vector, b: Vector)
    requires IsSqrt(sqrt) && |a| == |b| && NonZero(a) && NonZero(b)
    ensures Similarity(sqrt, a, b) == 1.0 <==> exists c: real :: c > 0.0 && a == Scale(c, b)
  {
    if Similarity(sqrt, a, b) == 1.0 {
      var c := FullScoreIsScale(sqrt, a, b);
    }
    if c: real :| c > 0.0 && a == Scale(c, b) {
      ScaleScoresFull(sqrt, c, b);
    }
  }

  lemma SolveFor(x: real, y: real, d: real, z: real)
    requires y > 0.0 && y * x == d * z
    ensures x == d / y * z
  {
  }
}
