/** Embedding vectors: the local hash provider, normalization, and the two similarity measures
    of the vector backends, over exact reals. `sqrt` stands for math.Sqrt. */
module Similarity {
  import opened Prelude

  type Vector = seq<real>

  ghost predicate IsSqrt(sqrt: real -> real) {
    forall x: real :: x >= 0.0 ==> sqrt(x) >= 0.0 && sqrt(x) * sqrt(x) == x
  }

  function Dot(a: Vector, b: Vector): real
    requires |a| == |b|
  {
    if a == [] then 0.0
    else
      var n := |a| - 1;
      Dot(a[..n], b[..n]) + a[n] * b[n]
  }

  /** Σ (aᵢ - t·bᵢ)²; with t = 1 the squared Euclidean distance. */
  function Residual(a: Vector, b: Vector, t: real): real
    requires |a| == |b|
  {
    if a == [] then 0.0
    else
      var n := |a| - 1;
      Residual(a[..n], b[..n], t) + Deviation(a[n], b[n], t)
  }

  function Deviation(x: real, y: real, t: real): real { (x - t * y) * (x - t * y) }

  function SquaredDistance(a: Vector, b: Vector): real
    requires |a| == |b|
  {
    Residual(a, b, 1.0)
  }

  function Quadratic(l: real, d: real, r: real, t: real): real {
    l - 2.0 * t * d + t * t * r
  }

  lemma {:induction false} ResidualIsAQuadratic(a: Vector, b: Vector, t: real)
    requires |a| == |b|
    ensures Residual(a, b, t) == Quadratic(Dot(a, a), Dot(a, b), Dot(b, b), t)
    ensures Residual(a, b, t) >= 0.0
  {
    hide Quadratic, Deviation;
    if a == [] {
      QuadraticStep(0.0, 0.0, 0.0, 0.0, 0.0, t);
    } else {
      var n := |a| - 1;
      ResidualIsAQuadratic(a[..n], b[..n], t);
      var (l, d, r) := (Dot(a[..n], a[..n]), Dot(a[..n], b[..n]), Dot(b[..n], b[..n]));
      var (x, y) := (a[n], b[n]);
      QuadraticStep(l, d, r, x, y, t);
      assert Residual(a, b, t) == Quadratic(l + x * x, d + x * y, r + y * y, t);
      SameQuadratic(l + x * x, d + x * y, r + y * y, Dot(a, a), Dot(a, b), Dot(b, b), t);
    }
  }

  lemma SameQuadratic(l: real, d: real, r: real, l': real, d': real, r': real, t: real)
    requires l == l' && d == d' && r == r'
    ensures Quadratic(l, d, r, t) == Quadratic(l', d', r', t)
  {}

  lemma QuadraticStep(l: real, d: real, r: real, x: real, y: real, t: real)
    ensures Quadratic(l, d, r, t) + Deviation(x, y, t) == Quadratic(l + x * x, d + x * y, r + y * y, t)
    ensures Quadratic(0.0, 0.0, 0.0, t) == 0.0
    ensures Deviation(x, y, t) >= 0.0
  {
    Square(x - t * y);
    assert (x - t * y) * (x - t * y) == x * x - 2.0 * t * (x * y) + t * t * (y * y);
    assert 2.0 * t * (d + x * y) == 2.0 * t * d + 2.0 * t * (x * y);
    assert t * t * (r + y * y) == t * t * r + t * t * (y * y);
  }

  lemma Square(x: real)
    ensures x * x >= 0.0
  {}

  // Products under a name: the solver loses track of `x * x > 0` written out.
  function Times(x: real, y: real): real { x * y }

  lemma TimesOfSameSign(x: real, y: real)
    requires (x > 0.0 && y > 0.0) || (x < 0.0 && y < 0.0)
    ensures Times(x, y) > 0.0
  {}

  lemma Scale(x: real, y: real, z: real)
    requires z > 0.0
    ensures x <= y <==> x * z <= y * z
  {}

  lemma SquareGrows(x: real, y: real)
    requires 0.0 <= x < y
    ensures x * x < y * y
  {
    ProductIsPositive(y - x, y + x);
    assert (y - x) * (y + x) == y * y - x * x;
  }

  lemma SquareOrder(x: real, y: real)
    requires x >= 0.0 && y >= 0.0
    ensures x <= y <==> x * x <= y * y
  {
    if x < y {
      SquareGrows(x, y);
    } else if y < x {
      SquareGrows(y, x);
    }
  }

  lemma {:induction false} NormIsNonNegative(a: Vector)
    ensures Dot(a, a) >= 0.0
  {
    if a != [] {
      NormIsNonNegative(a[..|a| - 1]);
      Square(a[|a| - 1]);
    }
  }

  /** Cauchy–Schwarz for the three accumulators of cosineSimilarity. */
  lemma CauchySchwarz(a: Vector, b: Vector)
    requires |a| == |b|
    ensures Dot(a, b) * Dot(a, b) <= Dot(a, a) * Dot(b, b)
  {
    hide Dot, Residual, Quadratic;
    var (l, d, r) := (Dot(a, a), Dot(a, b), Dot(b, b));
    NormIsNonNegative(b);
    var t := if r != 0.0 then d / r else if d != 0.0 then (l + 1.0) / (2.0 * d) else 0.0;
    ResidualIsAQuadratic(a, b, t);
    if r > 0.0 {
      QuadraticBound(l, d, r, t);
    } else if d != 0.0 {
      NeverFlat(l, d, t);
    }
  }

  lemma NeverFlat(l: real, d: real, t: real)
    requires d != 0.0 && t == (l + 1.0) / (2.0 * d)
    ensures Quadratic(l, d, 0.0, t) < 0.0
  {
    assert t * (2.0 * d) == l + 1.0;
    assert 2.0 * t * d == t * (2.0 * d);
    assert t * t * 0.0 == 0.0;
  }

  lemma QuadraticBound(l: real, d: real, r: real, t: real)
    requires r > 0.0 && t == d / r && Quadratic(l, d, r, t) >= 0.0
    ensures d * d <= l * r
  {
    assert t * r == d;
    Cancel(t, r, d);
    assert Quadratic(l, d, r, t) == l - t * d;
    Scale(0.0, l - t * d, r);
    assert (l - t * d) * r == l * r - d * (t * r);
    Cancel(d, t * r, d);
  }

  lemma Cancel(t: real, r: real, d: real)
    requires t * r == d || r == d
    ensures t * r == d ==> t * t * r == t * d
    ensures r == d ==> t * r == t * d
  {
    if t * r == d {
      assert t * t * r == t * (t * r);
    }
  }

  // ----- Cosine similarity -----

  /** None when the source reports mismatched dimensions. */
  function Cosine(sqrt: real -> real, a: Vector, b: Vector): Option<real>
    requires IsSqrt(sqrt)
  {
    if |a| == 0 || |a| != |b| then None
    else
      NormIsNonNegative(a);
      NormIsNonNegative(b);
      if Dot(a, a) == 0.0 || Dot(b, b) == 0.0 then Some(0.0)
      else
        Some(Ratio(sqrt, Dot(a, b), Dot(a, a), Dot(b, b)))
  }

  function Ratio(sqrt: real -> real, dot: real, leftNorm: real, rightNorm: real): real
    requires IsSqrt(sqrt) && leftNorm > 0.0 && rightNorm > 0.0
  {
    SqrtIsPositive(sqrt, leftNorm);
    SqrtIsPositive(sqrt, rightNorm);
    ProductIsPositive(sqrt(leftNorm), sqrt(rightNorm));
    dot / (sqrt(leftNorm) * sqrt(rightNorm))
  }

  lemma SqrtIsPositive(sqrt: real -> real, x: real)
    requires IsSqrt(sqrt) && x > 0.0
    ensures sqrt(x) > 0.0
  {
    assert sqrt(x) * sqrt(x) == x;
  }

  lemma ProductIsPositive(x: real, y: real)
    requires x > 0.0 && y > 0.0
    ensures x * y > 0.0
  {}

  method CosineSimilarity(sqrt: real -> real, left: Vector, right: Vector) returns (r: Option<real>)
    requires IsSqrt(sqrt)
    ensures r == Cosine(sqrt, left, right)
  {
    if |left| == 0 || |left| != |right| {
      return None;
    }
    var dot, leftNorm, rightNorm := 0.0, 0.0, 0.0;
    for i := 0 to |left|
      invariant dot == Dot(left[..i], right[..i])
      invariant leftNorm == Dot(left[..i], left[..i])
      invariant rightNorm == Dot(right[..i], right[..i])
    {
      assert left[..i + 1][..i] == left[..i] && right[..i + 1][..i] == right[..i];
      dot := dot + left[i] * right[i];
      leftNorm := leftNorm + left[i] * left[i];
      rightNorm := rightNorm + right[i] * right[i];
    }
    assert left[..|left|] == left && right[..|left|] == right;
    if leftNorm == 0.0 || rightNorm == 0.0 {
      return Some(0.0);
    }
    NormIsNonNegative(left);
    NormIsNonNegative(right);
    return Some(Ratio(sqrt, dot, leftNorm, rightNorm));
  }

  /** Cosine similarity lies in [-1, 1], whatever the vectors. */
  lemma CosineIsBounded(sqrt: real -> real, a: Vector, b: Vector)
    requires IsSqrt(sqrt) && Cosine(sqrt, a, b).Some?
    ensures -1.0 <= Cosine(sqrt, a, b).value <= 1.0
  {
    NormIsNonNegative(a);
    NormIsNonNegative(b);
    if Dot(a, a) != 0.0 && Dot(b, b) != 0.0 {
      CauchySchwarz(a, b);
      RatioIsBounded(sqrt, Dot(a, b), Dot(a, a), Dot(b, b));
    }
  }

  lemma RatioIsBounded(sqrt: real -> real, d: real, l: real, r: real)
    requires IsSqrt(sqrt) && l > 0.0 && r > 0.0 && d * d <= l * r
    ensures -1.0 <= Ratio(sqrt, d, l, r) <= 1.0
  {
    var (p, q) := (sqrt(l), sqrt(r));
    SqrtIsPositive(sqrt, l);
    SqrtIsPositive(sqrt, r);
    ProductIsPositive(p, q);
    SquareOfProduct(p, q, l, r);
    BoundedBySquares(d, p * q);
  }

  lemma SquareOfProduct(p: real, q: real, l: real, r: real)
    requires p * p == l && q * q == r
    ensures (p * q) * (p * q) == l * r
  {
    calc {
      (p * q) * (p * q);
      (p * p) * (q * q);
      { Cancel(p * p, q * q, r); }
      (p * p) * r;
      { Cancel(r, p * p, l); }
      l * r;
    }
  }

  lemma BoundedBySquares(d: real, m: real)
    requires m > 0.0 && d * d <= m * m
    ensures -1.0 <= d / m <= 1.0
  {
    var e := -d;
    assert e * e == d * d;
    if m < d {
      SquareGrows(m, d);
    }
    if m < e {
      SquareGrows(m, e);
    }
    assert (d / m) * m == d;
    Scale(d / m, 1.0, m);
    Scale(-1.0, d / m, m);
  }

  // ----- Distance similarity -----

  /** Over the reals there is no NaN or infinity, so two of the source's guards never apply. */
  function L2DistanceSimilarity(distance: real): real {
    if distance <= 0.0 then 1.0 else 1.0 / (1.0 + distance)
  }

  /** The similarity the sqlite-vec backend derives from the Euclidean distance. */
  function VecSimilarity(sqrt: real -> real, query: Vector, v: Vector): real
    requires |query| == |v|
  {
    L2DistanceSimilarity(sqrt(SquaredDistance(query, v)))
  }

  lemma SimilarityFallsWithDistance(x: real, y: real)
    requires x >= 0.0 && y >= 0.0
    ensures L2DistanceSimilarity(x) >= L2DistanceSimilarity(y) <==> x <= y
    ensures 0.0 < L2DistanceSimilarity(x) <= 1.0 && L2DistanceSimilarity(x) * (1.0 + x) == 1.0
  {
    ReciprocalFalls(1.0 + x, 1.0 + y);
    ReciprocalFalls(1.0, 1.0 + x);
  }

  lemma ReciprocalFalls(x: real, y: real)
    requires x > 0.0 && y > 0.0
    ensures 1.0 / x >= 1.0 / y <==> x <= y
    ensures 1.0 / x > 0.0
  {
    var (p, q) := (1.0 / x, 1.0 / y);
    assert p * x == 1.0 && q * y == 1.0;
    Scale(p, 0.0, x);
    Scale(q, p, y);
    Scale(x, y, p);
  }

  predicate IsUnit(v: Vector) { Dot(v, v) == 1.0 }

  predicate IsZero(v: Vector) { Dot(v, v) == 0.0 }

  lemma UnitCosine(sqrt: real -> real, q: Vector, v: Vector)
    requires IsSqrt(sqrt) && |q| == |v| > 0 && IsUnit(q) && IsUnit(v)
    ensures Cosine(sqrt, q, v) == Some(Dot(q, v))
  {
    var s := sqrt(1.0);
    assert s * s == 1.0 && s >= 0.0;
    SquareOrder(s, 1.0);
    SquareOrder(1.0, s);
    var m := s * s;
    assert m == 1.0 && Dot(q, v) / m == Dot(q, v);
  }

  /** The sqlite-vec order is the order of the squared distances. */
  lemma VecOrderIsDistanceOrder(sqrt: real -> real, q: Vector, a: Vector, b: Vector)
    requires IsSqrt(sqrt) && |q| == |a| == |b|
    ensures VecSimilarity(sqrt, q, a) >= VecSimilarity(sqrt, q, b)
            <==> Dot(a, a) - 2.0 * Dot(q, a) <= Dot(b, b) - 2.0 * Dot(q, b)
  {
    hide Dot, Residual, L2DistanceSimilarity;
    ResidualIsAQuadratic(q, a, 1.0);
    ResidualIsAQuadratic(q, b, 1.0);
    var (x, y) := (sqrt(SquaredDistance(q, a)), sqrt(SquaredDistance(q, b)));
    SimilarityFallsWithDistance(x, y);
    SquareOrder(x, y);
  }

  ghost predicate BackendsAgree(sqrt: real -> real, q: Vector, a: Vector, b: Vector)
    requires IsSqrt(sqrt) && |q| == |a| == |b| > 0
  {
    VecSimilarity(sqrt, q, a) >= VecSimilarity(sqrt, q, b)
    <==> Cosine(sqrt, q, a).value >= Cosine(sqrt, q, b).value
  }

  /** Both backends order any two unit vectors alike for a unit query. */
  lemma BackendsRankUnitVectorsAlike(sqrt: real -> real, q: Vector, a: Vector, b: Vector)
    requires IsSqrt(sqrt) && |q| == |a| == |b| > 0
    requires IsUnit(q) && IsUnit(a) && IsUnit(b)
    ensures BackendsAgree(sqrt, q, a, b)
  {
    UnitCosine(sqrt, q, a);
    UnitCosine(sqrt, q, b);
    VecOrderIsDistanceOrder(sqrt, q, a, b);
  }

  lemma ZeroFactor(l: real, z: real)
    requires z == 0.0
    ensures l * z == 0.0
  {}

  lemma ZeroSquare(d: real)
    requires Times(d, d) <= 0.0
    ensures d == 0.0
  {
    hide Times;
    if d != 0.0 {
      TimesOfSameSign(d, d);
    }
  }

  lemma ZeroVectorDot(q: Vector, v: Vector)
    requires |q| == |v| && IsZero(v)
    ensures Dot(q, v) == 0.0
  {
    hide Dot;
    CauchySchwarz(q, v);
    ZeroFactor(Dot(q, q), Dot(v, v));
    ZeroSquare(Dot(q, v));
  }

  predicate UnitOrZero(v: Vector) { IsUnit(v) || IsZero(v) }

  /** Dot products that lie above a zero candidate for one backend and below it for the other. */
  predicate InTheGap(d: real) { 0.0 <= d <= 0.5 }

  /** Over every query and pair of candidates that are unit vectors or zero, the backends agree in
      both directions exactly when the candidates are both unit or both zero, or the query is unit
      and the unit candidate's dot product with it lies outside [0, 1/2]. */
  lemma BackendsAgreeExactlyWhen(sqrt: real -> real, q: Vector, a: Vector, b: Vector)
    requires IsSqrt(sqrt) && |q| == |a| == |b| > 0
    requires UnitOrZero(q) && UnitOrZero(a) && UnitOrZero(b)
    ensures BackendsAgree(sqrt, q, a, b) && BackendsAgree(sqrt, q, b, a)
            <==> (IsUnit(a) <==> IsUnit(b)) || (IsUnit(q) && !InTheGap(Dot(q, if IsUnit(a) then a else b)))
  {
    hide Dot;
    DotOfUnitOrZero(sqrt, q, a);
    DotOfUnitOrZero(sqrt, q, b);
    VecOrderIsDistanceOrder(sqrt, q, a, b);
    VecOrderIsDistanceOrder(sqrt, q, b, a);
    hide VecSimilarity, Cosine;
  }

  /** For unit vectors and zero the cosine is the dot product. */
  lemma DotOfUnitOrZero(sqrt: real -> real, q: Vector, v: Vector)
    requires IsSqrt(sqrt) && |q| == |v| > 0 && UnitOrZero(q) && UnitOrZero(v)
    ensures Cosine(sqrt, q, v) == Some(Dot(q, v))
    ensures IsZero(q) || IsZero(v) ==> Dot(q, v) == 0.0
  {
    if IsZero(v) {
      ZeroVectorDot(q, v);
    } else if IsZero(q) {
      ZeroVectorDot(v, q);
      DotIsSymmetric(q, v);
    } else {
      UnitCosine(sqrt, q, v);
    }
  }

  lemma {:induction false} DotIsSymmetric(a: Vector, b: Vector)
    requires |a| == |b|
    ensures Dot(a, b) == Dot(b, a)
  {
    if a != [] {
      DotIsSymmetric(a[..|a| - 1], b[..|b| - 1]);
    }
  }

  /** A disagreement: the zero vector beats a candidate at cosine 3/10 only in sqlite-vec. */
  lemma ZeroVectorCounterexample(sqrt: real -> real)
    requires IsSqrt(sqrt)
    ensures
      var (q, zero, v) := ([1.0, 0.0, 0.0], [0.0, 0.0, 0.0], [0.28, 0.96, 0.0]);
      && IsUnit(q) && IsZero(zero) && IsUnit(v)
      && VecSimilarity(sqrt, q, zero) >= VecSimilarity(sqrt, q, v)
      && Cosine(sqrt, q, zero).value < Cosine(sqrt, q, v).value
  {
    var (q, zero, v) := ([1.0, 0.0, 0.0], [0.0, 0.0, 0.0], [0.28, 0.96, 0.0]);
    Dot3(q, q);
    Dot3(zero, zero);
    Dot3(v, v);
    Dot3(q, v);
    Dot3(q, zero);
    UnitCosine(sqrt, q, v);
    VecOrderIsDistanceOrder(sqrt, q, zero, v);
  }

  /** Another: for a zero query all candidates tie in cosine, but sqlite-vec puts a zero candidate first. */
  lemma ZeroQueryCounterexample(sqrt: real -> real)
    requires IsSqrt(sqrt)
    ensures
      var (zero, v) := ([0.0, 0.0, 0.0], [0.28, 0.96, 0.0]);
      && IsZero(zero) && IsUnit(v)
      && VecSimilarity(sqrt, zero, zero) > VecSimilarity(sqrt, zero, v)
      && Cosine(sqrt, zero, zero) == Cosine(sqrt, zero, v)
  {
    var (zero, v) := ([0.0, 0.0, 0.0], [0.28, 0.96, 0.0]);
    Dot3(zero, zero);
    Dot3(v, v);
    Dot3(zero, v);
    VecOrderIsDistanceOrder(sqrt, zero, v, zero);
  }

  lemma Dot3(a: Vector, b: Vector)
    requires |a| == |b| == 3
    ensures Dot(a, b) == a[0] * b[0] + a[1] * b[1] + a[2] * b[2]
  {
    assert a[..2][..1][..0] == [];
    assert Dot(a[..2][..1], b[..2][..1]) == a[0] * b[0];
    assert Dot(a[..2], b[..2]) == a[0] * b[0] + a[1] * b[1];
  }

  // ----- The local hash provider -----

  function Scaled(v: Vector, norm: real): Vector
    requires norm != 0.0
  {
    seq(|v|, i requires 0 <= i < |v| => v[i] / norm)
  }

  /** The vector that normalize leaves behind. */
  function Normalized(sqrt: real -> real, v: Vector): Vector
    requires IsSqrt(sqrt)
  {
    if Dot(v, v) == 0.0 then v
    else
      NormIsNonNegative(v);
      SqrtIsPositive(sqrt, Dot(v, v));
      Scaled(v, sqrt(Dot(v, v)))
  }

  lemma {:induction false} ScaledDots(u: Vector, v: Vector, m: real, n: real)
    requires |u| == |v| && m > 0.0 && n > 0.0
    ensures Times(Dot(Scaled(u, m), Scaled(v, n)), Times(m, n)) == Dot(u, v)
  {
    if u != [] {
      var k := |u| - 1;
      LastTerms(u, v, m, n);
      OneTermScaled(u[k] / m, v[k] / n, m, n, u[k], v[k], Times(m, n));
      hide *;
      ScaledDots(u[..k], v[..k], m, n);
      SumScaled(Dot(Scaled(u[..k], m), Scaled(v[..k], n)), Times(u[k] / m, v[k] / n), Times(m, n));
    }
  }

  lemma LastTerms(u: Vector, v: Vector, m: real, n: real)
    requires |u| == |v| && u != [] && m > 0.0 && n > 0.0
    ensures
      var k := |u| - 1;
      && Dot(u, v) == Dot(u[..k], v[..k]) + Times(u[k], v[k])
      && Dot(Scaled(u, m), Scaled(v, n)) == Dot(Scaled(u[..k], m), Scaled(v[..k], n)) + Times(u[k] / m, v[k] / n)
  {
    var k := |u| - 1;
    assert Scaled(u, m)[..k] == Scaled(u[..k], m) && Scaled(v, n)[..k] == Scaled(v[..k], n);
  }

  lemma OneTermScaled(x: real, y: real, m: real, n: real, p: real, q: real, f: real)
    requires m > 0.0 && n > 0.0 && x == p / m && y == q / n && f == Times(m, n)
    ensures Times(Times(x, y), f) == Times(p, q)
  {
    assert x * m == p && y * n == q;
    calc {
      (x * y) * f;
      (x * m) * (y * n);
      { Cancel(x * m, y * n, q); }
      (x * m) * q;
      { Cancel(q, x * m, p); }
      p * q;
    }
  }

  lemma SumScaled(x: real, y: real, f: real)
    ensures Times(x + y, f) == Times(x, f) + Times(y, f)
  {
    assert (x + y) * f == x * f + y * f;
  }

  lemma UnitFactor(d: real, m: real, v: real)
    requires m > 0.0 && d * m == v && m == v
    ensures d == 1.0
  {
    Scale(d, 1.0, m);
    Scale(1.0, d, m);
  }

  /** normalize yields a unit vector, unless it is given a zero vector, which it leaves alone. */
  lemma NormalizedIsUnitOrZero(sqrt: real -> real, v: Vector)
    requires IsSqrt(sqrt)
    ensures |Normalized(sqrt, v)| == |v|
    ensures if IsZero(v) then Normalized(sqrt, v) == v else IsUnit(Normalized(sqrt, v))
  {
    if Dot(v, v) != 0.0 {
      NormIsNonNegative(v);
      var norm := sqrt(Dot(v, v));
      SqrtIsPositive(sqrt, Dot(v, v));
      ScaledDots(v, v, norm, norm);
      ProductIsPositive(norm, norm);
      UnitFactor(Dot(Scaled(v, norm), Scaled(v, norm)), norm * norm, Dot(v, v));
    }
  }

  method Normalize(sqrt: real -> real, vector: array<real>)
    requires IsSqrt(sqrt)
    modifies vector
    ensures vector[..] == Normalized(sqrt, old(vector[..]))
  {
    var norm := 0.0;
    for i := 0 to vector.Length
      invariant norm == Dot(vector[..i], vector[..i])
      invariant vector[..] == old(vector[..])
    {
      assert vector[..i + 1][..i] == vector[..i];
      norm := norm + vector[i] * vector[i];
    }
    assert vector[..vector.Length] == vector[..];
    if norm == 0.0 {
      return;
    }
    NormIsNonNegative(vector[..]);
    SqrtIsPositive(sqrt, norm);
    norm := sqrt(norm);
    for i := 0 to vector.Length
      invariant forall j :: 0 <= j < i ==> vector[j] == old(vector[j]) / norm
      invariant forall j :: i <= j < vector.Length ==> vector[j] == old(vector[j])
    {
      vector[i] := vector[i] / norm;
    }
    assert vector[..] == Scaled(old(vector[..]), norm);
  }

  const SIGN_BIT: int := 0x8000_0000_0000_0000

  function Weight(hash: nat): real { if (hash / SIGN_BIT) % 2 == 1 then -1.0 else 1.0 }

  /** The signed number of tokens hashed to one component. */
  function Tally(hashes: seq<nat>, dimensions: nat, index: nat): real
    requires dimensions > 0
  {
    if hashes == [] then 0.0
    else
      var n := |hashes| - 1;
      Tally(hashes[..n], dimensions, index)
      + (if hashes[n] % dimensions == index then Weight(hashes[n]) else 0.0)
  }

  /** The tokens hashed to one component, by the top bit of their 64-bit hash. */
  function TokensAt(hashes: seq<nat>, dimensions: nat, index: nat, topBit: bool): set<nat>
    requires dimensions > 0
  {
    set k | 0 <= k < |hashes| && hashes[k] % dimensions == index && (hashes[k] >= 0x8000_0000_0000_0000 <==> topBit)
  }

  /** A component counts its tokens without the top bit up and those with it down. */
  lemma {:induction false} TallyCountsTokens(hashes: seq<nat>, dimensions: nat, index: nat)
    requires dimensions > 0 && forall k :: 0 <= k < |hashes| ==> hashes[k] < 0x1_0000_0000_0000_0000
    ensures Tally(hashes, dimensions, index)
            == |TokensAt(hashes, dimensions, index, false)| as real - |TokensAt(hashes, dimensions, index, true)| as real
  {
    if hashes != [] {
      var n := |hashes| - 1;
      TallyCountsTokens(hashes[..n], dimensions, index);
      assert forall k :: 0 <= k < n ==> hashes[..n][k] == hashes[k];
      var own := hashes[n] % dimensions == index;
      var top := hashes[n] >= 0x8000_0000_0000_0000;
      LastToken(hashes, dimensions, index, false, own && !top);
      LastToken(hashes, dimensions, index, true, own && top);
      hide TokensAt;
    }
  }

  lemma LastToken(hashes: seq<nat>, dimensions: nat, index: nat, topBit: bool, counts: bool)
    requires dimensions > 0 && hashes != []
    requires
      var n := |hashes| - 1;
      counts == (hashes[n] % dimensions == index && (hashes[n] >= 0x8000_0000_0000_0000 <==> topBit))
    ensures |TokensAt(hashes, dimensions, index, topBit)|
            == |TokensAt(hashes[..|hashes| - 1], dimensions, index, topBit)| + if counts then 1 else 0
  {
    var n := |hashes| - 1;
    var before := TokensAt(hashes[..n], dimensions, index, topBit);
    assert forall k :: 0 <= k < n ==> hashes[..n][k] == hashes[k];
    assert TokensAt(hashes, dimensions, index, topBit) == if counts then before + {n} else before;
  }

  function Tallies(hashes: seq<nat>, dimensions: nat): Vector
    requires dimensions > 0
  {
    seq(dimensions, i requires 0 <= i < dimensions => Tally(hashes, dimensions, i))
  }

  /** Embeds a text given the hashes of its tokens. */
  method Embed(sqrt: real -> real, dimensions: nat, hashes: seq<nat>) returns (vector: array<real>)
    requires IsSqrt(sqrt) && dimensions > 0
    ensures fresh(vector) && vector[..] == Normalized(sqrt, Tallies(hashes, dimensions))
  {
    vector := new real[dimensions](i => 0.0);
    for k := 0 to |hashes|
      invariant forall i :: 0 <= i < dimensions ==> vector[i] == Tally(hashes[..k], dimensions, i)
    {
      assert hashes[..k + 1][..k] == hashes[..k];
      var index := hashes[k] % dimensions;
      var weight := 1.0;
      if (hashes[k] / SIGN_BIT) % 2 == 1 {
        weight := -1.0;
      }
      vector[index] := vector[index] + weight;
    }
    assert hashes[..|hashes|] == hashes;
    assert vector[..] == Tallies(hashes, dimensions);
    Normalize(sqrt, vector);
  }

  /** In the gap, said of vectors before they are normalized. */
  predicate TalliesInTheGap(q: Vector, v: Vector)
    requires |q| == |v|
  {
    0.0 <= Dot(q, v) && 4.0 * (Dot(q, v) * Dot(q, v)) <= Dot(q, q) * Dot(v, v)
  }

  lemma GapBeforeNormalizing(sqrt: real -> real, q: Vector, v: Vector)
    requires IsSqrt(sqrt) && |q| == |v| && !IsZero(q) && !IsZero(v)
    ensures |Normalized(sqrt, q)| == |Normalized(sqrt, v)|
    ensures InTheGap(Dot(Normalized(sqrt, q), Normalized(sqrt, v))) <==> TalliesInTheGap(q, v)
  {
    NormIsNonNegative(q);
    NormIsNonNegative(v);
    var m := sqrt(Dot(q, q));
    var n := sqrt(Dot(v, v));
    SqrtIsPositive(sqrt, Dot(q, q));
    SqrtIsPositive(sqrt, Dot(v, v));
    ScaledDots(q, v, m, n);
    assert Normalized(sqrt, q) == Scaled(q, m) && Normalized(sqrt, v) == Scaled(v, n);
    hide Dot, Scaled, Normalized, Times, InTheGap;
    GapBySquares(Dot(Scaled(q, m), Scaled(v, n)), m, n, Dot(q, q), Dot(q, v), Dot(v, v));
  }

  lemma GapBySquares(x: real, m: real, n: real, l: real, d: real, r: real)
    requires m > 0.0 && n > 0.0 && m * m == l && n * n == r && Times(x, Times(m, n)) == d
    ensures InTheGap(x) <==> 0.0 <= d && 4.0 * (d * d) <= l * r
  {
    ProductIsPositive(m, n);
    SquareOfProduct(m, n, l, r);
    HalfBySquares(x, m * n, d);
  }

  lemma HalfBySquares(x: real, p: real, d: real)
    requires p > 0.0 && x * p == d
    ensures InTheGap(x) <==> 0.0 <= d && 4.0 * (d * d) <= p * p
  {
    Scale(0.0, x, p);
    Scale(x, 0.5, p);
    assert InTheGap(x) <==> 0.0 <= d && 2.0 * d <= p;
    HalfSquared(d, p);
  }

  lemma HalfSquared(d: real, p: real)
    requires p > 0.0
    ensures 0.0 <= d && 2.0 * d <= p <==> 0.0 <= d && 4.0 * (d * d) <= p * p
  {
    var e := 2.0 * d;
    assert e * e == 4.0 * (d * d);
    if 0.0 <= d {
      SquareOrder(e, p);
    }
  }

  /** The backends order two embeddings of the local provider alike exactly when both or neither
      are zero, or the query is not and the other embedding is outside the gap; all of it can be
      told from the token counts. */
  lemma LocalEmbeddingsRankAlikeExactlyWhen(sqrt: real -> real, dimensions: nat, query: seq<nat>, x: seq<nat>, y: seq<nat>)
    requires IsSqrt(sqrt) && dimensions > 0
    ensures
      var (tq, tx, ty) := (Tallies(query, dimensions), Tallies(x, dimensions), Tallies(y, dimensions));
      var (q, a, b) := (Normalized(sqrt, tq), Normalized(sqrt, tx), Normalized(sqrt, ty));
      && |q| == |a| == |b| > 0
      && (BackendsAgree(sqrt, q, a, b) && BackendsAgree(sqrt, q, b, a)
          <==> (IsZero(tx) <==> IsZero(ty)) || (!IsZero(tq) && !TalliesInTheGap(tq, if IsZero(tx) then ty else tx)))
  {
    var (tq, tx, ty) := (Tallies(query, dimensions), Tallies(x, dimensions), Tallies(y, dimensions));
    var (q, a, b) := (Normalized(sqrt, tq), Normalized(sqrt, tx), Normalized(sqrt, ty));
    NormalizedIsUnitOrZero(sqrt, tq);
    NormalizedIsUnitOrZero(sqrt, tx);
    NormalizedIsUnitOrZero(sqrt, ty);
    BackendsAgreeExactlyWhen(sqrt, q, a, b);
    var (u, w) := if IsZero(tx) then (ty, b) else (tx, a);
    if !IsZero(tq) && !IsZero(u) {
      GapBeforeNormalizing(sqrt, tq, u);
    }
    hide Tallies, Normalized, BackendsAgree, Dot;
  }
}
