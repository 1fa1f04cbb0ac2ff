/**
 * Why normalising on both sides makes the Euclidean index rank rows as the cosine
 * index does. Arithmetic is exact here: rounding is not part of this model.
 */
module Metric {
  import opened Embedding

  // ------------------------------------------------------------- arithmetic

  /** A product, kept apart from linear arithmetic. */
  function Times(x: real, y: real): real {
    x * y
  }

  lemma Commutes(x: real, y: real)
    ensures Times(x, y) == Times(y, x)
  {
  }

  lemma Associates(x: real, y: real, z: real)
    ensures Times(x, Times(y, z)) == Times(Times(x, y), z)
  {
  }

  lemma Distributes(x: real, y: real, z: real)
    ensures Times(x, y + z) == Times(x, y) + Times(x, z)
    ensures Times(y + z, x) == Times(y, x) + Times(z, x)
  {
  }

  lemma TimesZero(x: real)
    ensures Times(x, 0.0) == 0.0 && Times(0.0, x) == 0.0
  {
  }

  lemma TimesPositive(x: real, y: real)
    requires (x > 0.0 && y > 0.0) || (x < 0.0 && y < 0.0)
    ensures Times(x, y) > 0.0
  {
  }

  lemma TimesNegative(x: real, y: real)
    requires (x > 0.0 && y < 0.0) || (x < 0.0 && y > 0.0)
    ensures Times(x, y) < 0.0
  {
  }

  lemma TimesNotZero(x: real, y: real)
    requires x != 0.0 && y != 0.0
    ensures Times(x, y) != 0.0
  {
    hide Times;
    if (x > 0.0) == (y > 0.0) {
      TimesPositive(x, y);
    } else {
      TimesNegative(x, y);
    }
  }

  lemma Square(x: real)
    ensures Times(x, x) >= 0.0 && (x != 0.0 ==> Times(x, x) > 0.0)
  {
    hide Times;
    if x == 0.0 {
      TimesZero(x);
    } else {
      TimesPositive(x, x);
    }
  }

  lemma Quotient(x: real, d: real)
    requires d != 0.0
    ensures Times(x / d, d) == x
  {
  }

  lemma QuotientIsUnique(p: real, d: real, x: real)
    requires d != 0.0 && Times(p, d) == x
    ensures x / d == p
  {
  }

  /** (x − y)² = x² − 2xy + y². */
  lemma SquareOfDifference(x: real, y: real)
    ensures Times(x - y, x - y) == Times(x, x) - 2.0 * Times(x, y) + Times(y, y)
  {
    hide Times;
    var d := x - y;
    Distributes(d, d, y);
    Distributes(x, d, y);
    Commutes(x, y);
    Distributes(y, d, y);
    Commutes(d, y);
    Commutes(d, x);
  }

  // -------------------------------------------------------------- both metrics

  function Dot(a: Vec, b: Vec): real
    requires |a| == |b|
  {
    if a == [] then 0.0 else Times(a[0], b[0]) + Dot(a[1..], b[1..])
  }

  /** The squared Euclidean distance, which orders rows as the distance does. */
  function SquaredDistance(a: Vec, b: Vec): real
    requires |a| == |b|
  {
    if a == [] then 0.0 else Times(a[0] - b[0], a[0] - b[0]) + SquaredDistance(a[1..], b[1..])
  }

  /** `n` is the Euclidean norm of `v`. */
  predicate IsNorm(v: Vec, n: real) {
    n >= 0.0 && Times(n, n) == Dot(v, v)
  }

  /** `_l2_normalize`, given the norm: a zero vector is left as it is. */
  function Normalized(v: Vec, n: real): (u: Vec)
    ensures |u| == |v|
  {
    if n != 0.0 then seq(|v|, i requires 0 <= i < |v| => v[i] / n) else v
  }

  /** `array_cosine_distance`, for vectors that are not zero. */
  function CosineDistance(a: Vec, na: real, b: Vec, nb: real): real
    requires |a| == |b| && Times(na, nb) != 0.0
  {
    1.0 - Dot(a, b) / Times(na, nb)
  }

  lemma {:induction false} DistanceIsDots(a: Vec, b: Vec)
    requires |a| == |b|
    ensures SquaredDistance(a, b) == Dot(a, a) - 2.0 * Dot(a, b) + Dot(b, b)
  {
    hide Times;
    if a != [] {
      DistanceIsDots(a[1..], b[1..]);
      SquareOfDifference(a[0], b[0]);
    }
  }

  /** (x / n)(y / m) · nm = xy. */
  lemma Quotients(x: real, n: real, y: real, m: real)
    requires n != 0.0 && m != 0.0
    ensures Times(Times(x / n, y / m), Times(n, m)) == Times(x, y)
  {
    hide Times;
    var p, q := x / n, y / m;
    Quotient(x, n);
    Quotient(y, m);
    Associates(Times(p, q), n, m);
    Associates(p, q, n);
    Commutes(q, n);
    Associates(p, n, q);
    Associates(x, q, m);
  }

  lemma NormalizedCons(v: Vec, n: real)
    requires v != [] && n != 0.0
    ensures Normalized(v, n)[0] == v[0] / n && Normalized(v, n)[1..] == Normalized(v[1..], n)
  {
  }

  lemma {:induction false} DotOfNormalized(a: Vec, n: real, b: Vec, m: real)
    requires |a| == |b| && n != 0.0 && m != 0.0
    ensures Times(Dot(Normalized(a, n), Normalized(b, m)), Times(n, m)) == Dot(a, b)
  {
    hide Times;
    if a == [] {
      TimesZero(Times(n, m));
    } else {
      var u, w, d := Normalized(a, n), Normalized(b, m), Times(n, m);
      NormalizedCons(a, n);
      NormalizedCons(b, m);
      DotOfNormalized(a[1..], n, b[1..], m);
      Quotients(a[0], n, b[0], m);
      Distributes(d, Times(u[0], w[0]), Dot(u[1..], w[1..]));
      hide Normalized;
    }
  }

  /** A normalised vector has norm one. */
  lemma NormalizedIsUnit(v: Vec, n: real)
    requires IsNorm(v, n) && n != 0.0
    ensures Dot(Normalized(v, n), Normalized(v, n)) == 1.0
  {
    hide Times;
    DotOfNormalized(v, n, v, n);
    TimesNotZero(n, n);
    var d, one := Times(n, n), Dot(Normalized(v, n), Normalized(v, n));
    QuotientIsUnique(one, d, d);
    TimesOne(d);
    QuotientIsUnique(1.0, d, d);
  }

  lemma TimesOne(x: real)
    ensures Times(1.0, x) == x
  {
  }

  /** The squared distance of the normalised vectors is twice the cosine distance. */
  lemma SquaredDistanceIsTwiceCosine(a: Vec, na: real, b: Vec, nb: real)
    requires |a| == |b| && IsNorm(a, na) && IsNorm(b, nb) && na != 0.0 && nb != 0.0
    ensures Times(na, nb) != 0.0
    ensures SquaredDistance(Normalized(a, na), Normalized(b, nb)) == 2.0 * CosineDistance(a, na, b, nb)
  {
    hide Times;
    TimesNotZero(na, nb);
    DistanceIsDots(Normalized(a, na), Normalized(b, nb));
    NormalizedIsUnit(a, na);
    NormalizedIsUnit(b, nb);
    DotOfNormalized(a, na, b, nb);
    QuotientIsUnique(Dot(Normalized(a, na), Normalized(b, nb)), Times(na, nb), Dot(a, b));
  }

  /** Both backends order any two rows alike. */
  lemma SameRanking(query: Vec, nq: real, a: Vec, na: real, b: Vec, nb: real)
    requires |query| == |a| == |b| && IsNorm(query, nq) && IsNorm(a, na) && IsNorm(b, nb)
    requires nq != 0.0 && na != 0.0 && nb != 0.0
    ensures Times(nq, na) != 0.0 && Times(nq, nb) != 0.0
    ensures SquaredDistance(Normalized(query, nq), Normalized(a, na)) < SquaredDistance(Normalized(query, nq), Normalized(b, nb)) <==>
            CosineDistance(query, nq, a, na) < CosineDistance(query, nq, b, nb)
  {
    hide Times;
    SquaredDistanceIsTwiceCosine(query, nq, a, na);
    SquaredDistanceIsTwiceCosine(query, nq, b, nb);
  }

  lemma {:induction false} DotWithZero(a: Vec, z: Vec)
    requires |a| == |z| && forall i :: 0 <= i < |z| ==> z[i] == 0.0
    ensures Dot(a, z) == 0.0
  {
    if a != [] {
      hide Times;
      TimesZero(a[0]);
      DotWithZero(a[1..], z[1..]);
    }
  }

  lemma {:induction false} DotIsPositive(v: Vec)
    ensures Dot(v, v) >= 0.0
    ensures Dot(v, v) > 0.0 || forall i :: 0 <= i < |v| ==> v[i] == 0.0
  {
    if v != [] {
      hide Times;
      DotIsPositive(v[1..]);
      Square(v[0]);
      assert forall i :: 1 <= i < |v| ==> v[i] == v[1..][i - 1];
    }
  }

  /** The zero vector, for which the cosine is undefined, stands in the Euclidean index
      where a row of cosine distance one half would. */
  lemma ZeroRanksHalfWay(query: Vec, nq: real, z: Vec)
    requires |query| == |z| && IsNorm(query, nq) && nq != 0.0 && IsNorm(z, 0.0)
    ensures SquaredDistance(Normalized(query, nq), Normalized(z, 0.0)) == 1.0
  {
    hide Times;
    TimesZero(0.0);
    DotIsPositive(z);
    DistanceIsDots(Normalized(query, nq), z);
    NormalizedIsUnit(query, nq);
    DotWithZero(Normalized(query, nq), z);
  }
}
