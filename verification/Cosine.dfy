// cache/keys.py: cosine similarity of two embedding vectors, over exact reals.
module Cosine {

  // math.sqrt.
  ghost predicate IsSqrt(root: real -> real) {
    forall x: real :: x >= 0.0 ==> root(x) >= 0.0 && root(x) * root(x) == x
  }

  function Dot(a: seq<real>, b: seq<real>): real
    requires |a| == |b|
  {
    if a == [] then 0.0 else a[0] * b[0] + Dot(a[1..], b[1..])
  }

  function CosineSimilarity(root: real -> real, a: seq<real>, b: seq<real>): real {
    if |a| != |b| || a == [] then -1.0
    else Ratio(Dot(a, b), root(Dot(a, a)), root(Dot(b, b)))
  }

  function Ratio(dot: real, normA: real, normB: real): real {
    if normA == 0.0 || normB == 0.0 then -1.0
    else
      ProductNonzero(normA, normB);
      dot / (normA * normB)
  }

  lemma ProductPositive(x: real, y: real)
    ensures x > 0.0 && y > 0.0 ==> x * y > 0.0
    ensures x >= 0.0 && y >= 0.0 ==> x * y >= 0.0
  {
  }

  lemma ProductNonzero(x: real, y: real)
    requires x != 0.0 && y != 0.0
    ensures x * y != 0.0
  {
  }

  lemma Regroup(x: real, y: real)
    ensures (x * y) * (x * y) == (x * x) * (y * y)
  {
  }

  lemma {:induction false} DotSelfNonnegative(a: seq<real>)
    ensures Dot(a, a) >= 0.0
  {
    if a != [] {
      DotSelfNonnegative(a[1..]);
      assert a[0] * a[0] >= 0.0;
    }
  }

  lemma {:induction false} DotSymmetric(a: seq<real>, b: seq<real>)
    requires |a| == |b|
    ensures Dot(a, b) == Dot(b, a)
  {
    if a != [] {
      DotSymmetric(a[1..], b[1..]);
      assert a[0] * b[0] == b[0] * a[0];
    }
  }

  lemma SquareOrder(p: real, q: real)
    requires q >= 0.0 && p * p <= q * q
    ensures -q <= p <= q
  {
    if p > q {
      SquareAbove(p, q);
    } else if -p > q {
      SquareBelow(p, q);
    }
  }

  lemma SquareAbove(p: real, q: real)
    requires p > q >= 0.0
    ensures p * p > q * q
  {
    var d, s := p - q, p + q;
    ProductPositive(d, s);
    assert p * p - q * q == d * s;
  }

  lemma SquareBelow(p: real, q: real)
    requires -p > q >= 0.0
    ensures p * p > q * q
  {
    SquareAbove(-p, q);
    assert (-p) * (-p) == p * p;
  }

  // One more coordinate: d is the product of the rest, s and t their squared norms.
  lemma OneMoreCoordinate(x: real, y: real, d: real, s: real, t: real)
    requires s >= 0.0 && t >= 0.0 && d * d <= s * t
    ensures (x * y + d) * (x * y + d) <= (x * x + s) * (y * y + t)
  {
    var u, v := x * x * t, y * y * s;
    var cross := 2.0 * (x * y) * d;
    SquaresNonnegative(x, y, s, t);
    CrossBound(x, y, d, s, t);
    SquareOrder(cross, u + v);
    assert (x * y + d) * (x * y + d) == (x * y) * (x * y) + cross + d * d;
    assert (x * x + s) * (y * y + t) == (x * x) * (y * y) + u + v + s * t;
    assert (x * y) * (x * y) == (x * x) * (y * y);
  }

  lemma SquaresNonnegative(x: real, y: real, s: real, t: real)
    requires s >= 0.0 && t >= 0.0
    ensures x * x * t >= 0.0 && y * y * s >= 0.0
  {
    assert x * x >= 0.0 && y * y >= 0.0;
  }

  lemma CrossBound(x: real, y: real, d: real, s: real, t: real)
    requires d * d <= s * t
    ensures var u, v, cross := x * x * t, y * y * s, 2.0 * (x * y) * d;
            cross * cross <= (u + v) * (u + v)
  {
  }

  lemma AddCoordinate(x: real, y: real, d: real, s: real, t: real, d': real, s': real, t': real)
    requires s >= 0.0 && t >= 0.0 && d * d <= s * t
    requires d' == x * y + d && s' == x * x + s && t' == y * y + t
    ensures d' * d' <= s' * t'
  {
    OneMoreCoordinate(x, y, d, s, t);
  }

  lemma {:induction false} CauchySchwarz(a: seq<real>, b: seq<real>)
    requires |a| == |b|
    ensures Dot(a, b) * Dot(a, b) <= Dot(a, a) * Dot(b, b)
  {
    if a != [] {
      var v, w := a[1..], b[1..];
      CauchySchwarz(v, w);
      DotSelfNonnegative(v);
      DotSelfNonnegative(w);
      AddCoordinate(a[0], b[0], Dot(v, w), Dot(v, v), Dot(w, w), Dot(a, b), Dot(a, a), Dot(b, b));
    }
  }

  // Similarities lie between -1 and 1, for vectors of any length.
  lemma CosineInRange(root: real -> real, a: seq<real>, b: seq<real>)
    requires IsSqrt(root)
    ensures -1.0 <= CosineSimilarity(root, a, b) <= 1.0
  {
    if |a| == |b| && a != [] {
      CauchySchwarz(a, b);
      DotSelfNonnegative(a);
      DotSelfNonnegative(b);
      var n, m := root(Dot(a, a)), root(Dot(b, b));
      assert n >= 0.0 && n * n == Dot(a, a) && m >= 0.0 && m * m == Dot(b, b);
      RatioInRange(Dot(a, b), n, m);
    }
  }

  lemma RatioInRange(d: real, n: real, m: real)
    requires n >= 0.0 && m >= 0.0 && d * d <= (n * n) * (m * m)
    ensures -1.0 <= Ratio(d, n, m) <= 1.0
  {
    if n != 0.0 && m != 0.0 {
      ProductPositive(n, m);
      Regroup(n, m);
      SquareOrder(d, n * m);
      Quotient(d, n * m);
    }
  }

  lemma Quotient(d: real, n: real)
    requires n > 0.0 && -n <= d <= n
    ensures -1.0 <= d / n <= 1.0
  {
  }

  lemma CosineSymmetric(root: real -> real, a: seq<real>, b: seq<real>)
    ensures CosineSimilarity(root, a, b) == CosineSimilarity(root, b, a)
  {
    if |a| == |b| {
      DotSymmetric(a, b);
      assert root(Dot(a, a)) * root(Dot(b, b)) == root(Dot(b, b)) * root(Dot(a, a));
    }
  }

  predicate Nonzero(a: seq<real>) {
    exists i :: 0 <= i < |a| && a[i] != 0.0
  }

  function Times(x: real, y: real): real {
    x * y
  }

  lemma TimesPositive(x: real, y: real)
    requires x > 0.0 && y > 0.0
    ensures Times(x, y) > 0.0
  {
  }

  lemma SquarePositive(x: real)
    ensures x != 0.0 ==> Times(x, x) > 0.0
    ensures x == 0.0 ==> Times(x, x) == 0.0
  {
    if x > 0.0 {
      TimesPositive(x, x);
    } else if x < 0.0 {
      TimesPositive(-x, -x);
      assert Times(x, x) == Times(-x, -x);
    }
  }

  lemma {:induction false} NonzeroNorm(a: seq<real>)
    ensures Nonzero(a) <==> Dot(a, a) > 0.0
  {
    if a == [] {
    } else {
      var rest := a[1..];
      NonzeroNorm(rest);
      DotSelfNonnegative(rest);
      SquarePositive(a[0]);
      assert Dot(a, a) == Times(a[0], a[0]) + Dot(rest, rest);
      NonzeroSplit(a);
    }
  }

  lemma NonzeroSplit(a: seq<real>)
    requires a != []
    ensures Nonzero(a) <==> a[0] != 0.0 || Nonzero(a[1..])
  {
  }

  function Scale(t: real, a: seq<real>): (r: seq<real>)
    ensures |r| == |a|
    ensures forall i :: 0 <= i < |a| ==> r[i] == t * a[i]
  {
    if a == [] then [] else [t * a[0]] + Scale(t, a[1..])
  }

  lemma {:induction false} DotScaled(t: real, a: seq<real>)
    ensures Dot(a, Scale(t, a)) == t * Dot(a, a)
    ensures Dot(Scale(t, a), Scale(t, a)) == t * t * Dot(a, a)
  {
    if a != [] {
      DotScaled(t, a[1..]);
      var x, d := a[0], Dot(a[1..], a[1..]);
      assert Scale(t, a)[0] == t * x && Scale(t, a)[1..] == Scale(t, a[1..]);
      assert x * (t * x) + t * d == t * (x * x + d);
      assert (t * x) * (t * x) + t * t * d == t * t * (x * x + d);
    }
  }

  // A vector other than zero has similarity 1 to itself and to every positive multiple of it;
  // the zero vector and vectors of another length have similarity -1 to everything.
  lemma ParallelIsOne(root: real -> real, a: seq<real>, t: real)
    requires IsSqrt(root) && t > 0.0
    ensures CosineSimilarity(root, a, Scale(t, a)) == if Nonzero(a) then 1.0 else -1.0
  {
    NonzeroNorm(a);
    DotScaled(t, a);
    DotSelfNonnegative(a);
    var d, e := Dot(a, a), Dot(Scale(t, a), Scale(t, a));
    RootOfScaled(root, t, d, e);
    if a != [] {
      assert CosineSimilarity(root, a, Scale(t, a)) == Ratio(Dot(a, Scale(t, a)), root(d), root(e));
      if d > 0.0 {
        ProductPositive(t, d);
        RatioIsOne(Dot(a, Scale(t, a)), root(d), root(e));
      }
    }
  }

  lemma RatioIsOne(d: real, n: real, m: real)
    requires d > 0.0 && n * m == d
    ensures Ratio(d, n, m) == 1.0
  {
    assert n != 0.0 && m != 0.0;
    assert d / d == 1.0;
  }

  lemma RootOfScaled(root: real -> real, t: real, d: real, e: real)
    requires IsSqrt(root) && t > 0.0 && d >= 0.0 && e == t * t * d
    ensures root(e) == t * root(d) && root(d) * root(e) == t * d
    ensures root(d) == 0.0 <==> d == 0.0
  {
    var n, m := root(d), root(e);
    ProductPositive(t, t);
    ProductPositive(t * t, d);
    assert n >= 0.0 && n * n == d && m >= 0.0 && m * m == e;
    ProductPositive(t, n);
    Regroup(t, n);
    SquareOrder(m, t * n);
    SquareOrder(t * n, m);
    assert n * (t * n) == t * (n * n);
  }

  lemma {:induction false} ScaleByOne(a: seq<real>)
    ensures Scale(1.0, a) == a
  {
    if a != [] {
      ScaleByOne(a[1..]);
    }
  }

  lemma SelfIsOne(root: real -> real, a: seq<real>)
    requires IsSqrt(root)
    ensures CosineSimilarity(root, a, a) == if Nonzero(a) then 1.0 else -1.0
  {
    ParallelIsOne(root, a, 1.0);
    ScaleByOne(a);
  }

  // --- the value ---

  predicate Defined(a: seq<real>, b: seq<real>) {
    |a| == |b| && Nonzero(a) && Nonzero(b)
  }

  lemma NormOfNonzero(root: real -> real, a: seq<real>)
    requires IsSqrt(root) && Nonzero(a)
    ensures root(Dot(a, a)) > 0.0 && root(Dot(a, a)) * root(Dot(a, a)) == Dot(a, a)
  {
    NonzeroNorm(a);
    assert root(Dot(a, a)) >= 0.0;
  }

  lemma TimesDivisor(d: real, p: real)
    requires p != 0.0
    ensures (d / p) * p == d
  {
  }

  lemma CosineIsRatio(root: real -> real, a: seq<real>, b: seq<real>)
    requires IsSqrt(root) && Defined(a, b)
    ensures root(Dot(a, a)) > 0.0 && root(Dot(b, b)) > 0.0
    ensures CosineSimilarity(root, a, b) == Ratio(Dot(a, b), root(Dot(a, a)), root(Dot(b, b)))
  {
    NormOfNonzero(root, a);
    NormOfNonzero(root, b);
  }

  lemma RatioTimes(c: real, d: real, n: real, m: real)
    requires n > 0.0 && m > 0.0 && c == Ratio(d, n, m)
    ensures Times(c, Times(n, m)) == d
  {
    ProductNonzero(n, m);
    TimesDivisor(d, n * m);
  }

  // The similarity of nonzero vectors of one length, times their two norms, is their product.
  lemma CosineTimesNorms(root: real -> real, a: seq<real>, b: seq<real>)
    requires IsSqrt(root) && Defined(a, b)
    ensures Times(CosineSimilarity(root, a, b), Times(root(Dot(a, a)), root(Dot(b, b)))) == Dot(a, b)
  {
    CosineIsRatio(root, a, b);
    RatioTimes(CosineSimilarity(root, a, b), Dot(a, b), root(Dot(a, a)), root(Dot(b, b)));
  }

  // Of zero vectors, and of vectors of different lengths, it is -1.
  lemma OtherwiseMinusOne(root: real -> real, a: seq<real>, b: seq<real>)
    requires IsSqrt(root) && !Defined(a, b)
    ensures CosineSimilarity(root, a, b) == -1.0
  {
    if |a| == |b| {
      ZeroNorm(root, if Nonzero(a) then b else a);
    }
  }

  lemma ZeroNorm(root: real -> real, a: seq<real>)
    requires IsSqrt(root) && !Nonzero(a)
    ensures root(Dot(a, a)) == 0.0
  {
    NonzeroNorm(a);
    DotSelfNonnegative(a);
    var x := root(0.0);
    SquarePositive(x);
    assert x >= 0.0 && x * x == 0.0 && Times(x, x) == 0.0;
  }

  // A product is the sum of the products of the coordinates: none for vectors of zeros, and each
  // coordinate weighs as much as the other vector's.
  lemma {:induction false} DotByCoordinate(a: seq<real>, b: seq<real>, i: nat, x: real)
    requires |a| == |b| && i < |a|
    ensures Dot(a[i := x], b) == Dot(a, b) + (x - a[i]) * b[i]
    ensures !Nonzero(a) ==> Dot(a, b) == 0.0
  {
    DotOfZero(a, b);
    if i == 0 {
      assert a[0 := x][1..] == a[1..];
      assert x * b[0] == a[0] * b[0] + (x - a[0]) * b[0];
    } else {
      assert a[i := x][1..] == a[1..][i - 1 := x];
      DotByCoordinate(a[1..], b[1..], i - 1, x);
    }
  }

  lemma {:induction false} DotOfZero(a: seq<real>, b: seq<real>)
    requires |a| == |b|
    ensures !Nonzero(a) ==> Dot(a, b) == 0.0
  {
    if a != [] && !Nonzero(a) {
      NonzeroSplit(a);
      DotOfZero(a[1..], b[1..]);
    }
  }

  // --- the opposite vector ---

  lemma {:induction false} DotOpposite(a: seq<real>, b: seq<real>)
    requires |a| == |b|
    ensures Dot(a, Scale(-1.0, b)) == -Dot(a, b)
  {
    if b != [] {
      DotOpposite(a[1..], b[1..]);
      assert Scale(-1.0, b)[0] == -b[0] && Scale(-1.0, b)[1..] == Scale(-1.0, b[1..]);
      assert a[0] * (-b[0]) == -(a[0] * b[0]);
    }
  }

  lemma OppositeRatio(d: real, n: real, m: real)
    requires n != 0.0 && m != 0.0
    ensures Ratio(-d, n, m) == -Ratio(d, n, m)
  {
    ProductNonzero(n, m);
    OppositeQuotient(d, n * m);
  }

  lemma OppositeQuotient(d: real, p: real)
    requires p != 0.0
    ensures (-d) / p == -(d / p)
  {
  }

  // Turning one vector round turns the sign: the opposite of a nonzero vector has similarity -1.
  lemma OppositeSign(root: real -> real, a: seq<real>, b: seq<real>)
    requires IsSqrt(root) && Defined(a, b)
    ensures CosineSimilarity(root, a, Scale(-1.0, b)) == -CosineSimilarity(root, a, b)
  {
    DotOpposite(a, b);
    DotScaled(-1.0, b);
    NormOfNonzero(root, a);
    NormOfNonzero(root, b);
    OppositeRatio(Dot(a, b), root(Dot(a, a)), root(Dot(b, b)));
  }

  // --- the value 1 ---

  // The squared distance from b to t times a.
  function Distance(a: seq<real>, b: seq<real>, t: real): real
    requires |a| == |b|
  {
    if a == [] then 0.0 else (b[0] - t * a[0]) * (b[0] - t * a[0]) + Distance(a[1..], b[1..], t)
  }

  lemma DistanceTerm(x: real, y: real, t: real, d: real, s: real, u: real)
    ensures (y - t * x) * (y - t * x) + (u - 2.0 * t * d + t * t * s)
            == (y * y + u) - 2.0 * t * (x * y + d) + t * t * (x * x + s)
  {
  }

  lemma {:induction false} DistanceExpands(a: seq<real>, b: seq<real>, t: real)
    requires |a| == |b|
    ensures Distance(a, b, t) == Dot(b, b) - 2.0 * t * Dot(a, b) + t * t * Dot(a, a)
  {
    if a != [] {
      var v, w := a[1..], b[1..];
      DistanceExpands(v, w, t);
      DistanceTerm(a[0], b[0], t, Dot(v, w), Dot(v, v), Dot(w, w));
    }
  }

  lemma {:induction false} NoDistance(a: seq<real>, b: seq<real>, t: real)
    requires |a| == |b|
    ensures Distance(a, b, t) >= 0.0
    ensures Distance(a, b, t) == 0.0 ==> b == Scale(t, a)
  {
    if a != [] {
      NoDistance(a[1..], b[1..], t);
      var x := b[0] - t * a[0];
      SquarePositive(x);
      assert Distance(a, b, t) == Times(x, x) + Distance(a[1..], b[1..], t);
      assert Distance(a, b, t) == 0.0 ==> b == [b[0]] + b[1..];
    }
  }

  lemma FullProduct(n: real, m: real, s: real, u: real, d: real, t: real)
    requires n > 0.0 && m > 0.0 && s == n * n && u == m * m && d == n * m && t == m / n
    ensures t > 0.0 && u - 2.0 * t * d + t * t * s == 0.0
  {
    TimesDivisor(m, n);
    assert t * n == m;
    assert t * d == (t * n) * m;
    assert t * t * s == (t * n) * (t * n);
  }

  lemma FullIsParallel(a: seq<real>, b: seq<real>, n: real, m: real)
    requires |a| == |b| && n > 0.0 && m > 0.0 && n * n == Dot(a, a) && m * m == Dot(b, b)
    requires Dot(a, b) == n * m
    ensures exists t: real :: t > 0.0 && b == Scale(t, a)
  {
    var t := m / n;
    FullProduct(n, m, Dot(a, a), Dot(b, b), Dot(a, b), t);
    AtNoDistance(a, b, t);
  }

  lemma AtNoDistance(a: seq<real>, b: seq<real>, t: real)
    requires |a| == |b| && Dot(b, b) - 2.0 * t * Dot(a, b) + t * t * Dot(a, a) == 0.0
    ensures b == Scale(t, a)
  {
    DistanceExpands(a, b, t);
    NoDistance(a, b, t);
  }

  // Nonzero vectors of one length have similarity 1 if and only if one is a positive multiple of
  // the other.
  lemma OneIffParallel(root: real -> real, a: seq<real>, b: seq<real>)
    requires IsSqrt(root) && Defined(a, b)
    ensures CosineSimilarity(root, a, b) == 1.0 <==> exists t: real :: t > 0.0 && b == Scale(t, a)
  {
    if CosineSimilarity(root, a, b) == 1.0 {
      NormOfNonzero(root, a);
      NormOfNonzero(root, b);
      CosineTimesNorms(root, a, b);
      FullIsParallel(a, b, root(Dot(a, a)), root(Dot(b, b)));
    }
    forall t: real | t > 0.0 && b == Scale(t, a) ensures CosineSimilarity(root, a, b) == 1.0 {
      ParallelIsOne(root, a, t);
    }
  }
}
