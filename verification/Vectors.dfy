/** Real vectors: inner products, norms and the inequalities behind averaging unit vectors. */
module Vectors {
  import opened Sequences

  function Sum(s: seq<real>): real {
    if s == [] then 0.0 else Sum(s[..|s| - 1]) + s[|s| - 1]
  }

  function Products(a: seq<real>, b: seq<real>): (r: seq<real>)
    requires |a| == |b|
    ensures |r| == |a| && forall i :: 0 <= i < |a| ==> r[i] == a[i] * b[i]
  {
    seq(|a|, i requires 0 <= i < |a| => a[i] * b[i])
  }

  function Dot(a: seq<real>, b: seq<real>): real
    requires |a| == |b|
  {
    Sum(Products(a, b))
  }

  /** The sum of the squares. */
  function Norm2(a: seq<real>): real {
    Dot(a, a)
  }

  function Scale(c: real, a: seq<real>): (r: seq<real>)
    ensures |r| == |a| && forall i :: 0 <= i < |a| ==> r[i] == c * a[i]
  {
    seq(|a|, i requires 0 <= i < |a| => c * a[i])
  }

  function AddScaled(a: seq<real>, w: real, b: seq<real>): (r: seq<real>)
    requires |a| == |b|
    ensures |r| == |a| && forall i :: 0 <= i < |a| ==> r[i] == a[i] + w * b[i]
  {
    seq(|a|, i requires 0 <= i < |a| => a[i] + w * b[i])
  }

  lemma SumAppend(s: seq<real>, x: real)
    ensures Sum(s + [x]) == Sum(s) + x
  {
    assert (s + [x])[..|s|] == s;
  }

  lemma {:induction false} SumWithout(s: seq<real>, i: nat)
    requires i < |s|
    ensures Sum(s) == Sum(s[..i] + s[i + 1..]) + s[i]
    decreases |s|
  {
    var n := |s| - 1;
    if i == n {
      assert s[..i] + s[i + 1..] == s[..n];
    } else {
      SumWithout(s[..n], i);
      assert s[..i] + s[i + 1..] == (s[..n][..i] + s[..n][i + 1..]) + [s[n]];
      SumAppend(s[..n][..i] + s[..n][i + 1..], s[n]);
    }
  }

  /** A sum does not depend on the order of its terms. */
  lemma {:induction false} SumPermuted(s: seq<real>, t: seq<real>)
    requires multiset(s) == multiset(t)
    ensures Sum(s) == Sum(t)
    decreases |s|
  {
    assert |s| == |multiset(s)| == |t|;
    if s != [] {
      var i := LastElsewhere(s, t);
      SumWithout(t, i);
      SumPermuted(s[..|s| - 1], t[..i] + t[i + 1..]);
    }
  }

  lemma {:induction false} SumNonNegative(s: seq<real>)
    requires forall i :: 0 <= i < |s| ==> s[i] >= 0.0
    ensures Sum(s) >= 0.0
  {
    if s != [] {
      SumNonNegative(s[..|s| - 1]);
    }
  }

  lemma NormNonNegative(a: seq<real>)
    ensures Norm2(a) >= 0.0
  {
    forall i | 0 <= i < |a| ensures Products(a, a)[i] >= 0.0 {
      SquareNonNegative(a[i]);
    }
    SumNonNegative(Products(a, a));
  }

  lemma SquareNonNegative(x: real)
    ensures x * x >= 0.0
  {
  }

  /** `r == p + c q + d s`, position by position. */
  ghost predicate Combines(r: seq<real>, p: seq<real>, c: real, q: seq<real>, d: real, s: seq<real>) {
    |r| == |p| == |q| == |s| && forall i :: 0 <= i < |r| ==> r[i] == p[i] + c * q[i] + d * s[i]
  }

  lemma FrontsCombine(r: seq<real>, p: seq<real>, c: real, q: seq<real>, d: real, s: seq<real>)
    requires Combines(r, p, c, q, d, s) && r != []
    ensures var n := |r| - 1;
            Combines(r[..n], p[..n], c, q[..n], d, s[..n]) && r[n] == p[n] + c * q[n] + d * s[n]
  {
  }

  lemma {:induction false} SumCombines(r: seq<real>, p: seq<real>, c: real, q: seq<real>, d: real, s: seq<real>)
    requires Combines(r, p, c, q, d, s)
    ensures Sum(r) == Sum(p) + c * Sum(q) + d * Sum(s)
  {
    if r != [] {
      var n := |r| - 1;
      FrontsCombine(r, p, c, q, d, s);
      SumCombines(r[..n], p[..n], c, q[..n], d, s[..n]);
      TotalsCombine(Sum(r), Sum(r[..n]), Sum(p[..n]), Sum(q[..n]), Sum(s[..n]), r[n], p[n], c, q[n], d, s[n],
                    Sum(p), Sum(q), Sum(s));
    }
  }

  lemma TotalsCombine(r': real, r: real, p: real, q: real, s: real, x: real, y: real, c: real, u: real, d: real, v: real,
                      p': real, q': real, s': real)
    requires r' == r + x && r == p + c * q + d * s && x == y + c * u + d * v
    requires p' == p + y && q' == q + u && s' == s + v
    ensures r' == p' + c * q' + d * s'
  {
    assert c * q' == c * q + c * u;
    assert d * s' == d * s + d * v;
  }

  lemma SumOfScaled(r: seq<real>, c: real, s: seq<real>)
    requires |r| == |s| && forall i :: 0 <= i < |s| ==> r[i] == c * s[i]
    ensures Sum(r) == c * Sum(s)
  {
    var zeros := seq(|s|, _ => 0.0);
    SumCombines(r, zeros, c, s, 0.0, s);
    SumCombines(zeros, zeros, 1.0, zeros, 0.0, zeros);
  }

  /** A factor on one side of an inner product comes out. */
  lemma DotOfScaled(u: seq<real>, k: real, w: seq<real>)
    requires |u| == |w|
    ensures Dot(u, Scale(k, w)) == k * Dot(u, w)
  {
    var r, s := Products(u, Scale(k, w)), Products(u, w);
    forall i | 0 <= i < |s| ensures r[i] == k * s[i] {
      assert u[i] * (k * w[i]) == k * (u[i] * w[i]);
    }
    SumOfScaled(r, k, s);
  }

  lemma SquaresCombine(a: seq<real>, w: real, b: seq<real>, c: real, d: real, i: nat)
    requires |a| == |b| && i < |a| && c == 2.0 * w && d == w * w
    ensures Products(AddScaled(a, w, b), AddScaled(a, w, b))[i]
            == Products(a, a)[i] + c * Products(a, b)[i] + d * Products(b, b)[i]
  {
    SquareOfSum(a[i], w, b[i], AddScaled(a, w, b)[i]);
  }

  lemma ProductsCombine(a: seq<real>, w: real, b: seq<real>, c: real, d: real)
    requires |a| == |b| && c == 2.0 * w && d == w * w
    ensures Combines(Products(AddScaled(a, w, b), AddScaled(a, w, b)), Products(a, a), c, Products(a, b), d, Products(b, b))
  {
    forall i | 0 <= i < |a|
      ensures Products(AddScaled(a, w, b), AddScaled(a, w, b))[i] == Products(a, a)[i] + c * Products(a, b)[i] + d * Products(b, b)[i]
    {
      SquaresCombine(a, w, b, c, d, i);
    }
  }

  /** The norm of `a + w b`, with `c` for `2 w` and `d` for the square of `w`. */
  lemma NormOfSum(a: seq<real>, w: real, b: seq<real>, c: real, d: real)
    requires |a| == |b| && c == 2.0 * w && d == w * w
    ensures Norm2(AddScaled(a, w, b)) == Norm2(a) + c * Dot(a, b) + d * Norm2(b)
  {
    ProductsCombine(a, w, b, c, d);
    SumCombines(Products(AddScaled(a, w, b), AddScaled(a, w, b)), Products(a, a), c, Products(a, b), d, Products(b, b));
  }

  lemma SquareOfSum(x: real, w: real, y: real, z: real)
    requires z == x + w * y
    ensures z * z == x * x + 2.0 * w * (x * y) + w * w * (y * y)
  {
  }

  lemma NormOfScale(c: real, a: seq<real>)
    ensures Norm2(Scale(c, a)) == c * c * Norm2(a)
  {
    var zeros := Scale(0.0, a);
    assert AddScaled(zeros, c, a) == Scale(c, a);
    NormOfSum(zeros, c, a, 2.0 * c, c * c);
    SumCombines(Products(zeros, zeros), Products(zeros, zeros), 1.0, Products(zeros, zeros), 0.0, Products(a, a));
    SumCombines(Products(zeros, a), Products(zeros, a), 1.0, Products(zeros, a), 0.0, Products(a, a));
  }

  /** Cauchy-Schwarz against a unit vector. */
  lemma DotWithUnit(a: seq<real>, u: seq<real>)
    requires |a| == |u| && Norm2(u) == 1.0
    ensures Dot(a, u) * Dot(a, u) <= Norm2(a)
  {
    var t := Dot(a, u);
    NormOfSum(a, -t, u, -2.0 * t, t * t);
    NormNonNegative(AddScaled(a, -t, u));
  }

  lemma RootOfSquares(x: real, w: real)
    requires x * x <= w * w && w >= 0.0
    ensures x <= w
  {
    if x > w {
      ProductsGrow(x, w);
    }
  }

  lemma ProductsGrow(x: real, w: real)
    requires x > w >= 0.0
    ensures x * x > w * w
  {
    assert x * (x - w) > 0.0 && w * (x - w) >= 0.0;
    assert x * (x - w) + w * (x - w) == x * x - w * w;
  }

  lemma SquareOfLonger(n: real, d: real, w: real, total: real, n': real)
    requires n' == n + 2.0 * w * d + w * w && n <= total * total && d <= total && w >= 0.0
    ensures n' <= (total + w) * (total + w)
  {
    assert w * d <= w * total;
    assert (total + w) * (total + w) == total * total + 2.0 * (w * total) + w * w;
  }

  /** Adding a weighted unit vector lengthens a vector by at most the weight. */
  lemma NormGrowsByWeight(a: seq<real>, total: real, w: real, u: seq<real>)
    requires |a| == |u| && Norm2(u) == 1.0 && total >= 0.0 && w >= 0.0 && Norm2(a) <= total * total
    ensures Norm2(AddScaled(a, w, u)) <= (total + w) * (total + w)
  {
    DotWithUnit(a, u);
    RootOfSquares(Dot(a, u), total);
    NormOfSum(a, w, u, 2.0 * w, w * w);
    SquareOfLonger(Norm2(a), Dot(a, u), w, total, Norm2(AddScaled(a, w, u)));
  }

  // ---------------------------------------------------------------- square roots

  /** What is assumed of `f64::sqrt` over the reals. */
  ghost predicate IsSqrt(sqrt: real -> real) {
    forall x :: x >= 0.0 ==> sqrt(x) >= 0.0 && sqrt(x) * sqrt(x) == x
  }

  function Magnitude(sqrt: real -> real, a: seq<real>): real {
    sqrt(Norm2(a))
  }

  lemma RootsAgree(x: real, y: real)
    requires x >= 0.0 && y >= 0.0 && x * x == y * y
    ensures x == y
  {
    if x < y {
      ProductsGrow(y, x);
    } else if y < x {
      ProductsGrow(x, y);
    }
  }

  lemma MagnitudeOfScale(sqrt: real -> real, c: real, a: seq<real>)
    requires IsSqrt(sqrt) && c >= 0.0
    ensures Magnitude(sqrt, Scale(c, a)) == c * Magnitude(sqrt, a)
  {
    NormNonNegative(a);
    NormNonNegative(Scale(c, a));
    NormOfScale(c, a);
    var m := Magnitude(sqrt, a);
    assert (c * m) * (c * m) == c * c * (m * m);
    RootsAgree(Magnitude(sqrt, Scale(c, a)), c * m);
  }

  lemma SameScaled(r: seq<real>, c: real, a: seq<real>)
    requires |r| == |a| && forall i :: 0 <= i < |a| ==> r[i] == c * a[i]
    ensures r == Scale(c, a)
  {
    forall i | 0 <= i < |a| ensures r[i] == Scale(c, a)[i] {
    }
  }

  /** A vector divided by its magnitude. */
  function Unit(sqrt: real -> real, a: seq<real>): (u: seq<real>)
    requires Magnitude(sqrt, a) > 0.0
    ensures |u| == |a| && forall i :: 0 <= i < |a| ==> u[i] == a[i] / Magnitude(sqrt, a)
  {
    seq(|a|, i requires 0 <= i < |a| => a[i] / Magnitude(sqrt, a))
  }

  lemma UnitHasNormOne(sqrt: real -> real, a: seq<real>)
    requires IsSqrt(sqrt) && Magnitude(sqrt, a) > 0.0
    ensures Norm2(Unit(sqrt, a)) == 1.0
  {
    var m := Magnitude(sqrt, a);
    NormNonNegative(a);
    forall i | 0 <= i < |a| ensures Unit(sqrt, a)[i] == (1.0 / m) * a[i] {
    }
    SameScaled(Unit(sqrt, a), 1.0 / m, a);
    NormOfScale(1.0 / m, a);
    InverseSquares(m, Norm2(a));
  }

  lemma InverseSquares(m: real, s: real)
    requires m > 0.0 && m * m == s
    ensures (1.0 / m) * (1.0 / m) * s == 1.0
  {
    assert (1.0 / m) * (1.0 / m) * (m * m) == ((1.0 / m) * m) * ((1.0 / m) * m);
  }

  /** A vector and its positive multiples have one unit vector. */
  lemma UnitOfScale(sqrt: real -> real, c: real, a: seq<real>)
    requires IsSqrt(sqrt) && c > 0.0 && Magnitude(sqrt, a) > 0.0
    ensures Magnitude(sqrt, Scale(c, a)) > 0.0 && Unit(sqrt, Scale(c, a)) == Unit(sqrt, a)
  {
    var m := Magnitude(sqrt, a);
    MagnitudeOfScale(sqrt, c, a);
    var m' := Magnitude(sqrt, Scale(c, a));
    assert m' > 0.0;
    forall i | 0 <= i < |a| ensures Unit(sqrt, Scale(c, a))[i] == Unit(sqrt, a)[i] {
      QuotientOfScaled(c, a[i], Scale(c, a)[i], m, m');
    }
  }

  lemma QuotientOfScaled(c: real, x: real, x': real, m: real, m': real)
    requires c > 0.0 && m > 0.0 && m' == c * m && m' > 0.0 && x' == c * x
    ensures x' / m' == x / m
  {
    assert (x / m) * m' == x' by {
      assert (x / m) * (c * m) == c * ((x / m) * m);
    }
  }
}
