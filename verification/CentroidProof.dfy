/** What the weighted centroid is, and what it does not depend on. */
module CentroidProof {
  import opened Wrappers
  import opened Sequences
  import opened Vectors
  import opened Centroid

  predicate NonNegativeWeights(items: seq<Weighted>) {
    forall x :: x in items ==> x.weight >= 0.0
  }

  // ---------------------------------------------------------------- norms

  lemma LastUsable(sqrt: real -> real, items: seq<Weighted>, dimensions: nat)
    requires items != [] && Usable(sqrt, items, dimensions)
    ensures Usable(sqrt, items[..|items| - 1], dimensions)
    ensures |items[|items| - 1].vector| == dimensions && Magnitude(sqrt, items[|items| - 1].vector) > EPSILON
  {
    UsableSplits(sqrt, items, dimensions);
  }

  lemma ShareIsUnit(sqrt: real -> real, x: Weighted, j: nat)
    requires j < |x.vector| && Magnitude(sqrt, x.vector) > EPSILON
    ensures Share(sqrt, x, j) == x.weight * Unit(sqrt, x.vector)[j]
  {
  }

  lemma LastStep(sqrt: real -> real, items: seq<Weighted>, dimensions: nat, a: seq<real>, a': seq<real>, j: nat)
    requires items != [] && Usable(sqrt, items, dimensions) && Usable(sqrt, items[..|items| - 1], dimensions)
    requires a == Aggregate(sqrt, items[..|items| - 1], dimensions) && a' == Aggregate(sqrt, items, dimensions) && j < dimensions
    requires |items[|items| - 1].vector| == dimensions && Magnitude(sqrt, items[|items| - 1].vector) > EPSILON
    ensures a'[j] == a[j] + Share(sqrt, items[|items| - 1], j)
  {
    var n := |items| - 1;
    assert items[..n + 1] == items;
    NextComponent(sqrt, items, dimensions, n, j);
    AggregateAt(sqrt, items[..n], dimensions, j, a, Component(sqrt, items[..n], dimensions, j));
    AggregateAt(sqrt, items, dimensions, j, a', Component(sqrt, items, dimensions, j));
  }

  lemma LastTotal(items: seq<Weighted>)
    requires items != []
    ensures TotalWeight(items) == TotalWeight(items[..|items| - 1]) + items[|items| - 1].weight
  {
    var n := |items| - 1;
    assert Weights(items) == Weights(items[..n]) + [items[n].weight];
    SumAppend(Weights(items[..n]), items[n].weight);
  }

  lemma SumOfShares(sqrt: real -> real, a: seq<real>, a': seq<real>, x: Weighted)
    requires |a| == |a'| == |x.vector| && Magnitude(sqrt, x.vector) > EPSILON
    requires forall j :: 0 <= j < |a| ==> a'[j] == a[j] + Share(sqrt, x, j)
    ensures a' == AddScaled(a, x.weight, Unit(sqrt, x.vector))
  {
    forall j | 0 <= j < |a| ensures a'[j] == AddScaled(a, x.weight, Unit(sqrt, x.vector))[j] {
      ShareIsUnit(sqrt, x, j);
    }
  }

  /** One more item adds its weighted unit vector. */
  lemma AggregateStep(sqrt: real -> real, items: seq<Weighted>, dimensions: nat)
    requires items != [] && Usable(sqrt, items, dimensions)
    ensures var n := |items| - 1;
            && Usable(sqrt, items[..n], dimensions)
            && |items[n].vector| == dimensions && Magnitude(sqrt, items[n].vector) > EPSILON
            && Aggregate(sqrt, items, dimensions)
               == AddScaled(Aggregate(sqrt, items[..n], dimensions), items[n].weight, Unit(sqrt, items[n].vector))
            && TotalWeight(items) == TotalWeight(items[..n]) + items[n].weight
  {
    var a, a' := Aggregate(sqrt, items[..|items| - 1], dimensions), Aggregate(sqrt, items, dimensions);
    LastUsable(sqrt, items, dimensions);
    LastTotal(items);
    forall j | 0 <= j < dimensions ensures a'[j] == a[j] + Share(sqrt, items[|items| - 1], j) {
      LastStep(sqrt, items, dimensions, a, a', j);
    }
    SumOfShares(sqrt, a, a', items[|items| - 1]);
  }

  lemma TotalNonNegative(items: seq<Weighted>)
    requires NonNegativeWeights(items)
    ensures TotalWeight(items) >= 0.0
  {
    assert forall i :: 0 <= i < |items| ==> items[i] in items;
    SumNonNegative(Weights(items));
  }

  lemma NormOfZeros(dimensions: nat, a: seq<real>)
    requires |a| == dimensions && forall j :: 0 <= j < dimensions ==> a[j] == 0.0
    ensures Norm2(a) == 0.0
  {
    assert a == Scale(0.0, a);
    NormOfScale(0.0, a);
  }

  /** The aggregate is no longer than the total weight. */
  ghost predicate WithinTotal(a: seq<real>, total: real) {
    Norm2(a) <= total * total
  }

  lemma StaysWithinTotal(sqrt: real -> real, a: seq<real>, total: real, x: Weighted, a': seq<real>, total': real)
    requires IsSqrt(sqrt) && WithinTotal(a, total) && total >= 0.0 && x.weight >= 0.0
    requires |x.vector| == |a| && Magnitude(sqrt, x.vector) > EPSILON
    requires a' == AddScaled(a, x.weight, Unit(sqrt, x.vector)) && total' == total + x.weight
    ensures WithinTotal(a', total')
  {
    UnitHasNormOne(sqrt, x.vector);
    NormGrowsByWeight(a, total, x.weight, Unit(sqrt, x.vector));
  }

  lemma {:induction false} AggregateBound(sqrt: real -> real, items: seq<Weighted>, dimensions: nat)
    requires IsSqrt(sqrt) && Usable(sqrt, items, dimensions) && NonNegativeWeights(items)
    ensures WithinTotal(Aggregate(sqrt, items, dimensions), TotalWeight(items))
    decreases |items|
  {
    if items == [] {
      NormOfZeros(dimensions, Aggregate(sqrt, items, dimensions));
    } else {
      var n := |items| - 1;
      AggregateStep(sqrt, items, dimensions);
      AggregateBound(sqrt, items[..n], dimensions);
      TotalNonNegative(items[..n]);
      assert items[n] in items;
      StaysWithinTotal(sqrt, Aggregate(sqrt, items[..n], dimensions), TotalWeight(items[..n]), items[n],
                       Aggregate(sqrt, items, dimensions), TotalWeight(items));
    }
  }

  lemma DividedIsScaled(a: seq<real>, d: real)
    requires d != 0.0
    ensures Divided(a, d) == Scale(1.0 / d, a)
  {
    forall i | 0 <= i < |a| ensures Divided(a, d)[i] == Scale(1.0 / d, a)[i] {
      QuotientIsProduct(a[i], d);
    }
  }

  lemma QuotientIsProduct(x: real, d: real)
    requires d != 0.0
    ensures x / d == (1.0 / d) * x
  {
    assert (x / d) * d == x && (1.0 / d) * x * d == x;
  }

  lemma DividedWithinOne(a: seq<real>, w: real)
    requires w > 0.0 && WithinTotal(a, w)
    ensures Norm2(Divided(a, w)) <= 1.0
  {
    DividedIsScaled(a, w);
    NormOfScale(1.0 / w, a);
    QuotientWithinOne(Norm2(a), w);
  }

  lemma MagnitudeWithinOne(sqrt: real -> real, a: seq<real>)
    requires IsSqrt(sqrt) && Norm2(a) <= 1.0
    ensures Magnitude(sqrt, a) <= 1.0
  {
    NormNonNegative(a);
    RootOfSquares(Magnitude(sqrt, a), 1.0);
  }

  /** The weighted mean of normalised vectors is no longer than a unit vector. */
  lemma MeanWithinUnitBall(sqrt: real -> real, items: seq<Weighted>, dimensions: nat)
    requires IsSqrt(sqrt) && Usable(sqrt, items, dimensions) && NonNegativeWeights(items) && TotalWeight(items) > EPSILON
    ensures Norm2(Mean(sqrt, items, dimensions)) <= 1.0
    ensures Magnitude(sqrt, Mean(sqrt, items, dimensions)) <= 1.0
  {
    AggregateBound(sqrt, items, dimensions);
    DividedWithinOne(Aggregate(sqrt, items, dimensions), TotalWeight(items));
    MagnitudeWithinOne(sqrt, Mean(sqrt, items, dimensions));
  }

  lemma QuotientWithinOne(s: real, w: real)
    requires w > 0.0 && s <= w * w
    ensures (1.0 / w) * (1.0 / w) * s <= 1.0
  {
    var k := 1.0 / w;
    assert k > 0.0 && k * w == 1.0;
    assert k * k * s <= k * k * (w * w) by {
      assert k * k > 0.0;
    }
    assert k * k * (w * w) == (k * w) * (k * w);
  }

  /** The centroid has norm exactly one. */
  lemma CentroidHasNormOne(sqrt: real -> real, items: seq<Weighted>, dimensions: nat)
    requires IsSqrt(sqrt) && CentroidOf(sqrt, items, dimensions).Ok?
    ensures |CentroidOf(sqrt, items, dimensions).value| == dimensions
    ensures Norm2(CentroidOf(sqrt, items, dimensions).value) == 1.0
  {
    var mean := Mean(sqrt, items, dimensions);
    UnitHasNormOne(sqrt, mean);
    assert Divided(mean, Magnitude(sqrt, mean)) == Unit(sqrt, mean);
  }

  // ---------------------------------------------------------------- direction

  /** The sum of the items' unit vectors, each times its weight. */
  function WeightedSum(sqrt: real -> real, items: seq<Weighted>, dimensions: nat): (a: seq<real>)
    requires Usable(sqrt, items, dimensions)
    ensures |a| == dimensions
  {
    if items == [] then seq(dimensions, j => 0.0)
    else
      var n := |items| - 1;
      LastUsable(sqrt, items, dimensions);
      AddScaled(WeightedSum(sqrt, items[..n], dimensions), items[n].weight, Unit(sqrt, items[n].vector))
  }

  lemma {:induction false} AggregateIsWeightedSum(sqrt: real -> real, items: seq<Weighted>, dimensions: nat)
    requires Usable(sqrt, items, dimensions)
    ensures Aggregate(sqrt, items, dimensions) == WeightedSum(sqrt, items, dimensions)
    decreases |items|
  {
    if items == [] {
      forall j | 0 <= j < dimensions ensures Aggregate(sqrt, items, dimensions)[j] == 0.0 {
      }
    } else {
      AggregateStep(sqrt, items, dimensions);
      AggregateIsWeightedSum(sqrt, items[..|items| - 1], dimensions);
    }
  }

  lemma InversePositive(x: real)
    requires x > 0.0
    ensures 1.0 / x > 0.0
  {
  }

  lemma PositiveProduct(x: real, y: real)
    requires x > 0.0 && y > 0.0
    ensures x * y > 0.0
  {
  }

  lemma ScaleTwice(a: real, b: real, v: seq<real>)
    ensures Scale(a, Scale(b, v)) == Scale(a * b, v)
  {
    forall i | 0 <= i < |v| ensures Scale(a, Scale(b, v))[i] == Scale(a * b, v)[i] {
      ProductsAssociate(a, b, v[i]);
    }
  }

  lemma ProductsAssociate(a: real, b: real, x: real)
    ensures a * (b * x) == (a * b) * x
  {
  }

  ghost predicate PositiveMultiple(c: seq<real>, a: seq<real>) {
    exists factor: real :: factor > 0.0 && c == Scale(factor, a)
  }

  lemma ScaledTwice(a: seq<real>, b: seq<real>, c: seq<real>, k: real, l: real)
    requires k > 0.0 && l > 0.0 && b == Scale(l, a) && c == Scale(k, b)
    ensures PositiveMultiple(c, a)
  {
    ScaleTwice(k, l, a);
    PositiveProduct(k, l);
  }

  lemma DividedTwice(a: seq<real>, total: real, m: real)
    requires total > 0.0 && m > 0.0
    ensures PositiveMultiple(Divided(Divided(a, total), m), a)
  {
    DividedIsScaled(a, total);
    DividedIsScaled(Divided(a, total), m);
    InversePositive(m);
    InversePositive(total);
    ScaledTwice(a, Divided(a, total), Divided(Divided(a, total), m), 1.0 / m, 1.0 / total);
  }

  /** The centroid points where the weighted sum of the unit vectors points. */
  lemma CentroidPointsAlongSum(sqrt: real -> real, items: seq<Weighted>, dimensions: nat)
    requires IsSqrt(sqrt) && CentroidOf(sqrt, items, dimensions).Ok?
    ensures Usable(sqrt, items, dimensions)
    ensures PositiveMultiple(CentroidOf(sqrt, items, dimensions).value, WeightedSum(sqrt, items, dimensions))
  {
    var total, mean := TotalWeight(items), Mean(sqrt, items, dimensions);
    AggregateIsWeightedSum(sqrt, items, dimensions);
    DividedTwice(WeightedSum(sqrt, items, dimensions), total, Magnitude(sqrt, mean));
  }

  lemma QuotientAbove(x: real, d: real, bound: real)
    requires d > 0.0
    ensures 1.0 / d * x > bound <==> x > bound * d
  {
    var q := 1.0 / d * x;
    assert q * d == x;
    if q > bound {
      PositiveProduct(q - bound, d);
    } else if q < bound {
      PositiveProduct(bound - q, d);
    }
  }

  lemma DividedIsLong(sqrt: real -> real, a: seq<real>, d: real, bound: real)
    requires IsSqrt(sqrt) && d > 0.0
    ensures Magnitude(sqrt, Divided(a, d)) > bound <==> Magnitude(sqrt, a) > bound * d
  {
    DividedIsScaled(a, d);
    InversePositive(d);
    MagnitudeOfScale(sqrt, 1.0 / d, a);
    QuotientAbove(Magnitude(sqrt, a), d, bound);
  }

  /** The sum is longer than epsilon times the total weight. */
  predicate IsLong(sqrt: real -> real, sum: seq<real>, total: real) {
    Magnitude(sqrt, sum) > EPSILON * total
  }

  lemma MeanIsLong(sqrt: real -> real, sum: seq<real>, total: real, mean: seq<real>)
    requires IsSqrt(sqrt) && total > EPSILON && mean == Divided(sum, total)
    ensures Magnitude(sqrt, mean) > EPSILON <==> IsLong(sqrt, sum, total)
  {
    DividedIsLong(sqrt, sum, total, EPSILON);
  }

  lemma MeanDecides(sqrt: real -> real, items: seq<Weighted>, dimensions: nat, sum: seq<real>, total: real, mean: seq<real>)
    requires dimensions > 0 && Usable(sqrt, items, dimensions) && total == TotalWeight(items) > EPSILON
    requires sum == WeightedSum(sqrt, items, dimensions) && mean == Divided(sum, total)
    ensures CentroidOf(sqrt, items, dimensions).Ok? <==> Magnitude(sqrt, mean) > EPSILON
    ensures CentroidOf(sqrt, items, dimensions).Err? ==> CentroidOf(sqrt, items, dimensions).error == ZeroCentroid
  {
    AggregateIsWeightedSum(sqrt, items, dimensions);
    assert mean == Mean(sqrt, items, dimensions);
  }

  /**
   There is a centroid exactly if there are dimensions, every vector has them and is not zero, the weights add up
   to more than epsilon, and the weighted sum of the unit vectors is longer than epsilon times that.
   */
  lemma CentroidExistsIff(sqrt: real -> real, items: seq<Weighted>, dimensions: nat)
    requires IsSqrt(sqrt)
    ensures CentroidOf(sqrt, items, dimensions).Ok? <==>
              && dimensions > 0 && Usable(sqrt, items, dimensions) && TotalWeight(items) > EPSILON
              && IsLong(sqrt, WeightedSum(sqrt, items, dimensions), TotalWeight(items))
  {
    if !Usable(sqrt, items, dimensions) {
      var i := FirstUnusable(sqrt, items, dimensions);
      UnusableReported(sqrt, items, dimensions, i);
    } else if dimensions > 0 && TotalWeight(items) > EPSILON {
      var sum, total := WeightedSum(sqrt, items, dimensions), TotalWeight(items);
      MeanIsLong(sqrt, sum, total, Divided(sum, total));
      MeanDecides(sqrt, items, dimensions, sum, total, Divided(sum, total));
    }
  }

  lemma {:induction false} FirstUnusable(sqrt: real -> real, items: seq<Weighted>, dimensions: nat) returns (i: nat)
    requires !Usable(sqrt, items, dimensions)
    ensures i < |items| && Usable(sqrt, items[..i], dimensions) && ItemProblem(sqrt, items[i], dimensions).Some?
  {
    var n := |items| - 1;
    UsableSplits(sqrt, items, dimensions);
    if Usable(sqrt, items[..n], dimensions) {
      i := n;
    } else {
      i := FirstUnusable(sqrt, items[..n], dimensions);
      assert items[..n][..i] == items[..i];
    }
  }

  /** The first vector with another dimension or without length decides the error. */
  lemma UnusableReported(sqrt: real -> real, items: seq<Weighted>, dimensions: nat, i: nat)
    requires i < |items| && Usable(sqrt, items[..i], dimensions)
    requires |items[i].vector| != dimensions || Magnitude(sqrt, items[i].vector) <= EPSILON
    ensures dimensions > 0 ==>
              CentroidOf(sqrt, items, dimensions) == Err(if |items[i].vector| != dimensions then DimensionMismatch else ZeroVector)
  {
    ProblemEnds(sqrt, items, dimensions, i);
  }

  lemma SumOfNone(sqrt: real -> real, x: Weighted, dimensions: nat)
    requires |x.vector| == dimensions && Magnitude(sqrt, x.vector) > EPSILON
    ensures Usable(sqrt, [x], dimensions) && Aggregate(sqrt, [x], dimensions) == Scale(x.weight, Unit(sqrt, x.vector))
    ensures TotalWeight([x]) == x.weight
  {
    AggregateStep(sqrt, [x], dimensions);
    assert [x][..0] == [];
    AggregateIsWeightedSum(sqrt, [x][..0], dimensions);
  }

  lemma QuotientOfProduct(w: real, u: real)
    requires w != 0.0
    ensures (w * u) / w == u
  {
  }

  /** A single input is normalised: its centroid is its own unit vector. */
  lemma CentroidOfOne(sqrt: real -> real, x: Weighted, dimensions: nat)
    requires IsSqrt(sqrt) && dimensions == |x.vector| > 0 && Magnitude(sqrt, x.vector) > EPSILON && x.weight > EPSILON
    ensures CentroidOf(sqrt, [x], dimensions).Ok? && |CentroidOf(sqrt, [x], dimensions).value| == dimensions
    ensures forall j :: 0 <= j < dimensions ==> CentroidOf(sqrt, [x], dimensions).value[j] == x.vector[j] / Magnitude(sqrt, x.vector)
  {
    var u := Unit(sqrt, x.vector);
    SumOfNone(sqrt, x, dimensions);
    var mean := Mean(sqrt, [x], dimensions);
    forall j | 0 <= j < dimensions ensures mean[j] == u[j] {
      QuotientOfProduct(x.weight, u[j]);
    }
    assert mean == u;
    UnitHasNormOne(sqrt, x.vector);
    RootsAgree(Magnitude(sqrt, u), 1.0);
    assert Divided(u, 1.0) == u;
  }

  // ---------------------------------------------------------------- rescaled vectors

  /** Item by item the same weight and a positive multiple of the same vector. */
  predicate Rescaled(items: seq<Weighted>, items': seq<Weighted>, factors: seq<real>) {
    |items| == |items'| == |factors|
    && forall i :: 0 <= i < |items| ==> factors[i] > 0.0 && items'[i] == Weighted(items[i].weight, Scale(factors[i], items[i].vector))
  }

  lemma ShareOfScaled(sqrt: real -> real, x: Weighted, c: real, j: nat)
    requires IsSqrt(sqrt) && c > 0.0 && j < |x.vector| && Magnitude(sqrt, x.vector) > EPSILON
    requires Magnitude(sqrt, Scale(c, x.vector)) > EPSILON
    ensures Share(sqrt, Weighted(x.weight, Scale(c, x.vector)), j) == Share(sqrt, x, j)
  {
    UnitOfScale(sqrt, c, x.vector);
    assert Unit(sqrt, Scale(c, x.vector))[j] == Unit(sqrt, x.vector)[j];
  }

  lemma ShareAtRescaled(sqrt: real -> real, items: seq<Weighted>, items': seq<Weighted>, factors: seq<real>,
                        dimensions: nat, i: nat, j: nat)
    requires IsSqrt(sqrt) && Rescaled(items, items', factors) && j < dimensions && i < |items|
    requires Usable(sqrt, items, dimensions) && Usable(sqrt, items', dimensions)
    ensures Shares(sqrt, items', dimensions, j)[i] == Shares(sqrt, items, dimensions, j)[i]
  {
    assert items[i] in items && items'[i] in items';
    ShareOfScaled(sqrt, items[i], factors[i], j);
  }

  lemma SharesOfRescaled(sqrt: real -> real, items: seq<Weighted>, items': seq<Weighted>, factors: seq<real>,
                         dimensions: nat, j: nat, s: seq<real>, s': seq<real>)
    requires IsSqrt(sqrt) && Rescaled(items, items', factors) && j < dimensions
    requires Usable(sqrt, items, dimensions) && Usable(sqrt, items', dimensions)
    requires s == Shares(sqrt, items, dimensions, j) && s' == Shares(sqrt, items', dimensions, j) && |s| == |s'| == |items|
    ensures s' == s
  {
    forall i | 0 <= i < |s| ensures s'[i] == s[i] {
      ShareAtRescaled(sqrt, items, items', factors, dimensions, i, j);
    }
  }

  lemma ComponentsOfRescaled(sqrt: real -> real, items: seq<Weighted>, items': seq<Weighted>, factors: seq<real>,
                             dimensions: nat, j: nat)
    requires IsSqrt(sqrt) && Rescaled(items, items', factors) && j < dimensions
    requires Usable(sqrt, items, dimensions) && Usable(sqrt, items', dimensions)
    ensures Component(sqrt, items', dimensions, j) == Component(sqrt, items, dimensions, j)
  {
    SharesOfRescaled(sqrt, items, items', factors, dimensions, j, Shares(sqrt, items, dimensions, j), Shares(sqrt, items', dimensions, j));
  }

  /** Rescaling any input vector changes nothing, as long as it stays clear of the zero guard. */
  lemma CentroidIgnoresLengths(sqrt: real -> real, items: seq<Weighted>, items': seq<Weighted>, factors: seq<real>, dimensions: nat)
    requires IsSqrt(sqrt) && Rescaled(items, items', factors)
    requires Usable(sqrt, items, dimensions) && Usable(sqrt, items', dimensions)
    ensures CentroidOf(sqrt, items', dimensions) == CentroidOf(sqrt, items, dimensions)
  {
    if dimensions > 0 {
      assert Weights(items') == Weights(items);
      forall j | 0 <= j < dimensions ensures Component(sqrt, items', dimensions, j) == Component(sqrt, items, dimensions, j) {
        ComponentsOfRescaled(sqrt, items, items', factors, dimensions, j);
      }
      assert Aggregate(sqrt, items', dimensions) == Aggregate(sqrt, items, dimensions);
    }
  }

  // ---------------------------------------------------------------- a common factor on the weights

  predicate Reweighted(items: seq<Weighted>, items': seq<Weighted>, k: real) {
    && |items'| == |items| && Weights(items') == Scale(k, Weights(items))
    && forall i :: 0 <= i < |items| ==> items'[i].vector == items[i].vector
  }

  lemma ReweightedUsable(sqrt: real -> real, items: seq<Weighted>, items': seq<Weighted>, k: real, dimensions: nat)
    requires Reweighted(items, items', k) && Usable(sqrt, items, dimensions)
    ensures Usable(sqrt, items', dimensions)
  {
    forall x | x in items' ensures |x.vector| == dimensions && Magnitude(sqrt, x.vector) > EPSILON {
      var i :| 0 <= i < |items'| && items'[i] == x;
      assert items[i] in items;
    }
  }

  lemma UnitsOfReweighted(sqrt: real -> real, items: seq<Weighted>, items': seq<Weighted>, k: real, dimensions: nat, j: nat)
    requires Reweighted(items, items', k) && j < dimensions
    requires Usable(sqrt, items, dimensions) && Usable(sqrt, items', dimensions)
    ensures Units(sqrt, items', dimensions, j) == Units(sqrt, items, dimensions, j)
  {
  }

  lemma ProductsScale(c': real, k: real, c: real, u: seq<real>, w: seq<real>, w': seq<real>)
    requires |u| == |w| && w' == Scale(k, w) && c == Dot(u, w) && c' == Dot(u, w')
    ensures c' == k * c
  {
    DotOfScaled(u, k, w);
  }

  lemma ComponentIsDot(sqrt: real -> real, items: seq<Weighted>, dimensions: nat, j: nat, u: seq<real>, w: seq<real>)
    requires j < dimensions && Usable(sqrt, items, dimensions)
    requires u == Units(sqrt, items, dimensions, j) && w == Weights(items)
    ensures |u| == |w| && Component(sqrt, items, dimensions, j) == Dot(u, w)
  {
  }

  lemma ComponentOfReweighted(sqrt: real -> real, items: seq<Weighted>, items': seq<Weighted>, k: real, dimensions: nat, j: nat,
                              u: seq<real>, w: seq<real>, w': seq<real>, c: real, c': real)
    requires w == Weights(items) && w' == Weights(items') && w' == Scale(k, w)
    requires j < dimensions && Usable(sqrt, items, dimensions) && Usable(sqrt, items', dimensions)
    requires u == Units(sqrt, items, dimensions, j) == Units(sqrt, items', dimensions, j)
    requires c == Component(sqrt, items, dimensions, j) && c' == Component(sqrt, items', dimensions, j)
    ensures c' == k * c
  {
    ComponentIsDot(sqrt, items, dimensions, j, u, w);
    ComponentIsDot(sqrt, items', dimensions, j, u, w');
    ProductsScale(c', k, c, u, w, w');
  }

  lemma EntryOfReweighted(sqrt: real -> real, items: seq<Weighted>, items': seq<Weighted>, k: real, dimensions: nat, j: nat,
                          c: real, c': real)
    requires Reweighted(items, items', k) && j < dimensions
    requires Usable(sqrt, items, dimensions) && Usable(sqrt, items', dimensions)
    requires c == Component(sqrt, items, dimensions, j) && c' == Component(sqrt, items', dimensions, j)
    ensures c' == k * c
  {
    UnitsOfReweighted(sqrt, items, items', k, dimensions, j);
    ComponentOfReweighted(sqrt, items, items', k, dimensions, j,
                          Units(sqrt, items, dimensions, j), Weights(items), Weights(items'), c, c');
  }

  lemma TotalOfReweighted(items: seq<Weighted>, items': seq<Weighted>, k: real)
    requires Reweighted(items, items', k)
    ensures TotalWeight(items') == k * TotalWeight(items)
  {
    SumOfScaled(Weights(items'), k, Weights(items));
  }

  lemma MeanAt(sqrt: real -> real, items: seq<Weighted>, dimensions: nat, j: nat, m: seq<real>, c: real, t: real)
    requires j < dimensions && Usable(sqrt, items, dimensions) && t == TotalWeight(items) > EPSILON
    requires m == Mean(sqrt, items, dimensions) && c == Component(sqrt, items, dimensions, j)
    ensures |m| == dimensions && m[j] == c / t
  {
    AggregateAt(sqrt, items, dimensions, j, Aggregate(sqrt, items, dimensions), c);
  }

  lemma MeanIndexOfReweighted(sqrt: real -> real, items: seq<Weighted>, items': seq<Weighted>, k: real, dimensions: nat, j: nat,
                              m: seq<real>, m': seq<real>, c: real, c': real, t: real, t': real)
    requires k > 0.0 && Reweighted(items, items', k) && j < dimensions
    requires Usable(sqrt, items, dimensions) && Usable(sqrt, items', dimensions)
    requires t == TotalWeight(items) > EPSILON && t' == TotalWeight(items') > EPSILON && t' == k * t
    requires m == Mean(sqrt, items, dimensions) && m' == Mean(sqrt, items', dimensions)
    requires c == Component(sqrt, items, dimensions, j) && c' == Component(sqrt, items', dimensions, j)
    ensures |m| == |m'| == dimensions && m'[j] == m[j]
  {
    MeanAt(sqrt, items, dimensions, j, m, c, t);
    MeanAt(sqrt, items', dimensions, j, m', c', t');
    EntryOfReweighted(sqrt, items, items', k, dimensions, j, c, c');
    QuotientOfScaled(k, c, c', t, t');
  }

  lemma MeanOfReweighted(sqrt: real -> real, items: seq<Weighted>, items': seq<Weighted>, k: real, dimensions: nat,
                         m: seq<real>, m': seq<real>, t: real, t': real)
    requires k > 0.0 && Reweighted(items, items', k)
    requires Usable(sqrt, items, dimensions) && Usable(sqrt, items', dimensions)
    requires t == TotalWeight(items) > EPSILON && t' == TotalWeight(items') > EPSILON && t' == k * t
    requires |m| == |m'| == dimensions
    requires m == Mean(sqrt, items, dimensions) && m' == Mean(sqrt, items', dimensions)
    ensures m' == m
  {
    forall j | 0 <= j < dimensions ensures m'[j] == m[j] {
      MeanIndexOfReweighted(sqrt, items, items', k, dimensions, j, m, m',
                            Component(sqrt, items, dimensions, j), Component(sqrt, items', dimensions, j), t, t');
    }
  }

  /** A common positive factor on the weights changes nothing, as long as both totals pass the weight guard. */
  lemma CentroidIgnoresWeightUnit(sqrt: real -> real, items: seq<Weighted>, items': seq<Weighted>, k: real, dimensions: nat)
    requires k > 0.0 && Reweighted(items, items', k) && Usable(sqrt, items, dimensions)
    requires TotalWeight(items) > EPSILON && TotalWeight(items') > EPSILON
    ensures CentroidOf(sqrt, items', dimensions) == CentroidOf(sqrt, items, dimensions)
  {
    ReweightedUsable(sqrt, items, items', k, dimensions);
    TotalOfReweighted(items, items', k);
    MeanOfReweighted(sqrt, items, items', k, dimensions, Mean(sqrt, items, dimensions), Mean(sqrt, items', dimensions),
                     TotalWeight(items), TotalWeight(items'));
  }

  // ---------------------------------------------------------------- the order of the inputs

  lemma SameMembers(a: seq<Weighted>, b: seq<Weighted>)
    requires multiset(a) == multiset(b)
    ensures forall x :: x in a <==> x in b
  {
    assert forall x :: x in a <==> x in multiset(a);
  }

  /** What any item would add to component `j`. */
  function ShareOf(sqrt: real -> real, j: nat): Weighted -> real {
    (x: Weighted) => if j < |x.vector| && Magnitude(sqrt, x.vector) > EPSILON then Share(sqrt, x, j) else 0.0
  }

  lemma SharesAreMapped(sqrt: real -> real, items: seq<Weighted>, dimensions: nat, j: nat)
    requires j < dimensions && Usable(sqrt, items, dimensions)
    ensures Shares(sqrt, items, dimensions, j) == Map(ShareOf(sqrt, j), items)
  {
    forall i | 0 <= i < |items| ensures Shares(sqrt, items, dimensions, j)[i] == Map(ShareOf(sqrt, j), items)[i] {
      assert items[i] in items;
    }
  }

  lemma SharesPermuted(sqrt: real -> real, a: seq<Weighted>, b: seq<Weighted>, dimensions: nat, j: nat)
    requires multiset(a) == multiset(b) && j < dimensions && Usable(sqrt, a, dimensions) && Usable(sqrt, b, dimensions)
    ensures multiset(Shares(sqrt, a, dimensions, j)) == multiset(Shares(sqrt, b, dimensions, j))
  {
    SharesAreMapped(sqrt, a, dimensions, j);
    SharesAreMapped(sqrt, b, dimensions, j);
    MapPermuted(ShareOf(sqrt, j), a, b);
  }

  lemma ComponentsOfPermuted(sqrt: real -> real, a: seq<Weighted>, b: seq<Weighted>, dimensions: nat, j: nat)
    requires multiset(a) == multiset(b) && j < dimensions && Usable(sqrt, a, dimensions) && Usable(sqrt, b, dimensions)
    ensures Component(sqrt, a, dimensions, j) == Component(sqrt, b, dimensions, j)
  {
    SharesPermuted(sqrt, a, b, dimensions, j);
    SumPermuted(Shares(sqrt, a, dimensions, j), Shares(sqrt, b, dimensions, j));
  }

  lemma TotalOfPermuted(a: seq<Weighted>, b: seq<Weighted>)
    requires multiset(a) == multiset(b)
    ensures TotalWeight(a) == TotalWeight(b)
  {
    var weight := (x: Weighted) => x.weight;
    assert Weights(a) == Map(weight, a) && Weights(b) == Map(weight, b);
    MapPermuted(weight, a, b);
    SumPermuted(Weights(a), Weights(b));
  }

  /** The order of the inputs with their vectors does not matter to the centroid. */
  lemma CentroidIgnoresOrder(sqrt: real -> real, a: seq<Weighted>, b: seq<Weighted>, dimensions: nat)
    requires multiset(a) == multiset(b)
    ensures CentroidOf(sqrt, a, dimensions).Ok? <==> CentroidOf(sqrt, b, dimensions).Ok?
    ensures Usable(sqrt, a, dimensions) ==> CentroidOf(sqrt, a, dimensions) == CentroidOf(sqrt, b, dimensions)
  {
    SameMembers(a, b);
    assert Usable(sqrt, a, dimensions) <==> Usable(sqrt, b, dimensions);
    if dimensions > 0 && Usable(sqrt, a, dimensions) {
      TotalOfPermuted(a, b);
      forall j | 0 <= j < dimensions ensures Component(sqrt, a, dimensions, j) == Component(sqrt, b, dimensions, j) {
        ComponentsOfPermuted(sqrt, a, b, dimensions, j);
      }
      assert Aggregate(sqrt, a, dimensions) == Aggregate(sqrt, b, dimensions);
    }
  }
}
