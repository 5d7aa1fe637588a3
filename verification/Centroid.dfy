/**
 The weighted centroid of query embeddings, over the reals: inputs are normalised, averaged by
 weight and normalised again. Square root and the cast to f32 are parameters.
 */
module Centroid {
  import opened Wrappers
  import opened Vectors

  /** `f64::EPSILON`. */
  const EPSILON: real := 1.0 / 4503599627370496.0

  datatype Problem = InvalidAggregation | DimensionMismatch | ZeroVector | InvalidWeight | ZeroCentroid

  /** An input's weight with its vector. */
  datatype Weighted = Weighted(weight: real, vector: seq<real>)

  function Zip(weights: seq<real>, vectors: seq<seq<real>>): (items: seq<Weighted>)
    requires |weights| == |vectors|
    ensures |items| == |weights| && forall i :: 0 <= i < |weights| ==> items[i] == Weighted(weights[i], vectors[i])
  {
    seq(|weights|, i requires 0 <= i < |weights| => Weighted(weights[i], vectors[i]))
  }

  // ---------------------------------------------------------------- the specification

  function ItemProblem(sqrt: real -> real, x: Weighted, dimensions: nat): Option<Problem> {
    if |x.vector| != dimensions then Some(DimensionMismatch)
    else if Magnitude(sqrt, x.vector) <= EPSILON then Some(ZeroVector)
    else None
  }

  /** The first item with a problem decides. */
  function FirstProblem(sqrt: real -> real, items: seq<Weighted>, dimensions: nat): (p: Option<Problem>)
    ensures p.None? <==> Usable(sqrt, items, dimensions)
  {
    if items == [] then None
    else
      var n := |items| - 1;
      var earlier := FirstProblem(sqrt, items[..n], dimensions);
      if earlier.Some? then earlier
      else
        UsableSplits(sqrt, items, dimensions);
        ItemProblem(sqrt, items[n], dimensions)
  }

  predicate Usable(sqrt: real -> real, items: seq<Weighted>, dimensions: nat) {
    forall x :: x in items ==> |x.vector| == dimensions && Magnitude(sqrt, x.vector) > EPSILON
  }

  lemma UsableSplits(sqrt: real -> real, items: seq<Weighted>, dimensions: nat)
    requires items != []
    ensures Usable(sqrt, items, dimensions)
            <==> Usable(sqrt, items[..|items| - 1], dimensions) && ItemProblem(sqrt, items[|items| - 1], dimensions).None?
  {
    assert items == items[..|items| - 1] + [items[|items| - 1]];
  }

  function Weights(items: seq<Weighted>): (ws: seq<real>)
    ensures |ws| == |items| && forall i :: 0 <= i < |items| ==> ws[i] == items[i].weight
  {
    seq(|items|, i requires 0 <= i < |items| => items[i].weight)
  }

  function TotalWeight(items: seq<Weighted>): real {
    Sum(Weights(items))
  }

  /** What one item adds to component `j`. */
  function Share(sqrt: real -> real, x: Weighted, j: nat): real
    requires j < |x.vector| && Magnitude(sqrt, x.vector) > EPSILON
  {
    x.vector[j] / Magnitude(sqrt, x.vector) * x.weight
  }

  /** Component `j` of the normalised vectors. */
  function Units(sqrt: real -> real, items: seq<Weighted>, dimensions: nat, j: nat): (s: seq<real>)
    requires j < dimensions && Usable(sqrt, items, dimensions)
    ensures |s| == |items|
    ensures forall i :: 0 <= i < |items| ==> items[i] in items && s[i] == items[i].vector[j] / Magnitude(sqrt, items[i].vector)
  {
    seq(|items|, i requires 0 <= i < |items| => assert items[i] in items; items[i].vector[j] / Magnitude(sqrt, items[i].vector))
  }

  function Shares(sqrt: real -> real, items: seq<Weighted>, dimensions: nat, j: nat): (s: seq<real>)
    requires j < dimensions && Usable(sqrt, items, dimensions)
    ensures |s| == |items| && forall i :: 0 <= i < |items| ==> items[i] in items && s[i] == Share(sqrt, items[i], j)
  {
    Products(Units(sqrt, items, dimensions, j), Weights(items))
  }

  function Component(sqrt: real -> real, items: seq<Weighted>, dimensions: nat, j: nat): real
    requires j < dimensions && Usable(sqrt, items, dimensions)
  {
    Dot(Units(sqrt, items, dimensions, j), Weights(items))
  }

  /** The weighted sum of the unit vectors. */
  function Aggregate(sqrt: real -> real, items: seq<Weighted>, dimensions: nat): (a: seq<real>)
    requires Usable(sqrt, items, dimensions)
    ensures |a| == dimensions
  {
    seq(dimensions, j requires 0 <= j < dimensions => Component(sqrt, items, dimensions, j))
  }

  lemma AggregateAt(sqrt: real -> real, items: seq<Weighted>, dimensions: nat, j: nat, a: seq<real>, c: real)
    requires Usable(sqrt, items, dimensions) && a == Aggregate(sqrt, items, dimensions)
    requires j < dimensions && c == Component(sqrt, items, dimensions, j)
    ensures a[j] == c
  {
  }

  lemma AggregateIs(sqrt: real -> real, items: seq<Weighted>, dimensions: nat, a: seq<real>)
    requires Usable(sqrt, items, dimensions) && |a| == dimensions
    requires forall j :: 0 <= j < dimensions ==> a[j] == Component(sqrt, items, dimensions, j)
    ensures a == Aggregate(sqrt, items, dimensions)
  {
  }

  function Divided(a: seq<real>, d: real): (r: seq<real>)
    requires d != 0.0
    ensures |r| == |a| && forall i :: 0 <= i < |a| ==> r[i] == a[i] / d
  {
    seq(|a|, i requires 0 <= i < |a| => a[i] / d)
  }

  function Mean(sqrt: real -> real, items: seq<Weighted>, dimensions: nat): seq<real>
    requires Usable(sqrt, items, dimensions) && TotalWeight(items) > EPSILON
  {
    Divided(Aggregate(sqrt, items, dimensions), TotalWeight(items))
  }

  /** The centroid before its components are cast to f32. */
  function CentroidOf(sqrt: real -> real, items: seq<Weighted>, dimensions: nat): Result<seq<real>, Problem> {
    if dimensions == 0 then Err(InvalidAggregation)
    else
      match FirstProblem(sqrt, items, dimensions)
      case Some(p) => Err(p)
      case None =>
        if TotalWeight(items) <= EPSILON then Err(InvalidWeight)
        else
          var mean := Mean(sqrt, items, dimensions);
          var m := Magnitude(sqrt, mean);
          if m <= EPSILON then Err(ZeroCentroid) else Ok(Divided(mean, m))
  }

  // ---------------------------------------------------------------- the loops

  /** Add one normalised, weighted vector into the aggregate, component by component. */
  method Accumulate(sqrt: real -> real, aggregate: array<real>, x: Weighted)
    requires |x.vector| == aggregate.Length && Magnitude(sqrt, x.vector) > EPSILON
    modifies aggregate
    ensures forall j :: 0 <= j < aggregate.Length ==> aggregate[j] == old(aggregate[j]) + Share(sqrt, x, j)
  {
    var magnitude := Magnitude(sqrt, x.vector);
    for j := 0 to |x.vector|
      invariant forall k :: 0 <= k < j ==> aggregate[k] == old(aggregate[k]) + Share(sqrt, x, k)
      invariant forall k :: j <= k < aggregate.Length ==> aggregate[k] == old(aggregate[k])
    {
      aggregate[j] := aggregate[j] + x.vector[j] / magnitude * x.weight;
    }
  }

  method DivideAll(a: array<real>, d: real)
    requires d != 0.0
    modifies a
    ensures a[..] == Divided(old(a[..]), d)
  {
    for i := 0 to a.Length
      invariant forall k :: 0 <= k < i ==> a[k] == old(a[k]) / d
      invariant forall k :: i <= k < a.Length ==> a[k] == old(a[k])
    {
      a[i] := a[i] / d;
    }
  }

  lemma NextUsable(sqrt: real -> real, items: seq<Weighted>, dimensions: nat, i: nat)
    requires i < |items| && Usable(sqrt, items[..i + 1], dimensions)
    ensures Usable(sqrt, items[..i], dimensions)
    ensures |items[i].vector| == dimensions && Magnitude(sqrt, items[i].vector) > EPSILON
  {
    assert items[..i + 1][..i] == items[..i];
    UsableSplits(sqrt, items[..i + 1], dimensions);
  }

  lemma NextShares(sqrt: real -> real, items: seq<Weighted>, dimensions: nat, i: nat, j: nat)
    requires i < |items| && j < dimensions && Usable(sqrt, items[..i + 1], dimensions) && Usable(sqrt, items[..i], dimensions)
    requires |items[i].vector| == dimensions && Magnitude(sqrt, items[i].vector) > EPSILON
    ensures Shares(sqrt, items[..i + 1], dimensions, j) == Shares(sqrt, items[..i], dimensions, j) + [Share(sqrt, items[i], j)]
  {
    forall m | 0 <= m < i ensures Shares(sqrt, items[..i + 1], dimensions, j)[m] == Shares(sqrt, items[..i], dimensions, j)[m] {
      assert items[..i + 1][m] == items[..i][m];
    }
  }

  lemma NextComponent(sqrt: real -> real, items: seq<Weighted>, dimensions: nat, i: nat, j: nat)
    requires i < |items| && j < dimensions && Usable(sqrt, items[..i + 1], dimensions) && Usable(sqrt, items[..i], dimensions)
    requires |items[i].vector| == dimensions && Magnitude(sqrt, items[i].vector) > EPSILON
    ensures Component(sqrt, items[..i + 1], dimensions, j) == Component(sqrt, items[..i], dimensions, j) + Share(sqrt, items[i], j)
  {
    NextShares(sqrt, items, dimensions, i, j);
    SumAppend(Shares(sqrt, items[..i], dimensions, j), Share(sqrt, items[i], j));
  }

  lemma NextAggregate(sqrt: real -> real, items: seq<Weighted>, dimensions: nat, i: nat)
    requires i < |items| && Usable(sqrt, items[..i + 1], dimensions)
    ensures Usable(sqrt, items[..i], dimensions)
    ensures |items[i].vector| == dimensions && Magnitude(sqrt, items[i].vector) > EPSILON
    ensures forall j :: 0 <= j < dimensions ==>
              Component(sqrt, items[..i + 1], dimensions, j) == Component(sqrt, items[..i], dimensions, j) + Share(sqrt, items[i], j)
    ensures TotalWeight(items[..i + 1]) == TotalWeight(items[..i]) + items[i].weight
  {
    NextUsable(sqrt, items, dimensions, i);
    assert Weights(items[..i + 1]) == Weights(items[..i]) + [items[i].weight];
    SumAppend(Weights(items[..i]), items[i].weight);
    forall j | 0 <= j < dimensions
      ensures Component(sqrt, items[..i + 1], dimensions, j) == Component(sqrt, items[..i], dimensions, j) + Share(sqrt, items[i], j)
    {
      NextComponent(sqrt, items, dimensions, i, j);
    }
  }

  lemma ProblemEnds(sqrt: real -> real, items: seq<Weighted>, dimensions: nat, i: nat)
    requires i < |items| && FirstProblem(sqrt, items[..i], dimensions).None? && ItemProblem(sqrt, items[i], dimensions).Some?
    ensures FirstProblem(sqrt, items, dimensions) == ItemProblem(sqrt, items[i], dimensions)
    decreases |items|
  {
    if i + 1 == |items| {
      assert items[..|items| - 1] == items[..i];
    } else {
      assert items[..|items| - 1][..i] == items[..i];
      ProblemEnds(sqrt, items[..|items| - 1], dimensions, i);
    }
  }

  /** The first loop of `weighted_centroid`: stop at the first problem, or return the sum of the weights. */
  method AggregateAll(sqrt: real -> real, weights: seq<real>, vectors: seq<seq<real>>, aggregate: array<real>)
    returns (problem: Option<Problem>, totalWeight: real)
    requires |weights| == |vectors| && forall j :: 0 <= j < aggregate.Length ==> aggregate[j] == 0.0
    modifies aggregate
    ensures problem == FirstProblem(sqrt, Zip(weights, vectors), aggregate.Length)
    ensures problem.None? ==>
              && totalWeight == TotalWeight(Zip(weights, vectors))
              && aggregate[..] == Aggregate(sqrt, Zip(weights, vectors), aggregate.Length)
  {
    ghost var items := Zip(weights, vectors);
    ghost var dimensions := aggregate.Length;
    totalWeight := 0.0;
    for i := 0 to |weights|
      invariant Usable(sqrt, items[..i], dimensions)
      invariant forall j :: 0 <= j < dimensions ==> aggregate[j] == Component(sqrt, items[..i], dimensions, j)
      invariant totalWeight == TotalWeight(items[..i])
    {
      if |vectors[i]| != aggregate.Length {
        ProblemEnds(sqrt, items, dimensions, i);
        return Some(DimensionMismatch), totalWeight;
      }
      if Magnitude(sqrt, vectors[i]) <= EPSILON {
        ProblemEnds(sqrt, items, dimensions, i);
        return Some(ZeroVector), totalWeight;
      }
      ItemUsable(sqrt, items, dimensions, i);
      NextAggregate(sqrt, items, dimensions, i);
      Accumulate(sqrt, aggregate, Weighted(weights[i], vectors[i]));
      totalWeight := totalWeight + weights[i];
    }
    assert items[..|weights|] == items;
    AggregateIs(sqrt, items, dimensions, aggregate[..]);
    problem := None;
  }

  lemma ItemUsable(sqrt: real -> real, items: seq<Weighted>, dimensions: nat, i: nat)
    requires i < |items| && Usable(sqrt, items[..i], dimensions) && ItemProblem(sqrt, items[i], dimensions).None?
    ensures Usable(sqrt, items[..i + 1], dimensions)
  {
    assert items[..i + 1][..i] == items[..i];
    UsableSplits(sqrt, items[..i + 1], dimensions);
  }

  /** `weighted_centroid`. */
  method WeightedCentroid(sqrt: real -> real, cast: real -> real, weights: seq<real>, vectors: seq<seq<real>>, dimensions: nat)
    returns (r: Result<seq<real>, Problem>)
    ensures |weights| != |vectors| ==> r == Err(InvalidAggregation)
    ensures |weights| == |vectors| ==>
              match CentroidOf(sqrt, Zip(weights, vectors), dimensions)
              case Err(p) => r == Err(p)
              case Ok(unit) => r.Ok? && |r.value| == |unit| && forall j :: 0 <= j < |unit| ==> r.value[j] == cast(unit[j])
  {
    if |weights| != |vectors| || dimensions == 0 {
      return Err(InvalidAggregation);
    }
    var aggregate := new real[dimensions](_ => 0.0);
    var problem, totalWeight := AggregateAll(sqrt, weights, vectors, aggregate);
    if problem.Some? {
      return Err(problem.value);
    }
    if totalWeight <= EPSILON {
      return Err(InvalidWeight);
    }
    DivideAll(aggregate, totalWeight);
    var magnitude := Magnitude(sqrt, aggregate[..]);
    if magnitude <= EPSILON {
      return Err(ZeroCentroid);
    }
    DivideAll(aggregate, magnitude);
    r := Ok(seq(dimensions, j requires 0 <= j < dimensions reads aggregate => cast(aggregate[j])));
  }
}
