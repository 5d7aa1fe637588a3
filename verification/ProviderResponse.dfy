/** Reading an embedding provider's response: sort by index, check that indices are contiguous, validate. */
module ProviderResponse {
  import opened Wrappers
  import opened Sequences
  import opened Vectors
  import Centroid

  /** An `f32` as the guards see it. */
  datatype Float = Finite(value: real) | NotFinite

  datatype Item = Item(index: nat, embedding: seq<Float>)

  datatype Problem = CountMismatch | IndexMismatch | DimensionMismatch | InvalidValues | ZeroVector

  // ---------------------------------------------------------------- sorting by index

  function Insert(x: Item, s: seq<Item>): (r: seq<Item>)
    ensures multiset(r) == multiset(s) + multiset{x}
    ensures forall y :: y in r <==> y == x || y in s
  {
    if s == [] || x.index <= s[0].index then [x] + s
    else
      assert s == [s[0]] + s[1..];
      [s[0]] + Insert(x, s[1..])
  }

  /** `sort_by_key(|item| item.index)`: stable. */
  function SortByIndex(s: seq<Item>): (r: seq<Item>)
    ensures multiset(r) == multiset(s) && |r| == |s|
  {
    if s == [] then []
    else
      assert s == [s[0]] + s[1..];
      var r := Insert(s[0], SortByIndex(s[1..]));
      assert |r| == |multiset(r)| && |s| == |multiset(s)|;
      r
  }

  function IndexOf(x: Item): nat {
    x.index
  }

  predicate Ordered<T>(key: T -> nat, s: seq<T>) {
    forall i, j :: 0 <= i < j < |s| ==> key(s[i]) <= key(s[j])
  }

  lemma {:induction false} InsertOrdered(x: Item, s: seq<Item>)
    requires Ordered(IndexOf, s)
    ensures Ordered(IndexOf, Insert(x, s))
  {
    if s != [] && x.index > s[0].index {
      InsertOrdered(x, s[1..]);
      var t := Insert(x, s[1..]);
      forall j | 0 <= j < |t| ensures s[0].index <= t[j].index {
        assert t[j] in t;
        if t[j] != x {
          var m :| 0 <= m < |s[1..]| && s[1..][m] == t[j];
          assert IndexOf(s[0]) <= IndexOf(s[m + 1]);
        }
      }
    }
  }

  lemma {:induction false} SortOrdered(s: seq<Item>)
    ensures Ordered(IndexOf, SortByIndex(s))
  {
    if s != [] {
      SortOrdered(s[1..]);
      InsertOrdered(s[0], SortByIndex(s[1..]));
    }
  }

  // ---------------------------------------------------------------- one order only

  /** No two different elements share a key. */
  predicate Unambiguous<T(==)>(key: T -> nat, s: seq<T>) {
    forall i, j :: 0 <= i < |s| && 0 <= j < |s| && key(s[i]) == key(s[j]) ==> s[i] == s[j]
  }

  lemma FoundIn<T>(a: seq<T>, b: seq<T>, i: nat) returns (j: nat)
    requires multiset(a) == multiset(b) && i < |a|
    ensures j < |b| && b[j] == a[i]
  {
    assert a[i] in multiset(a);
    assert a[i] in b;
    j :| 0 <= j < |b| && b[j] == a[i];
  }

  lemma HeadsAgree<T>(key: T -> nat, a: seq<T>, b: seq<T>)
    requires Ordered(key, a) && Ordered(key, b) && multiset(a) == multiset(b) && Unambiguous(key, a)
    requires a != [] && b != []
    ensures a[0] == b[0]
  {
    var i := FoundIn(b, a, 0);
    var j := FoundIn(a, b, 0);
    assert key(a[0]) <= key(a[i]) && key(b[0]) <= key(b[j]);
  }

  lemma TailsPermuted<T>(a: seq<T>, b: seq<T>)
    requires multiset(a) == multiset(b) && a != [] && b != [] && a[0] == b[0]
    ensures multiset(a[1..]) == multiset(b[1..])
  {
    assert a == [a[0]] + a[1..] && b == [b[0]] + b[1..];
    assert multiset(a) == multiset(a[1..]) + multiset{a[0]} && multiset(b) == multiset(b[1..]) + multiset{a[0]};
    MultisetCancels(multiset(a[1..]), multiset(b[1..]), multiset{a[0]});
  }

  /** Without ambiguity there is only one way to order the elements. */
  lemma {:induction false} OrderIsUnique<T>(key: T -> nat, a: seq<T>, b: seq<T>)
    requires Ordered(key, a) && Ordered(key, b) && multiset(a) == multiset(b) && Unambiguous(key, a)
    ensures a == b
    decreases |a|
  {
    assert |a| == |multiset(a)| == |multiset(b)| == |b|;
    if a != [] {
      HeadsAgree(key, a, b);
      TailsPermuted(a, b);
      OrderIsUnique(key, a[1..], b[1..]);
      assert a == [a[0]] + a[1..] && b == [b[0]] + b[1..];
    }
  }

  // ---------------------------------------------------------------- validation

  predicate AllFinite(v: seq<Float>) {
    forall i :: 0 <= i < |v| ==> v[i].Finite?
  }

  function Values(v: seq<Float>): (r: seq<real>)
    requires AllFinite(v)
    ensures |r| == |v| && forall i :: 0 <= i < |v| ==> r[i] == v[i].value
  {
    seq(|v|, i requires 0 <= i < |v| => v[i].value)
  }

  /** `validate_vector`. */
  function ValidateVector(sqrt: real -> real, v: seq<Float>, dimensions: nat): (r: Result<seq<real>, Problem>)
    ensures r.Ok? ==> AllFinite(v) && r.value == Values(v)
    ensures r.Err? ==> r.error != CountMismatch && r.error != IndexMismatch
  {
    if |v| != dimensions then Err(DimensionMismatch)
    else if !AllFinite(v) then Err(InvalidValues)
    else if Magnitude(sqrt, Values(v)) <= Centroid.EPSILON then Err(ZeroVector)
    else Ok(Values(v))
  }

  /** The vectors of items that should carry the indices from `first` on; the first problem decides. */
  function Validated(sqrt: real -> real, sorted: seq<Item>, first: nat, dimensions: nat): (r: Result<seq<seq<real>>, Problem>)
  {
    if sorted == [] then Ok([])
    else if sorted[0].index != first then Err(IndexMismatch)
    else
      match ValidateVector(sqrt, sorted[0].embedding, dimensions)
      case Err(p) => Err(p)
      case Ok(v) =>
        match Validated(sqrt, sorted[1..], first + 1, dimensions)
        case Err(p) => Err(p)
        case Ok(vs) => Ok([v] + vs)
  }

  /** The part of `embed_inputs` between the response and the centroid. */
  function Embeddings(sqrt: real -> real, data: seq<Item>, count: nat, dimensions: nat): Result<seq<seq<real>>, Problem> {
    if |data| != count then Err(CountMismatch) else Validated(sqrt, SortByIndex(data), 0, dimensions)
  }

  /** The iteration that collects the vectors, stopping at the first problem. */
  method CollectVectors(sqrt: real -> real, data: seq<Item>, count: nat, dimensions: nat) returns (r: Result<seq<seq<real>>, Problem>)
    ensures r == Embeddings(sqrt, data, count, dimensions)
  {
    var sorted := SortByIndex(data);
    if |sorted| != count {
      return Err(CountMismatch);
    }
    var vectors: seq<seq<real>> := [];
    assert sorted[0..] == sorted;
    assert forall rest: seq<seq<real>> :: vectors + rest == rest;
    for i := 0 to |sorted|
      invariant match Validated(sqrt, sorted[i..], i, dimensions)
                case Err(p) => Validated(sqrt, sorted, 0, dimensions) == Err(p)
                case Ok(rest) => Validated(sqrt, sorted, 0, dimensions) == Ok(vectors + rest)
    {
      assert sorted[i..][1..] == sorted[i + 1..];
      if sorted[i].index != i {
        return Err(IndexMismatch);
      }
      var v := ValidateVector(sqrt, sorted[i].embedding, dimensions);
      if v.Err? {
        return Err(v.error);
      }
      ghost var before := vectors;
      vectors := vectors + [v.value];
      assert forall rest :: before + ([v.value] + rest) == vectors + rest;
    }
    assert vectors + [] == vectors;
    r := Ok(vectors);
  }

  // ---------------------------------------------------------------- when a response is accepted

  function Indices(s: seq<Item>): (r: seq<nat>)
    ensures |r| == |s| && forall i :: 0 <= i < |s| ==> r[i] == s[i].index
  {
    Map(IndexOf, s)
  }

  function Range(n: nat): (r: seq<nat>)
    ensures |r| == n && forall i :: 0 <= i < n ==> r[i] == i
  {
    seq(n, i => i)
  }

  /** The indices are a permutation of `0..n-1`. */
  ghost predicate IsPermutation(data: seq<Item>, n: nat) {
    multiset(Indices(data)) == multiset(Range(n))
  }

  /** The vector has the dimensions asked for, finite components, and some length. */
  predicate IsValid(sqrt: real -> real, v: seq<Float>, dimensions: nat) {
    |v| == dimensions && AllFinite(v) && Magnitude(sqrt, Values(v)) > Centroid.EPSILON
  }

  predicate AllValid(sqrt: real -> real, data: seq<Item>, dimensions: nat) {
    forall x :: x in data ==> IsValid(sqrt, x.embedding, dimensions)
  }

  predicate CountsFrom(s: seq<Item>, first: nat) {
    forall i :: 0 <= i < |s| ==> s[i].index == first + i
  }

  lemma CountsOn(s: seq<Item>, first: nat)
    requires s != []
    ensures CountsFrom(s, first) <==> s[0].index == first && CountsFrom(s[1..], first + 1)
  {
    assert forall i :: 1 <= i < |s| ==> s[i] == s[1..][i - 1];
  }

  lemma ValidOn(sqrt: real -> real, s: seq<Item>, dimensions: nat)
    requires s != []
    ensures AllValid(sqrt, s, dimensions)
            <==> ValidateVector(sqrt, s[0].embedding, dimensions).Ok? && AllValid(sqrt, s[1..], dimensions)
  {
    assert s == [s[0]] + s[1..];
  }

  lemma {:induction false} ValidatedIff(sqrt: real -> real, sorted: seq<Item>, first: nat, dimensions: nat)
    ensures Validated(sqrt, sorted, first, dimensions).Ok? <==> CountsFrom(sorted, first) && AllValid(sqrt, sorted, dimensions)
    decreases |sorted|
  {
    if sorted != [] {
      ValidatedIff(sqrt, sorted[1..], first + 1, dimensions);
      CountsOn(sorted, first);
      ValidOn(sqrt, sorted, dimensions);
    }
  }

  lemma {:induction false} ValidatedInOrder(sqrt: real -> real, sorted: seq<Item>, first: nat, dimensions: nat)
    requires Validated(sqrt, sorted, first, dimensions).Ok?
    ensures var vs := Validated(sqrt, sorted, first, dimensions).value;
            |vs| == |sorted| && forall i :: 0 <= i < |sorted| ==> Ok(vs[i]) == ValidateVector(sqrt, sorted[i].embedding, dimensions)
    decreases |sorted|
  {
    if sorted != [] {
      ValidatedInOrder(sqrt, sorted[1..], first + 1, dimensions);
      assert forall i :: 1 <= i < |sorted| ==> sorted[i] == sorted[1..][i - 1];
    }
  }

  function Same(n: nat): nat {
    n
  }

  lemma IndicesPermuted(a: seq<Item>, b: seq<Item>)
    requires multiset(a) == multiset(b)
    ensures multiset(Indices(a)) == multiset(Indices(b))
  {
    MapPermuted(IndexOf, a, b);
  }

  lemma CountsGiveRange(sorted: seq<Item>)
    requires CountsFrom(sorted, 0)
    ensures Indices(sorted) == Range(|sorted|)
  {
  }

  /** Sorted items carry the indices `0..n-1` exactly when their indices are a permutation of them. */
  lemma SortedIndices(data: seq<Item>, sorted: seq<Item>)
    requires multiset(sorted) == multiset(data) && |sorted| == |data| && Ordered(IndexOf, sorted)
    ensures CountsFrom(sorted, 0) <==> IsPermutation(data, |data|)
  {
    IndicesPermuted(sorted, data);
    if IsPermutation(data, |data|) {
      RangeFound(sorted);
    } else if CountsFrom(sorted, 0) {
      CountsGiveRange(sorted);
    }
  }

  lemma RangeFound(sorted: seq<Item>)
    requires Ordered(IndexOf, sorted) && multiset(Indices(sorted)) == multiset(Range(|sorted|))
    ensures CountsFrom(sorted, 0)
  {
    var s, t := Indices(sorted), Range(|sorted|);
    assert Ordered(Same, s) by {
      forall i, j | 0 <= i < j < |s| ensures Same(s[i]) <= Same(s[j]) {
        assert IndexOf(sorted[i]) <= IndexOf(sorted[j]);
      }
    }
    assert Ordered(Same, t) && Unambiguous(Same, s);
    OrderIsUnique(Same, s, t);
    forall i | 0 <= i < |sorted| ensures sorted[i].index == 0 + i {
      assert s[i] == t[i];
    }
  }

  lemma ValidityIgnoresOrder(sqrt: real -> real, a: seq<Item>, b: seq<Item>, dimensions: nat)
    requires multiset(a) == multiset(b) && AllValid(sqrt, a, dimensions)
    ensures AllValid(sqrt, b, dimensions)
  {
    forall x | x in b ensures ValidateVector(sqrt, x.embedding, dimensions).Ok? {
      assert x in multiset(b);
      assert x in a;
    }
  }

  /** A response is accepted exactly when its indices are a permutation of the inputs' positions and every vector is valid. */
  lemma AcceptedIff(sqrt: real -> real, data: seq<Item>, count: nat, dimensions: nat)
    ensures Embeddings(sqrt, data, count, dimensions).Ok?
            <==> |data| == count && IsPermutation(data, count) && AllValid(sqrt, data, dimensions)
  {
    SortOrdered(data);
    SortedIndices(data, SortByIndex(data));
    ValidatedIff(sqrt, SortByIndex(data), 0, dimensions);
    if AllValid(sqrt, data, dimensions) {
      ValidityIgnoresOrder(sqrt, data, SortByIndex(data), dimensions);
    }
    if AllValid(sqrt, SortByIndex(data), dimensions) {
      ValidityIgnoresOrder(sqrt, SortByIndex(data), data, dimensions);
    }
  }

  /** The vector at a position is the one the response gave that index. */
  lemma VectorsLineUp(sqrt: real -> real, data: seq<Item>, count: nat, dimensions: nat, k: nat)
    requires Embeddings(sqrt, data, count, dimensions).Ok? && k < |data|
    ensures var vs := Embeddings(sqrt, data, count, dimensions).value;
            && |vs| == count && data[k].index < count && AllFinite(data[k].embedding)
            && vs[data[k].index] == Values(data[k].embedding)
  {
    var sorted := SortByIndex(data);
    ValidatedIff(sqrt, sorted, 0, dimensions);
    ValidatedInOrder(sqrt, sorted, 0, dimensions);
    var i := FoundIn(data, sorted, k);
  }

  // ---------------------------------------------------------------- when the order of the items matters

  /** What a response is rejected with when the item stands at its index and that index is claimed again. */
  function Outcome(sqrt: real -> real, x: Item, dimensions: nat): Problem {
    match ValidateVector(sqrt, x.embedding, dimensions)
    case Err(p) => p
    case Ok(_) => IndexMismatch
  }

  /** How many items claim an index. */
  function Claims(s: seq<Item>, k: nat): nat {
    multiset(Indices(s))[k]
  }

  predicate ValidAt(sqrt: real -> real, s: seq<Item>, k: nat, dimensions: nat) {
    forall x :: x in s && x.index == k ==> ValidateVector(sqrt, x.embedding, dimensions).Ok?
  }

  /** Each of the indices from `first` to before `d` is claimed once, by a valid item. */
  predicate ReadsTo(sqrt: real -> real, s: seq<Item>, first: nat, d: nat, dimensions: nat) {
    forall k :: first <= k < d ==> Claims(s, k) == 1 && ValidAt(sqrt, s, k, dimensions)
  }

  /** Two items claim an index and would be rejected for different reasons. */
  ghost predicate Disagree(sqrt: real -> real, s: seq<Item>, d: nat, dimensions: nat) {
    exists x, y :: x in s && y in s && x.index == d && y.index == d && Outcome(sqrt, x, dimensions) != Outcome(sqrt, y, dimensions)
  }

  /** Reading gets as far as an index whose claimants disagree. */
  ghost predicate OrderMattersFrom(sqrt: real -> real, s: seq<Item>, first: nat, dimensions: nat) {
    exists d: nat :: d >= first && ReadsTo(sqrt, s, first, d, dimensions) && Disagree(sqrt, s, d, dimensions)
  }

  lemma HeadClaims(s: seq<Item>, k: nat)
    requires s != []
    ensures Claims(s, k) == Claims(s[1..], k) + (if s[0].index == k then 1 else 0)
  {
    assert Indices(s) == [s[0].index] + Indices(s[1..]);
  }

  lemma ClaimedByMember(s: seq<Item>, x: Item)
    requires x in s
    ensures Claims(s, x.index) >= 1
  {
    var i :| 0 <= i < |s| && s[i] == x;
    assert Indices(s)[i] == x.index;
    assert x.index in Indices(s);
    assert x.index in multiset(Indices(s));
  }

  lemma ClaimantAt(s: seq<Item>, k: nat) returns (i: nat)
    requires Claims(s, k) >= 1
    ensures i < |s| && s[i].index == k
  {
    assert k in multiset(Indices(s));
    assert k in Indices(s);
    i :| 0 <= i < |s| && Indices(s)[i] == k;
  }

  /** In order, a second claim on the head's index stands next to it. */
  lemma SecondClaim(s: seq<Item>)
    requires s != [] && Ordered(IndexOf, s)
    ensures Claims(s, s[0].index) >= 2 <==> |s| > 1 && s[1].index == s[0].index
  {
    HeadClaims(s, s[0].index);
    if |s| > 1 {
      assert s[1..][0] in s[1..];
      ClaimedByMember(s[1..], s[1..][0]);
    }
    if Claims(s, s[0].index) >= 2 {
      var i := ClaimantAt(s[1..], s[0].index);
      assert s[1..][i] == s[i + 1];
      assert IndexOf(s[0]) <= IndexOf(s[1]) && (i > 0 ==> IndexOf(s[1]) <= IndexOf(s[i + 1]));
    }
  }

  lemma ClaimsIgnoreOrder(a: seq<Item>, b: seq<Item>, k: nat)
    requires multiset(a) == multiset(b)
    ensures Claims(a, k) == Claims(b, k)
  {
    IndicesPermuted(a, b);
  }

  lemma MembersIgnoreOrder(a: seq<Item>, b: seq<Item>, x: Item)
    requires multiset(a) == multiset(b)
    ensures x in a <==> x in b
  {
    assert x in a <==> x in multiset(a);
    assert x in b <==> x in multiset(b);
  }

  /** An index claimed again is rejected with its first claimant's outcome. */
  lemma RepeatRejects(sqrt: real -> real, s: seq<Item>, first: nat, dimensions: nat)
    requires Ordered(IndexOf, s) && s != [] && s[0].index == first && Claims(s, first) >= 2
    ensures Validated(sqrt, s, first, dimensions) == Err(Outcome(sqrt, s[0], dimensions))
  {
    SecondClaim(s);
    assert s[1..] != [] && s[1..][0] == s[1];
  }

  /** If the head is read and its index claimed once, what matters is the rest. */
  lemma RestMatters(sqrt: real -> real, s: seq<Item>, first: nat, dimensions: nat)
    requires Ordered(IndexOf, s) && s != [] && s[0].index == first && Claims(s, first) == 1
    requires ValidateVector(sqrt, s[0].embedding, dimensions).Ok?
    ensures OrderMattersFrom(sqrt, s[1..], first + 1, dimensions) ==> OrderMattersFrom(sqrt, s, first, dimensions)
  {
    if OrderMattersFrom(sqrt, s[1..], first + 1, dimensions) {
      var d: nat :| d >= first + 1 && ReadsTo(sqrt, s[1..], first + 1, d, dimensions) && Disagree(sqrt, s[1..], d, dimensions);
      forall k | first <= k < d ensures Claims(s, k) == 1 && ValidAt(sqrt, s, k, dimensions) {
        HeadClaims(s, k);
        forall x | x in s && x.index == k ensures ValidateVector(sqrt, x.embedding, dimensions).Ok? {
          OnlyHeadClaims(s, first, x);
        }
      }
      assert Disagree(sqrt, s, d, dimensions) by {
        var x, y :| x in s[1..] && y in s[1..] && x.index == d && y.index == d && Outcome(sqrt, x, dimensions) != Outcome(sqrt, y, dimensions);
        assert x in s && y in s;
      }
      assert ReadsTo(sqrt, s, first, d, dimensions);
    }
  }

  lemma OnlyHeadClaims(s: seq<Item>, first: nat, x: Item)
    requires s != [] && s[0].index == first && Claims(s, first) == 1 && x in s
    ensures if x.index == first then x == s[0] else x in s[1..]
  {
    HeadClaims(s, first);
    assert s == [s[0]] + s[1..];
    if x in s[1..] {
      ClaimedByMember(s[1..], x);
    }
  }

  lemma HeadIndexAgrees(a: seq<Item>, b: seq<Item>)
    requires Ordered(IndexOf, a) && Ordered(IndexOf, b) && multiset(a) == multiset(b) && a != [] && b != []
    ensures a[0].index == b[0].index
  {
    var i := FoundIn(b, a, 0);
    var j := FoundIn(a, b, 0);
    assert IndexOf(a[0]) <= IndexOf(a[i]) && IndexOf(b[0]) <= IndexOf(b[j]);
  }

  lemma SoleClaimantAgrees(a: seq<Item>, b: seq<Item>, first: nat)
    requires multiset(a) == multiset(b) && a != [] && b != [] && a[0].index == first && b[0].index == first && Claims(a, first) == 1
    ensures a[0] == b[0]
  {
    MembersIgnoreOrder(a, b, b[0]);
    OnlyHeadClaims(a, first, b[0]);
  }

  /** What two ordered arrangements of the same items have in common. */
  predicate Arrangements(a: seq<Item>, b: seq<Item>) {
    Ordered(IndexOf, a) && Ordered(IndexOf, b) && multiset(a) == multiset(b)
  }

  lemma RepeatAgrees(sqrt: real -> real, a: seq<Item>, b: seq<Item>, first: nat, dimensions: nat)
    requires Arrangements(a, b) && a != [] && b != [] && a[0].index == first && b[0].index == first && Claims(a, first) >= 2
    requires !OrderMattersFrom(sqrt, a, first, dimensions)
    ensures Validated(sqrt, a, first, dimensions) == Validated(sqrt, b, first, dimensions)
  {
    ClaimsIgnoreOrder(a, b, first);
    RepeatRejects(sqrt, a, first, dimensions);
    RepeatRejects(sqrt, b, first, dimensions);
    SameOutcome(sqrt, a, b, first, dimensions);
  }

  lemma TailsArranged(a: seq<Item>, b: seq<Item>)
    requires Arrangements(a, b) && a != [] && b != [] && a[0] == b[0]
    ensures Arrangements(a[1..], b[1..])
  {
    TailsPermuted(a, b);
  }

  /** With one head, the rests decide. */
  lemma HeadThenRest(sqrt: real -> real, a: seq<Item>, b: seq<Item>, first: nat, dimensions: nat)
    requires a != [] && b != [] && a[0] == b[0] && a[0].index == first
    requires ValidateVector(sqrt, a[0].embedding, dimensions).Ok? ==>
               Validated(sqrt, a[1..], first + 1, dimensions) == Validated(sqrt, b[1..], first + 1, dimensions)
    ensures Validated(sqrt, a, first, dimensions) == Validated(sqrt, b, first, dimensions)
  {
  }

  /** Two ordered arrangements of the same items read alike unless claimants of the index they stop at disagree. */
  lemma {:induction false} ArrangementsAgree(sqrt: real -> real, a: seq<Item>, b: seq<Item>, first: nat, dimensions: nat)
    requires Arrangements(a, b) && |a| == |b| && !OrderMattersFrom(sqrt, a, first, dimensions)
    ensures Validated(sqrt, a, first, dimensions) == Validated(sqrt, b, first, dimensions)
    decreases |a|
  {
    if a != [] {
      HeadIndexAgrees(a, b);
      ClaimedByMember(a, a[0]);
      if a[0].index == first && Claims(a, first) >= 2 {
        RepeatAgrees(sqrt, a, b, first, dimensions);
      } else if a[0].index == first {
        SoleClaimantAgrees(a, b, first);
        if ValidateVector(sqrt, a[0].embedding, dimensions).Ok? {
          RestMatters(sqrt, a, first, dimensions);
          TailsArranged(a, b);
          ArrangementsAgree(sqrt, a[1..], b[1..], first + 1, dimensions);
        }
        HeadThenRest(sqrt, a, b, first, dimensions);
      }
    }
  }

  lemma SameOutcome(sqrt: real -> real, a: seq<Item>, b: seq<Item>, first: nat, dimensions: nat)
    requires multiset(a) == multiset(b) && a != [] && b != [] && a[0].index == first && b[0].index == first
    requires !OrderMattersFrom(sqrt, a, first, dimensions)
    ensures Outcome(sqrt, a[0], dimensions) == Outcome(sqrt, b[0], dimensions)
  {
    MembersIgnoreOrder(a, b, b[0]);
    assert a[0] in a && b[0] in b;
    assert ReadsTo(sqrt, a, first, first, dimensions);
    assert !Disagree(sqrt, a, first, dimensions);
  }

  // ---------------------------------------------------------------- an arrangement for each claimant

  lemma {:induction false} SortFixesOrdered(s: seq<Item>)
    requires Ordered(IndexOf, s)
    ensures SortByIndex(s) == s
  {
    if s != [] {
      SortFixesOrdered(s[1..]);
      assert |s| > 1 ==> IndexOf(s[0]) <= IndexOf(s[1]);
      assert s == [s[0]] + s[1..];
    }
  }

  predicate StartsAt(s: seq<Item>, first: nat) {
    forall i :: 0 <= i < |s| ==> s[i].index >= first
  }

  /** The least index is claimed by the head. */
  lemma HeadClaimsLeast(s: seq<Item>, first: nat)
    requires Ordered(IndexOf, s) && StartsAt(s, first) && Claims(s, first) >= 1
    ensures s != [] && s[0].index == first
  {
    var i := ClaimantAt(s, first);
    assert i > 0 ==> IndexOf(s[0]) <= IndexOf(s[i]);
  }

  lemma RestStartsLater(s: seq<Item>, first: nat)
    requires s != [] && s[0].index == first && Ordered(IndexOf, s) && StartsAt(s, first) && Claims(s, first) == 1
    ensures StartsAt(s[1..], first + 1) && Ordered(IndexOf, s[1..])
    ensures forall k :: k > first ==> Claims(s[1..], k) == Claims(s, k)
  {
    forall j | 0 <= j < |s[1..]| ensures s[1..][j].index >= first + 1 {
      HeadClaims(s, first);
      ClaimedByMember(s[1..], s[1..][j]);
    }
    forall k: nat | k > first ensures Claims(s[1..], k) == Claims(s, k) {
      HeadClaims(s, k);
    }
  }

  /** Ordered items with single claims up to `d`, and two on `d`, stand at their indices up to there. */
  lemma {:induction false} StandsAt(s: seq<Item>, first: nat, d: nat)
    requires Ordered(IndexOf, s) && first <= d && StartsAt(s, first)
    requires (forall k :: first <= k < d ==> Claims(s, k) == 1) && Claims(s, d) >= 2
    ensures |s| >= d - first + 2 && (forall j :: 0 <= j < d - first ==> s[j].index == first + j)
    ensures s[d - first].index == d && s[d - first + 1].index == d
    decreases d - first
  {
    HeadClaimsLeast(s, first);
    if first == d {
      SecondClaim(s);
    } else {
      RestStartsLater(s, first);
      StandsAt(s[1..], first + 1, d);
      assert forall j :: 1 <= j < |s| ==> s[j] == s[1..][j - 1];
    }
  }

  /** Reading goes on from the first item as long as items stand at their indices and are valid. */
  lemma {:induction false} ReadsOn(sqrt: real -> real, s: seq<Item>, first: nat, n: nat, dimensions: nat)
    requires n <= |s| && forall j :: 0 <= j < n ==> s[j].index == first + j && ValidateVector(sqrt, s[j].embedding, dimensions).Ok?
    requires Validated(sqrt, s[n..], first + n, dimensions).Err?
    ensures Validated(sqrt, s, first, dimensions) == Validated(sqrt, s[n..], first + n, dimensions)
    decreases n
  {
    if n == 0 {
      assert s[0..] == s;
    } else {
      assert s[1..][n - 1..] == s[n..];
      forall j | 0 <= j < n - 1 ensures s[1..][j].index == first + 1 + j && ValidateVector(sqrt, s[1..][j].embedding, dimensions).Ok? {
        assert s[1..][j] == s[j + 1];
      }
      ReadsOn(sqrt, s[1..], first + 1, n - 1, dimensions);
    }
  }

  /** Two items of one index may change places in an ordered arrangement. */
  lemma SwapKeepsOrder(s: seq<Item>, i: nat, j: nat)
    requires Ordered(IndexOf, s) && i < |s| && j < |s| && s[i].index == s[j].index
    ensures var t := s[i := s[j]][j := s[i]]; Ordered(IndexOf, t) && multiset(t) == multiset(s)
  {
    var t := s[i := s[j]][j := s[i]];
    forall m | 0 <= m < |s| ensures IndexOf(t[m]) == IndexOf(s[m]) {
    }
  }

  /** The sorted items up to the index where reading stops. */
  lemma SortedStand(sqrt: real -> real, data: seq<Item>, s: seq<Item>, d: nat, dimensions: nat)
    requires multiset(s) == multiset(data) && Ordered(IndexOf, s) && ReadsTo(sqrt, data, 0, d, dimensions) && Claims(data, d) >= 2
    ensures |s| >= d + 2 && s[d].index == d && s[d + 1].index == d && forall j :: 0 <= j < d ==> s[j].index == j
  {
    forall k | 0 <= k < d ensures Claims(s, k) == 1 {
      ClaimsIgnoreOrder(s, data, k);
    }
    ClaimsIgnoreOrder(s, data, d);
    StandsAt(s, 0, d);
    assert forall j :: 0 <= j < d ==> s[j].index == 0 + j;
  }

  /** A claimant of the index where reading stops can be the one that decides. */
  lemma ClaimantDecides(sqrt: real -> real, data: seq<Item>, d: nat, x: Item, dimensions: nat) returns (b: seq<Item>)
    requires ReadsTo(sqrt, data, 0, d, dimensions) && Claims(data, d) >= 2 && x in data && x.index == d
    ensures multiset(b) == multiset(data) && Embeddings(sqrt, b, |data|, dimensions) == Err(Outcome(sqrt, x, dimensions))
  {
    var s := SortByIndex(data);
    SortOrdered(data);
    SortedStand(sqrt, data, s, d, dimensions);
    MembersIgnoreOrder(s, data, x);
    var i :| 0 <= i < |s| && s[i] == x;
    b := s[d := s[i]][i := s[d]];
    SwapKeepsOrder(s, d, i);
    StandsInSwapped(sqrt, data, s, b, d, i, dimensions);
    ReadsToRepeat(sqrt, b, d, dimensions);
    SortFixesOrdered(b);
  }

  lemma ReadsToRepeat(sqrt: real -> real, b: seq<Item>, d: nat, dimensions: nat)
    requires d <= |b| && forall j :: 0 <= j < d ==> b[j].index == 0 + j && ValidateVector(sqrt, b[j].embedding, dimensions).Ok?
    requires b[d..] != [] && Ordered(IndexOf, b[d..]) && b[d..][0].index == d && Claims(b[d..], d) >= 2
    ensures Validated(sqrt, b, 0, dimensions) == Err(Outcome(sqrt, b[d..][0], dimensions))
  {
    RepeatRejects(sqrt, b[d..], d, dimensions);
    ReadsOn(sqrt, b, 0, d, dimensions);
  }

  lemma StandsInSwapped(sqrt: real -> real, data: seq<Item>, s: seq<Item>, b: seq<Item>, d: nat, i: nat, dimensions: nat)
    requires multiset(s) == multiset(data) && Ordered(IndexOf, b) && multiset(b) == multiset(s) && d < |s| && i < |s|
    requires b == s[d := s[i]][i := s[d]] && s[i].index == d && s[d].index == d
    requires |s| >= d + 2 && s[d + 1].index == d && forall j :: 0 <= j < d ==> s[j].index == j
    requires ReadsTo(sqrt, data, 0, d, dimensions)
    ensures forall j :: 0 <= j < d ==> b[j].index == 0 + j && ValidateVector(sqrt, b[j].embedding, dimensions).Ok?
    ensures b[d..] != [] && b[d..][0] == s[i] && Ordered(IndexOf, b[d..]) && Claims(b[d..], d) >= 2
  {
    forall j | 0 <= j < d ensures b[j].index == 0 + j && ValidateVector(sqrt, b[j].embedding, dimensions).Ok? {
      assert b[j] == s[j] && s[j] in s;
      MembersIgnoreOrder(s, data, s[j]);
      assert ValidAt(sqrt, data, j, dimensions);
    }
    assert Ordered(IndexOf, b[d..]) by {
      forall m, n | 0 <= m < n < |b[d..]| ensures IndexOf(b[d..][m]) <= IndexOf(b[d..][n]) {
        assert IndexOf(b[d + m]) <= IndexOf(b[d + n]);
      }
    }
    assert b[d + 1].index == d;
    SecondClaim(b[d..]);
  }

  /** Some reordering of the items gives a different result. */
  ghost predicate OrderDependent(sqrt: real -> real, data: seq<Item>, count: nat, dimensions: nat) {
    exists b :: multiset(b) == multiset(data) && Embeddings(sqrt, b, count, dimensions) != Embeddings(sqrt, data, count, dimensions)
  }

  /** The count is right, and reading gets as far as an index whose claimants would be rejected differently. */
  ghost predicate OrderMatters(sqrt: real -> real, data: seq<Item>, count: nat, dimensions: nat) {
    |data| == count && OrderMattersFrom(sqrt, data, 0, dimensions)
  }

  lemma DisagreementClaimsTwice(sqrt: real -> real, s: seq<Item>, d: nat, x: Item, y: Item)
    requires x in s && y in s && x.index == d && y.index == d && x != y
    ensures Claims(s, d) >= 2
  {
    var i :| 0 <= i < |s| && s[i] == x;
    var j :| 0 <= j < |s| && s[j] == y;
    var ks := Indices(s);
    assert ks == ks[..i] + [ks[i]] + ks[i + 1..];
    var rest := ks[..i] + ks[i + 1..];
    assert multiset(ks) == multiset(rest) + multiset{d};
    assert rest[if j < i then j else j - 1] == d;
    assert d in rest;
    assert d in multiset(rest);
  }

  lemma MattersMakesDependent(sqrt: real -> real, data: seq<Item>, count: nat, dimensions: nat)
    requires OrderMatters(sqrt, data, count, dimensions)
    ensures OrderDependent(sqrt, data, count, dimensions)
  {
    var d: nat :| d >= 0 && ReadsTo(sqrt, data, 0, d, dimensions) && Disagree(sqrt, data, d, dimensions);
    var x, y :| x in data && y in data && x.index == d && y.index == d && Outcome(sqrt, x, dimensions) != Outcome(sqrt, y, dimensions);
    DisagreementClaimsTwice(sqrt, data, d, x, y);
    var bx := ClaimantDecides(sqrt, data, d, x, dimensions);
    var by' := ClaimantDecides(sqrt, data, d, y, dimensions);
    if Embeddings(sqrt, bx, count, dimensions) == Embeddings(sqrt, data, count, dimensions) {
      assert Embeddings(sqrt, by', count, dimensions) != Embeddings(sqrt, data, count, dimensions);
    }
  }

  /** The order of the items changes the result of some reordering exactly when it matters at the index where reading stops. */
  lemma OrderDependentIff(sqrt: real -> real, data: seq<Item>, count: nat, dimensions: nat)
    ensures OrderDependent(sqrt, data, count, dimensions) <==> OrderMatters(sqrt, data, count, dimensions)
  {
    if OrderMatters(sqrt, data, count, dimensions) {
      MattersMakesDependent(sqrt, data, count, dimensions);
    } else {
      forall b | multiset(b) == multiset(data) ensures Embeddings(sqrt, b, count, dimensions) == Embeddings(sqrt, data, count, dimensions) {
        SortedAgree(sqrt, data, b, count, dimensions);
      }
    }
  }

  lemma SortedAgree(sqrt: real -> real, data: seq<Item>, b: seq<Item>, count: nat, dimensions: nat)
    requires multiset(b) == multiset(data) && !OrderMatters(sqrt, data, count, dimensions)
    ensures Embeddings(sqrt, b, count, dimensions) == Embeddings(sqrt, data, count, dimensions)
  {
    assert |data| == |multiset(data)| == |multiset(b)| == |b|;
    if |data| == count {
      SortOrdered(data);
      SortOrdered(b);
      if OrderMattersFrom(sqrt, SortByIndex(data), 0, dimensions) {
        MattersIgnoresOrder(sqrt, SortByIndex(data), data, dimensions);
      }
      ArrangementsAgree(sqrt, SortByIndex(data), SortByIndex(b), 0, dimensions);
    }
  }

  lemma MattersIgnoresOrder(sqrt: real -> real, a: seq<Item>, b: seq<Item>, dimensions: nat)
    requires multiset(a) == multiset(b) && OrderMattersFrom(sqrt, a, 0, dimensions)
    ensures OrderMattersFrom(sqrt, b, 0, dimensions)
  {
    var d: nat :| d >= 0 && ReadsTo(sqrt, a, 0, d, dimensions) && Disagree(sqrt, a, d, dimensions);
    forall k | 0 <= k < d ensures Claims(b, k) == 1 && ValidAt(sqrt, b, k, dimensions) {
      ClaimsIgnoreOrder(a, b, k);
      forall x | x in b && x.index == k ensures ValidateVector(sqrt, x.embedding, dimensions).Ok? {
        MembersIgnoreOrder(a, b, x);
        assert ValidAt(sqrt, a, k, dimensions);
      }
    }
    var x, y :| x in a && y in a && x.index == d && y.index == d && Outcome(sqrt, x, dimensions) != Outcome(sqrt, y, dimensions);
    MembersIgnoreOrder(a, b, x);
    MembersIgnoreOrder(a, b, y);
    assert ReadsTo(sqrt, b, 0, d, dimensions) && Disagree(sqrt, b, d, dimensions);
  }

  /** An accepted response reads the same in every order. */
  lemma AcceptanceIgnoresOrder(sqrt: real -> real, a: seq<Item>, b: seq<Item>, count: nat, dimensions: nat)
    requires multiset(a) == multiset(b) && Embeddings(sqrt, a, count, dimensions).Ok?
    ensures Embeddings(sqrt, b, count, dimensions) == Embeddings(sqrt, a, count, dimensions)
  {
    AcceptedIff(sqrt, a, count, dimensions);
    SortedAgree(sqrt, a, b, count, dimensions);
  }

  /** With two items claiming index 0, which of them comes first decides which error is reported. */
  lemma RejectionMayDependOnOrder(sqrt: real -> real) returns (a: seq<Item>, b: seq<Item>)
    requires IsSqrt(sqrt)
    ensures multiset(a) == multiset(b)
    ensures Embeddings(sqrt, a, 2, 1) == Err(IndexMismatch) && Embeddings(sqrt, b, 2, 1) == Err(InvalidValues)
  {
    var good, bad := Item(0, [Finite(1.0)]), Item(0, [NotFinite]);
    a, b := [good, bad], [bad, good];
    UnitLengthIsValid(sqrt, good);
    SortOfPair(good, bad);
    SortOfPair(bad, good);
    assert a[1..] == [bad];
    assert Validated(sqrt, a[1..], 1, 1) == Err(IndexMismatch);
    assert !AllFinite(bad.embedding) by {
      assert !bad.embedding[0].Finite?;
    }
    assert ValidateVector(sqrt, b[0].embedding, 1) == Err(InvalidValues);
  }

  lemma SortOfPair(x: Item, y: Item)
    requires x.index == y.index
    ensures SortByIndex([x, y]) == [x, y]
  {
    assert [x, y][1..] == [y] && [y][1..] == [];
    assert SortByIndex([y]) == [y];
  }

  lemma UnitLengthIsValid(sqrt: real -> real, x: Item)
    requires IsSqrt(sqrt) && x.embedding == [Finite(1.0)]
    ensures ValidateVector(sqrt, x.embedding, 1).Ok?
  {
    var v := Values(x.embedding);
    assert Products(v, v) == [1.0] && [1.0][..0] == [];
    assert Norm2(v) == 1.0;
    RootsAgree(Magnitude(sqrt, v), 1.0);
  }

  // ---------------------------------------------------------------- what reaches the centroid

  lemma AcceptedVectors(sqrt: real -> real, data: seq<Item>, count: nat, dimensions: nat)
    requires Embeddings(sqrt, data, count, dimensions).Ok?
    ensures var vs := Embeddings(sqrt, data, count, dimensions).value;
            |vs| == count && forall i :: 0 <= i < |vs| ==> |vs[i]| == dimensions && Magnitude(sqrt, vs[i]) > Centroid.EPSILON
  {
    ValidatedInOrder(sqrt, SortByIndex(data), 0, dimensions);
  }

  lemma {:induction false} WeightsAddUp(ws: seq<real>)
    requires forall i :: 0 <= i < |ws| ==> ws[i] >= 0.1
    ensures ws != [] ==> Sum(ws) >= 0.1
  {
    if |ws| > 1 {
      WeightsAddUp(ws[..|ws| - 1]);
    } else if ws != [] {
      assert Sum(ws[..0]) == 0.0;
    }
  }

  lemma EmptyVectorsAreZero(sqrt: real -> real, v: seq<real>)
    requires IsSqrt(sqrt) && v == []
    ensures Magnitude(sqrt, v) == 0.0
  {
    RootsAgree(sqrt(0.0), 0.0);
  }

  /** After an accepted response with valid weights, aggregation fails only when the weighted mean collapses. */
  lemma OnlyCollapseFails(sqrt: real -> real, data: seq<Item>, weights: seq<real>, dimensions: nat)
    requires IsSqrt(sqrt) && weights != [] && forall i :: 0 <= i < |weights| ==> weights[i] >= 0.1
    requires Embeddings(sqrt, data, |weights|, dimensions).Ok?
    ensures |Embeddings(sqrt, data, |weights|, dimensions).value| == |weights|
    ensures var items := Centroid.Zip(weights, Embeddings(sqrt, data, |weights|, dimensions).value);
            && Centroid.Usable(sqrt, items, dimensions) && Centroid.TotalWeight(items) > Centroid.EPSILON
            && (Centroid.CentroidOf(sqrt, items, dimensions).Err?
                <==> Magnitude(sqrt, Centroid.Mean(sqrt, items, dimensions)) <= Centroid.EPSILON)
            && (Centroid.CentroidOf(sqrt, items, dimensions).Err? ==>
                  Centroid.CentroidOf(sqrt, items, dimensions) == Err(Centroid.ZeroCentroid))
  {
    AcceptedVectors(sqrt, data, |weights|, dimensions);
    var vs := Embeddings(sqrt, data, |weights|, dimensions).value;
    var items := Centroid.Zip(weights, vs);
    forall x | x in items ensures |x.vector| == dimensions && Magnitude(sqrt, x.vector) > Centroid.EPSILON {
      var i :| 0 <= i < |items| && items[i] == x;
    }
    if vs[0] == [] {
      EmptyVectorsAreZero(sqrt, vs[0]);
    }
    assert Centroid.Weights(items) == weights;
    WeightsAddUp(weights);
  }
}
