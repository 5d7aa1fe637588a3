/** Keeping the first of the elements that share a key, in order. */
module Dedup {
  import opened Sequences

  function KeysOf<T(==), K(==)>(key: T -> K, s: seq<T>): (ks: set<K>)
    ensures forall x :: x in s ==> key(x) in ks
    ensures forall k :: k in ks ==> exists x :: x in s && key(x) == k
  {
    set x | x in s :: key(x)
  }

  lemma KeysOfAppend<T, K>(key: T -> K, s: seq<T>, x: T)
    ensures KeysOf(key, s + [x]) == KeysOf(key, s) + {key(x)}
  {
    assert forall y :: y in s + [x] <==> y in s || y == x;
    forall k | k in KeysOf(key, s) ensures k in KeysOf(key, s + [x]) {
      var y :| y in s && key(y) == k;
      assert y in s + [x];
    }
    assert x in s + [x];
  }

  /** What a loop with a set of seen keys leaves. */
  function DedupBy<T(==), K(==)>(key: T -> K, s: seq<T>): (r: seq<T>)
    ensures forall x :: x in r ==> x in s
  {
    if s == [] then []
    else
      var front := DedupBy(key, s[..|s| - 1]);
      var x := s[|s| - 1];
      if key(x) in KeysOf(key, front) then front else front + [x]
  }

  /** Position `i` is the first of its key. */
  predicate IsFirst<K(==)>(ks: seq<K>, i: nat) {
    i < |ks| && forall j :: 0 <= j < i ==> ks[j] != ks[i]
  }

  predicate Increasing(at: seq<nat>) {
    forall k, l :: 0 <= k < l < |at| ==> at[k] < at[l]
  }

  /** `at` lists, in order, exactly the first positions of the keys. */
  ghost predicate FirstPositions<K>(ks: seq<K>, at: seq<nat>) {
    Increasing(at) && forall i: nat :: i in at <==> IsFirst(ks, i)
  }

  predicate Picks<T(==)>(s: seq<T>, at: seq<nat>, r: seq<T>) {
    |r| == |at| && forall k :: 0 <= k < |at| ==> at[k] < |s| && r[k] == s[at[k]]
  }

  lemma {:induction false} DedupKeys<T, K>(key: T -> K, s: seq<T>)
    ensures KeysOf(key, DedupBy(key, s)) == KeysOf(key, s)
  {
    if s != [] {
      var front, x := s[..|s| - 1], s[|s| - 1];
      DedupKeys(key, front);
      assert s == front + [x];
      assert forall y :: y in s <==> y in front || y == x;
      var d := DedupBy(key, front);
      assert forall y :: y in d + [x] <==> y in d || y == x;
    }
  }

  lemma PositionsGrow<K>(ks: seq<K>, at: seq<nat>, k: K)
    requires FirstPositions(ks, at)
    ensures k in ks ==> FirstPositions(ks + [k], at)
    ensures k !in ks ==> FirstPositions(ks + [k], at + [|ks|])
  {
    var ks' := ks + [k];
    forall i: nat | i < |ks| ensures IsFirst(ks', i) <==> IsFirst(ks, i) {
      assert forall j :: 0 <= j <= i ==> ks'[j] == ks[j];
    }
    if k in ks {
      var j :| 0 <= j < |ks| && ks[j] == k;
      assert ks'[j] == ks'[|ks|];
      assert !IsFirst(ks', |ks|);
    } else {
      assert IsFirst(ks', |ks|);
      assert forall i: nat :: i in at + [|ks|] <==> i in at || i == |ks|;
      assert forall i :: 0 <= i < |at| ==> at[i] in at;
    }
  }

  lemma PicksMore<T>(s: seq<T>, x: T, at: seq<nat>, r: seq<T>)
    requires Picks(s, at, r)
    ensures Picks(s + [x], at, r) && Picks(s + [x], at + [|s|], r + [x])
  {
  }

  /** One more element is picked if its key is new. */
  lemma PicksGrow<T, K>(key: T -> K, s: seq<T>, x: T, at: seq<nat>, kept: bool)
    requires Picks(s, at, DedupBy(key, s)) && (kept <==> key(x) !in KeysOf(key, DedupBy(key, s)))
    ensures Picks(s + [x], if kept then at + [|s|] else at, DedupBy(key, s + [x]))
  {
    PicksMore(s, x, at, DedupBy(key, s));
    assert (s + [x])[..|s|] == s;
  }

  lemma PicksStep<T, K>(key: T -> K, s: seq<T>, x: T, before: seq<nat>) returns (at: seq<nat>)
    requires FirstPositions(Map(key, s), before) && Picks(s, before, DedupBy(key, s))
    ensures FirstPositions(Map(key, s + [x]), at) && Picks(s + [x], at, DedupBy(key, s + [x]))
  {
    var kept := key(x) !in Map(key, s);
    PositionsGrow(Map(key, s), before, key(x));
    SeenMeansEarlier(key, s, key(x));
    PicksGrow(key, s, x, before, kept);
    KeysOfLast(key, s, x);
    at := if kept then before + [|s|] else before;
  }

  /** The result picks the first element of every key, in the order of the sequence. */
  lemma {:induction false} DedupPicksFirsts<T, K>(key: T -> K, s: seq<T>) returns (at: seq<nat>)
    ensures FirstPositions(Map(key, s), at) && Picks(s, at, DedupBy(key, s))
  {
    if s == [] {
      at := [];
    } else {
      var n := |s| - 1;
      at := DedupPicksFirsts(key, s[..n]);
      at := PicksStep(key, s[..n], s[n], at);
      assert s == s[..n] + [s[n]];
    }
  }

  lemma KeysOfLast<T, K>(key: T -> K, s: seq<T>, x: T)
    ensures Map(key, s + [x]) == Map(key, s) + [key(x)]
  {
  }

  lemma SeenMeansEarlier<T, K>(key: T -> K, s: seq<T>, k: K)
    ensures k in KeysOf(key, DedupBy(key, s)) <==> k in Map(key, s)
  {
    DedupKeys(key, s);
    if k in Map(key, s) {
      var j :| 0 <= j < |s| && Map(key, s)[j] == k;
      assert s[j] in s;
    }
    if k in KeysOf(key, s) {
      var x :| x in s && key(x) == k;
      var j :| 0 <= j < |s| && s[j] == x;
      assert Map(key, s)[j] == k;
    }
  }

  lemma DedupDistinct<T, K>(key: T -> K, s: seq<T>)
    ensures forall i, j :: 0 <= i < j < |DedupBy(key, s)| ==> key(DedupBy(key, s)[i]) != key(DedupBy(key, s)[j])
  {
    var at := DedupPicksFirsts(key, s);
    var r := DedupBy(key, s);
    forall i, j | 0 <= i < j < |r| ensures key(r[i]) != key(r[j]) {
      assert at[j] in at;
      assert IsFirst(Map(key, s), at[j]) && at[i] < at[j];
    }
  }

  /** More input never changes what was kept so far. */
  lemma {:induction false} DedupGrows<T, K>(key: T -> K, a: seq<T>, b: seq<T>)
    ensures DedupBy(key, a) <= DedupBy(key, a + b)
    decreases |b|
  {
    if b == [] {
      assert a + b == a;
    } else {
      var m := |b| - 1;
      DedupGrows(key, a, b[..m]);
      assert (a + b)[..|a + b| - 1] == a + b[..m];
    }
  }
}
