/** Prefixes, images and reorderings of sequences. */
module Sequences {

  function Take<T>(s: seq<T>, k: nat): (r: seq<T>)
    ensures r <= s && |r| <= k
  {
    if |s| <= k then s else s[..k]
  }

  function Map<T, R>(f: T -> R, s: seq<T>): (r: seq<R>)
    ensures |r| == |s| && forall i :: 0 <= i < |s| ==> r[i] == f(s[i])
  {
    seq(|s|, i requires 0 <= i < |s| => f(s[i]))
  }

  /** The last element of a sequence stands somewhere in any reordering of it. */
  lemma LastElsewhere<T>(a: seq<T>, b: seq<T>) returns (i: nat)
    requires multiset(a) == multiset(b) && a != []
    ensures i < |b| && b[i] == a[|a| - 1]
    ensures multiset(a[..|a| - 1]) == multiset(b[..i] + b[i + 1..])
  {
    var n := |a| - 1;
    assert a[n] in multiset(a);
    assert a[n] in b;
    i :| 0 <= i < |b| && b[i] == a[n];
    assert a == a[..n] + [a[n]];
    assert b == b[..i] + [b[i]] + b[i + 1..];
    MultisetCancels(multiset(a[..n]), multiset(b[..i] + b[i + 1..]), multiset{a[n]});
  }

  lemma MultisetCancels<T>(a: multiset<T>, b: multiset<T>, c: multiset<T>)
    requires a + c == b + c
    ensures a == b
  {
    assert a == (a + c) - c && b == (b + c) - c;
  }

  lemma {:induction false} MapPermuted<T, R>(f: T -> R, a: seq<T>, b: seq<T>)
    requires multiset(a) == multiset(b)
    ensures multiset(Map(f, a)) == multiset(Map(f, b))
    decreases |a|
  {
    assert |a| == |multiset(a)| == |b|;
    if a == [] {
      assert a == b;
    } else {
      var n := |a| - 1;
      var i := LastElsewhere(a, b);
      MapPermuted(f, a[..n], b[..i] + b[i + 1..]);
      MapWithout(f, a, n);
      MapWithout(f, b, i);
      assert a[..n] + a[n + 1..] == a[..n];
    }
  }

  lemma MapWithout<T, R>(f: T -> R, s: seq<T>, i: nat)
    requires i < |s|
    ensures multiset(Map(f, s)) == multiset(Map(f, s[..i] + s[i + 1..])) + multiset{f(s[i])}
  {
    var r := Map(f, s);
    assert r == r[..i] + [r[i]] + r[i + 1..];
    assert Map(f, s[..i] + s[i + 1..]) == r[..i] + r[i + 1..];
  }
}
