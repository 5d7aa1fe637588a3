/**
 Ranked selection: `ORDER BY distance, id LIMIT k` over the rows that pass a filter.
 Rows are scanned in storage order; the result does not depend on it.
 */
module Ranking {
  import opened Sequences

  /** What rows are ordered by. Identifiers are unique, so ranks are. */
  datatype Rank = Rank(distance: real, id: nat)

  predicate Before(a: Rank, b: Rank) {
    a.distance < b.distance || (a.distance == b.distance && a.id < b.id)
  }

  predicate Ascending<T(!new)>(key: T -> Rank, s: seq<T>) {
    forall i, j :: 0 <= i < j < |s| ==> Before(key(s[i]), key(s[j]))
  }

  /** No two rows share a rank; in particular no row occurs twice. */
  predicate DistinctRanks<T(!new)>(key: T -> Rank, s: seq<T>) {
    forall i, j :: 0 <= i < j < |s| ==> key(s[i]) != key(s[j])
  }

  function Filter<T(!new)>(s: seq<T>, keep: T -> bool): (r: seq<T>)
    ensures forall x :: x in r <==> x in s && keep(x)
    ensures |r| <= |s|
  {
    if s == [] then [] else (if keep(s[0]) then [s[0]] else []) + Filter(s[1..], keep)
  }

  function Insert<T(!new)>(key: T -> Rank, x: T, s: seq<T>): (r: seq<T>)
    ensures |r| == |s| + 1
    ensures forall y :: y in r <==> y == x || y in s
  {
    if s == [] || Before(key(x), key(s[0])) then [x] + s else [s[0]] + Insert(key, x, s[1..])
  }

  function Sort<T(!new)>(key: T -> Rank, s: seq<T>): (r: seq<T>)
    ensures |r| == |s|
    ensures forall y :: y in r <==> y in s
  {
    if s == [] then [] else Insert(key, s[0], Sort(key, s[1..]))
  }

  lemma {:induction false} InsertAscending<T(!new)>(key: T -> Rank, x: T, s: seq<T>)
    requires Ascending(key, s) && forall y :: y in s ==> key(y) != key(x)
    ensures Ascending(key, Insert(key, x, s))
  {
    if s == [] {
    } else if Before(key(x), key(s[0])) {
      var r := [x] + s;
      forall i, j | 0 <= i < j < |r| ensures Before(key(r[i]), key(r[j])) {
        if i == 0 && j > 1 { assert Before(key(s[0]), key(s[j - 1])); }
      }
    } else {
      InsertAscending(key, x, s[1..]);
      var t := Insert(key, x, s[1..]);
      var r := [s[0]] + t;
      forall j | 0 <= j < |t| ensures Before(key(s[0]), key(t[j])) {
        assert t[j] in t;
        if t[j] != x {
          var m :| 0 <= m < |s[1..]| && s[1..][m] == t[j];
          assert Before(key(s[0]), key(s[m + 1]));
        }
      }
    }
  }

  lemma {:induction false} SortAscending<T(!new)>(key: T -> Rank, s: seq<T>)
    requires DistinctRanks(key, s)
    ensures Ascending(key, Sort(key, s))
  {
    if s != [] {
      SortAscending(key, s[1..]);
      forall y | y in Sort(key, s[1..]) ensures key(y) != key(s[0]) {
        var m :| 0 <= m < |s[1..]| && s[1..][m] == y;
        assert key(s[0]) != key(s[m + 1]);
      }
      InsertAscending(key, s[0], Sort(key, s[1..]));
    }
  }

  /** An ascending sequence is determined by its elements. */
  lemma {:induction false} AscendingUnique<T(!new)>(key: T -> Rank, a: seq<T>, b: seq<T>)
    requires Ascending(key, a) && Ascending(key, b)
    requires forall x :: x in a <==> x in b
    ensures a == b
  {
    if a == [] {
      assert forall i :: 0 <= i < |b| ==> b[i] in b;
    } else {
      assert a[0] in b && b != [] && b[0] in a;
      FirstIsLeast(key, a, b[0]);
      FirstIsLeast(key, b, a[0]);
      assert a[0] == b[0];
      TailElements(key, a);
      TailElements(key, b);
      assert Ascending(key, a[1..]) && Ascending(key, b[1..]);
      AscendingUnique(key, a[1..], b[1..]);
      assert a == [a[0]] + a[1..] && b == [b[0]] + b[1..];
    }
  }

  lemma FirstIsLeast<T(!new)>(key: T -> Rank, s: seq<T>, x: T)
    requires Ascending(key, s) && x in s
    ensures x == s[0] || Before(key(s[0]), key(x))
  {
    var i :| 0 <= i < |s| && s[i] == x;
  }

  lemma TailElements<T(!new)>(key: T -> Rank, s: seq<T>)
    requires Ascending(key, s) && s != []
    ensures forall x :: x in s[1..] <==> x in s && x != s[0]
  {
    forall x | x in s && x != s[0] ensures x in s[1..] {
      var i :| 0 <= i < |s| && s[i] == x;
      assert s[1..][i - 1] == x;
    }
    forall x | x in s[1..] ensures x in s && x != s[0] {
      var i :| 0 <= i < |s[1..]| && s[1..][i] == x;
      assert s[i + 1] == x && Before(key(s[0]), key(s[i + 1]));
    }
  }

  lemma {:induction false} FilterDistinct<T(!new)>(key: T -> Rank, s: seq<T>, keep: T -> bool)
    requires DistinctRanks(key, s)
    ensures DistinctRanks(key, Filter(s, keep))
  {
    if s != [] {
      FilterDistinct(key, s[1..], keep);
      var rest := Filter(s[1..], keep);
      forall j | 0 <= j < |rest| ensures key(s[0]) != key(rest[j]) {
        assert rest[j] in s[1..];
        var m :| 0 <= m < |s[1..]| && s[1..][m] == rest[j];
        assert key(s[0]) != key(s[m + 1]);
      }
    }
  }

  lemma FilterAgrees<T(!new)>(s: seq<T>, keep: T -> bool, other: T -> bool)
    requires forall x :: x in s ==> keep(x) == other(x)
    ensures Filter(s, keep) == Filter(s, other)
  {
  }

  // ---------------------------------------------------------------- selection

  /** The rows a filtered, ranked and limited query returns. */
  function Select<T(!new)>(key: T -> Rank, rows: seq<T>, keep: T -> bool, k: nat): seq<T> {
    Take(Sort(key, Filter(rows, keep)), k)
  }

  /** What the query promises, without saying how it is computed. */
  ghost predicate IsTop<T(!new)>(key: T -> Rank, rows: seq<T>, keep: T -> bool, k: nat, hits: seq<T>) {
    && Ascending(key, hits)
    && |hits| <= k
    && (forall x :: x in hits ==> x in rows && keep(x))
    && (forall x :: x in rows && keep(x) && x !in hits ==>
          |hits| == k && forall i :: 0 <= i < |hits| ==> Before(key(hits[i]), key(x)))
  }

  /** The query returns the best qualifying rows in order, and nothing else fits that description. */
  lemma SelectIsTop<T(!new)>(key: T -> Rank, rows: seq<T>, keep: T -> bool, k: nat)
    requires DistinctRanks(key, rows)
    ensures IsTop(key, rows, keep, k, Select(key, rows, keep, k))
  {
    FilterDistinct(key, rows, keep);
    var sorted := Sort(key, Filter(rows, keep));
    SortAscending(key, Filter(rows, keep));
    var hits := Take(sorted, k);
    forall x | x in rows && keep(x) && x !in hits
      ensures |hits| == k && forall i :: 0 <= i < |hits| ==> Before(key(hits[i]), key(x))
    {
      assert x in sorted;
      var m :| 0 <= m < |sorted| && sorted[m] == x;
      assert forall i :: 0 <= i < |hits| ==> hits[i] in hits;
      assert m >= |hits|;
    }
  }

  lemma TopUnique<T(!new)>(key: T -> Rank, rows: seq<T>, keep: T -> bool, k: nat, a: seq<T>, b: seq<T>)
    requires IsTop(key, rows, keep, k, a) && IsTop(key, rows, keep, k, b)
    ensures a == b
  {
    TopContained(key, rows, keep, k, a, b);
    TopContained(key, rows, keep, k, b, a);
    AscendingUnique(key, a, b);
  }

  lemma TopContained<T(!new)>(key: T -> Rank, rows: seq<T>, keep: T -> bool, k: nat, a: seq<T>, b: seq<T>)
    requires IsTop(key, rows, keep, k, a) && IsTop(key, rows, keep, k, b)
    ensures forall x :: x in a ==> x in b
  {
    forall x | x in a ensures x in b {
      if x !in b {
        var i :| 0 <= i < |a| && a[i] == x;
        assert forall j :: 0 <= j < |b| ==> b[j] in a by {
          forall j | 0 <= j < |b| ensures b[j] in a {
            assert b[j] in b;
            assert Before(key(b[j]), key(x));
            assert !Before(key(a[i]), key(b[j]));
          }
        }
        FitsBefore(key, a, b, i);
      }
    }
  }

  lemma OrderReflects<T(!new)>(key: T -> Rank, a: seq<T>, m: nat, i: nat)
    requires Ascending(key, a) && m < |a| && i < |a| && Before(key(a[m]), key(a[i]))
    ensures m < i
  {
  }

  /** Elements of an ascending sequence that all precede position `i` are at most `i` many. */
  lemma {:induction false} FitsBefore<T(!new)>(key: T -> Rank, a: seq<T>, b: seq<T>, i: nat)
    requires Ascending(key, a) && Ascending(key, b) && i < |a|
    requires forall j :: 0 <= j < |b| ==> b[j] in a && Before(key(b[j]), key(a[i]))
    ensures |b| <= i
    decreases |b|
  {
    if b != [] {
      var last := b[|b| - 1];
      var m :| 0 <= m < |a| && a[m] == last;
      OrderReflects(key, a, m, i);
      FitsBefore(key, a, b[..|b| - 1], m);
    }
  }

  /** Asking for one more row only appends to the answer. */
  lemma SelectPrefix<T(!new)>(key: T -> Rank, rows: seq<T>, keep: T -> bool, k: nat)
    ensures Select(key, rows, keep, k) <= Select(key, rows, keep, k + 1)
  {
  }

  /** Only the set of qualifying rows matters: others use no slot, and storage order is irrelevant. */
  lemma SelectIgnoresOthers<T(!new)>(key: T -> Rank, rows: seq<T>, others: seq<T>, keep: T -> bool, k: nat)
    requires DistinctRanks(key, rows) && DistinctRanks(key, others)
    requires forall x :: (x in rows && keep(x)) <==> (x in others && keep(x))
    ensures Select(key, rows, keep, k) == Select(key, others, keep, k)
  {
    FilterDistinct(key, rows, keep);
    FilterDistinct(key, others, keep);
    SortAscending(key, Filter(rows, keep));
    SortAscending(key, Filter(others, keep));
    AscendingUnique(key, Sort(key, Filter(rows, keep)), Sort(key, Filter(others, keep)));
  }
}
