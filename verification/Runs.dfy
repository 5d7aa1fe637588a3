/** Maximal runs of flagged positions, as a scan finds them and as they are defined. */
module Runs {

  datatype Span = Span(first: nat, end: nat)

  /** Where the run ending just before `n` begins; `n` itself if there is none. */
  function Start(flags: seq<bool>, n: nat): (s: nat)
    requires n <= |flags|
    ensures s <= n && forall i :: s <= i < n ==> flags[i]
    ensures s == 0 || !flags[s - 1]
  {
    if n == 0 || !flags[n - 1] then n else Start(flags, n - 1)
  }

  /** The runs that have ended before position `n`: what a scan has flushed. */
  function Closed(flags: seq<bool>, n: nat): (spans: seq<Span>)
    requires n <= |flags|
    ensures forall s :: s in spans ==> s.first < s.end < n
  {
    if n == 0 then []
    else
      var spans := Closed(flags, n - 1);
      var s := Start(flags, n - 1);
      if flags[n - 1] || s == n - 1 then spans else spans + [Span(s, n - 1)]
  }

  /** All runs: those flushed by the scan and the one open at its end. */
  function Spans(flags: seq<bool>): (spans: seq<Span>)
    ensures forall s :: s in spans ==> s.first < s.end <= |flags|
  {
    var n := |flags|;
    Closed(flags, n) + (if Start(flags, n) < n then [Span(Start(flags, n), n)] else [])
  }

  /** What was flushed stays flushed. */
  lemma {:induction false} ClosedGrows(flags: seq<bool>, m: nat, n: nat)
    requires m <= n <= |flags|
    ensures Closed(flags, m) <= Closed(flags, n)
  {
    if m < n {
      ClosedGrows(flags, m, n - 1);
    }
  }

  /** A nonempty stretch of flagged positions that cannot be extended. */
  predicate IsMaximalRun(flags: seq<bool>, s: Span) {
    && s.first < s.end <= |flags|
    && (forall i :: s.first <= i < s.end ==> flags[i])
    && (s.first == 0 || !flags[s.first - 1])
    && (s.end == |flags| || !flags[s.end])
  }

  predicate InOrder(spans: seq<Span>) {
    forall k, l :: 0 <= k < l < |spans| ==> spans[k].end < spans[l].first
  }

  /** The list of all maximal runs, in order. */
  ghost predicate AreMaximalRuns(flags: seq<bool>, spans: seq<Span>) {
    InOrder(spans) && forall s :: s in spans <==> IsMaximalRun(flags, s)
  }

  /** A maximal run that ends before `n`. */
  predicate EndsBefore(flags: seq<bool>, n: nat, s: Span) {
    IsMaximalRun(flags, s) && s.end < n
  }

  lemma StartUnique(flags: seq<bool>, n: nat, s: Span)
    requires n <= |flags| && IsMaximalRun(flags, s) && s.end == n
    ensures s.first == Start(flags, n)
  {
    FlaggedBack(flags, s.first, Start(flags, n), n);
    FlaggedBack(flags, Start(flags, n), s.first, n);
  }

  /** A stretch of flags up to `n` reaches no further back than an unflagged position. */
  lemma FlaggedBack(flags: seq<bool>, a: nat, b: nat, n: nat)
    requires a <= n <= |flags| && b <= n && forall i :: a <= i < n ==> flags[i]
    requires b == 0 || !flags[b - 1]
    ensures b <= a
  {
  }

  /** A maximal run that ends before `n` but not before `n - 1` is the one the scan then flushes. */
  lemma LastClosed(flags: seq<bool>, n: nat, s: Span)
    requires 0 < n <= |flags|
    ensures EndsBefore(flags, n, s) && s.end == n - 1 <==>
            !flags[n - 1] && Start(flags, n - 1) < n - 1 && s == Span(Start(flags, n - 1), n - 1)
  {
    if EndsBefore(flags, n, s) && s.end == n - 1 {
      StartUnique(flags, n - 1, s);
    }
  }

  lemma {:induction false} ClosedMembers(flags: seq<bool>, n: nat, s: Span)
    requires n <= |flags|
    ensures s in Closed(flags, n) <==> EndsBefore(flags, n, s)
  {
    if n > 0 {
      ClosedMembers(flags, n - 1, s);
      LastClosed(flags, n, s);
    }
  }

  /** Flushed runs end before the open one starts, with a gap. */
  lemma ClosedBeforeStart(flags: seq<bool>, n: nat, s: Span)
    requires n <= |flags| && s in Closed(flags, n)
    ensures s.end < Start(flags, n)
  {
    ClosedMembers(flags, n, s);
    FlaggedBack(flags, Start(flags, n), s.end + 1, n);
  }

  lemma {:induction false} ClosedInOrder(flags: seq<bool>, n: nat)
    requires n <= |flags|
    ensures InOrder(Closed(flags, n))
  {
    if n > 0 {
      var spans := Closed(flags, n - 1);
      ClosedInOrder(flags, n - 1);
      forall k | 0 <= k < |spans| ensures spans[k].end < Start(flags, n - 1) {
        ClosedBeforeStart(flags, n - 1, spans[k]);
      }
    }
  }

  /** The scan finds exactly the maximal runs. */
  lemma SpansAreMaximalRuns(flags: seq<bool>)
    ensures AreMaximalRuns(flags, Spans(flags))
  {
    var n := |flags|;
    var closed, st := Closed(flags, n), Start(flags, n);
    ClosedInOrder(flags, n);
    forall k | 0 <= k < |closed| ensures closed[k].end < st {
      ClosedBeforeStart(flags, n, closed[k]);
    }
    forall s ensures s in Spans(flags) <==> IsMaximalRun(flags, s) {
      ClosedMembers(flags, n, s);
      if IsMaximalRun(flags, s) && s.end == n {
        StartUnique(flags, n, s);
      }
    }
  }

  /** There is only one such list. */
  lemma {:induction false} MaximalRunsUnique(flags: seq<bool>, a: seq<Span>, b: seq<Span>)
    requires InOrder(a) && InOrder(b) && (forall s :: s in a <==> s in b)
    requires forall s :: s in a ==> s.first < s.end
    ensures a == b
    decreases |a|
  {
    EmptyTogether(a, b);
    EmptyTogether(b, a);
    if a != [] {
      HeadsAgree(a, b);
      TailMembers(a);
      TailMembers(b);
      MaximalRunsUnique(flags, a[1..], b[1..]);
      assert a == [a[0]] + a[1..] && b == [b[0]] + b[1..];
    }
  }

  lemma EmptyTogether(a: seq<Span>, b: seq<Span>)
    requires forall s :: s in a ==> s in b
    ensures b == [] ==> a == []
  {
    assert a == [] || a[0] in a;
  }

  lemma HeadsAgree(a: seq<Span>, b: seq<Span>)
    requires a != [] && b != [] && InOrder(a) && InOrder(b) && (forall s :: s in a <==> s in b)
    requires forall s :: s in a ==> s.first < s.end
    ensures a[0] == b[0]
  {
    assert a[0] in b && b[0] in a;
    var i :| 0 <= i < |b| && b[i] == a[0];
    var j :| 0 <= j < |a| && a[j] == b[0];
    assert i == 0;
  }

  lemma TailMembers(a: seq<Span>)
    requires a != [] && InOrder(a) && forall s :: s in a ==> s.first < s.end
    ensures InOrder(a[1..]) && forall s :: s in a[1..] <==> s in a && s != a[0]
  {
    forall s | s in a && s != a[0] ensures s in a[1..] {
      var i :| 0 <= i < |a| && a[i] == s;
      assert a[1..][i - 1] == s;
    }
    forall s | s in a[1..] ensures s != a[0] {
      var i :| 0 <= i < |a[1..]| && a[1..][i] == s;
      assert a[0].end < a[i + 1].first;
      assert a[0] in a;
    }
  }
}
