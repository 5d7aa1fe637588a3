/**
 Strings as the Rust standard library treats them: white space, trimming, splitting,
 joining, ASCII lower case, and lexicographic order.
 */
module Text {

  /** Unicode White_Space, the class behind `char::is_whitespace`. */
  predicate IsSpace(c: char) {
    var n := c as int;
    9 <= n <= 13 || n == 0x20 || n == 0x85 || n == 0xA0 || n == 0x1680
    || 0x2000 <= n <= 0x200A || n == 0x2028 || n == 0x2029 || n == 0x202F
    || n == 0x205F || n == 0x3000
  }

  // ---------------------------------------------------------------- words

  predicate IsWord(w: string) {
    w != [] && forall i :: 0 <= i < |w| ==> !IsSpace(w[i])
  }

  predicate AreWords(ws: seq<string>) {
    forall i :: 0 <= i < |ws| ==> IsWord(ws[i])
  }

  /** The longest prefix without white space. */
  function WordPrefix(s: string): (n: nat)
    ensures n <= |s|
    ensures forall i :: 0 <= i < n ==> !IsSpace(s[i])
    ensures n < |s| ==> IsSpace(s[n])
  {
    if s == [] || IsSpace(s[0]) then 0 else 1 + WordPrefix(s[1..])
  }

  /** `str::split_whitespace`. */
  function SplitWhitespace(s: string): (ws: seq<string>)
    ensures AreWords(ws)
    decreases |s|
  {
    if s == [] then []
    else if IsSpace(s[0]) then SplitWhitespace(s[1..])
    else
      var n := WordPrefix(s);
      [s[..n]] + SplitWhitespace(s[n..])
  }

  /** `[..].join(" ")`. */
  function JoinSpace(ws: seq<string>): string {
    if |ws| == 0 then ""
    else if |ws| == 1 then ws[0]
    else ws[0] + " " + JoinSpace(ws[1..])
  }

  /** `collapse_whitespace` and `normalize_content`: one function under three names in the source. */
  function CollapseWhitespace(s: string): string {
    JoinSpace(SplitWhitespace(s))
  }

  lemma SplitStartsWithWord(w: string, rest: string)
    requires IsWord(w)
    requires rest == [] || IsSpace(rest[0])
    ensures SplitWhitespace(w + rest) == [w] + SplitWhitespace(rest)
  {
    var s := w + rest;
    var n := WordPrefix(s);
    assert forall i :: 0 <= i < |w| ==> s[i] == w[i];
    assert rest != [] ==> s[|w|] == rest[0];
    assert n == |w|;
    assert s[..n] == w && s[n..] == rest;
  }

  /** Splitting a join of words gives the words back. */
  lemma {:induction false} SplitOfJoin(ws: seq<string>)
    requires AreWords(ws)
    ensures SplitWhitespace(JoinSpace(ws)) == ws
  {
    if |ws| == 0 {
    } else if |ws| == 1 {
      SplitStartsWithWord(ws[0], "");
      assert ws[0] + "" == ws[0];
      assert ws == [ws[0]];
    } else {
      var tail := " " + JoinSpace(ws[1..]);
      SplitStartsWithWord(ws[0], tail);
      assert tail[1..] == JoinSpace(ws[1..]);
      SplitOfJoin(ws[1..]);
      assert ws[0] + " " + JoinSpace(ws[1..]) == ws[0] + tail;
    }
  }

  /** Two texts collapse to one form exactly when they carry the same words. */
  lemma CollapseIdentifiesWords(a: string, b: string)
    ensures CollapseWhitespace(a) == CollapseWhitespace(b) <==> SplitWhitespace(a) == SplitWhitespace(b)
  {
    SplitOfJoin(SplitWhitespace(a));
    SplitOfJoin(SplitWhitespace(b));
  }

  lemma CollapseIdempotent(s: string)
    ensures CollapseWhitespace(CollapseWhitespace(s)) == CollapseWhitespace(s)
  {
    SplitOfJoin(SplitWhitespace(s));
  }

  // ---------------------------------------------------------------- trimming

  function TrimStart(s: string): (t: string)
    ensures |t| <= |s|
    ensures t != [] ==> !IsSpace(t[0])
  {
    if s != [] && IsSpace(s[0]) then TrimStart(s[1..]) else s
  }

  function TrimEnd(s: string): (t: string)
    ensures t <= s
    ensures t != [] ==> !IsSpace(t[|t| - 1])
  {
    if s != [] && IsSpace(s[|s| - 1]) then TrimEnd(s[..|s| - 1]) else s
  }

  /** `str::trim`. */
  function Trim(s: string): string {
    TrimEnd(TrimStart(s))
  }

  predicate IsTrimmed(s: string) {
    s == [] || (!IsSpace(s[0]) && !IsSpace(s[|s| - 1]))
  }

  lemma TrimFixesTrimmed(s: string)
    requires IsTrimmed(s)
    ensures Trim(s) == s
  {
  }

  lemma TrimIsTrimmed(s: string)
    ensures IsTrimmed(Trim(s))
  {
    var t := TrimStart(s);
    var u := TrimEnd(t);
    if u != [] {
      assert u[0] == t[0];
    }
  }

  predicate AllSpace(s: string) {
    forall i :: 0 <= i < |s| ==> IsSpace(s[i])
  }

  lemma {:induction false} TrimStartKeeps(s: string) returns (n: nat)
    ensures n <= |s| && TrimStart(s) == s[n..] && AllSpace(s[..n])
  {
    n := 0;
    if s != [] && IsSpace(s[0]) {
      var m := TrimStartKeeps(s[1..]);
      n := m + 1;
      assert s[1..][m..] == s[n..];
      forall i | 0 <= i < n ensures IsSpace(s[..n][i]) {
        if i > 0 { assert s[..n][i] == s[1..][..m][i - 1]; }
      }
    }
  }

  lemma {:induction false} TrimEndKeeps(s: string)
    ensures AllSpace(s[|TrimEnd(s)|..])
  {
    if s != [] && IsSpace(s[|s| - 1]) {
      var n := |TrimEnd(s)|;
      TrimEndKeeps(s[..|s| - 1]);
      forall i | 0 <= i < |s| - n ensures IsSpace(s[n..][i]) {
        if i < |s| - n - 1 { assert s[n..][i] == s[..|s| - 1][n..][i]; }
      }
    }
  }

  /** Trimming takes white space off the ends and nothing else. */
  lemma TrimKeeps(s: string) returns (lead: string, tail: string)
    ensures s == lead + Trim(s) + tail && AllSpace(lead) && AllSpace(tail) && IsTrimmed(Trim(s))
  {
    var n := TrimStartKeeps(s);
    var rest := TrimStart(s);
    TrimEndKeeps(rest);
    lead, tail := s[..n], rest[|Trim(s)|..];
    assert s == lead + rest && rest == Trim(s) + tail;
    assert lead + (Trim(s) + tail) == lead + Trim(s) + tail;
    TrimIsTrimmed(s);
  }

  // ---------------------------------------------------------------- order

  /** `Ord` on strings: UTF-8 byte order, which is code point order. */
  predicate Less(a: string, b: string) {
    b != [] && (a == [] || a[0] < b[0] || (a[0] == b[0] && Less(a[1..], b[1..])))
  }

  lemma {:induction false} LessTotal(a: string, b: string)
    ensures Less(a, b) || a == b || Less(b, a)
  {
    if a != [] && b != [] && a[0] == b[0] {
      LessTotal(a[1..], b[1..]);
      assert a == [a[0]] + a[1..] && b == [b[0]] + b[1..];
    }
  }

  lemma {:induction false} LessAsymmetric(a: string, b: string)
    requires Less(a, b)
    ensures !Less(b, a) && a != b
  {
    if a != [] && a[0] == b[0] {
      LessAsymmetric(a[1..], b[1..]);
    }
  }

  lemma {:induction false} LessTransitive(a: string, b: string, c: string)
    requires Less(a, b) && Less(b, c)
    ensures Less(a, c)
  {
    if a != [] && a[0] == b[0] == c[0] {
      LessTransitive(a[1..], b[1..], c[1..]);
    }
  }

  lemma {:induction false} LessAtFirstDifference(a: string, b: string, k: nat)
    requires k < |a| && k < |b| && a[..k] == b[..k] && a[k] < b[k]
    ensures Less(a, b)
  {
    if k > 0 {
      assert a[0] == a[..k][0] == b[..k][0] == b[0];
      assert a[1..][..k - 1] == a[..k][1..] == b[..k][1..] == b[1..][..k - 1];
      LessAtFirstDifference(a[1..], b[1..], k - 1);
    }
  }

  // ---------------------------------------------------------------- case

  function LowerChar(c: char): char {
    if 'A' <= c <= 'Z' then (c as int + 32) as char else c
  }

  /** `str::to_ascii_lowercase`. */
  function Lower(s: string): (t: string)
    ensures |t| == |s|
    ensures forall i :: 0 <= i < |s| ==> t[i] == LowerChar(s[i])
  {
    if s == [] then [] else [LowerChar(s[0])] + Lower(s[1..])
  }
}
