/**
 Query analysis: the keywords and entity phrases of a query, and the embedding inputs made
 of them. Unicode's letter classes are parameters.
 */
module QueryAnalysis {
  import opened Dedup
  import opened Runs
  import opened Sequences
  import Text

  const MAX_KEYWORDS: nat := 24
  const MAX_ENTITIES: nat := 12

  /** `char::is_alphanumeric`, `is_uppercase` and `is_lowercase`. */
  datatype Classes = Classes(alphanumeric: char -> bool, uppercase: char -> bool, lowercase: char -> bool)

  lemma TakeOfLonger<T>(a: seq<T>, b: seq<T>)
    requires a <= b
    ensures Take(b, |a|) == a
  {
  }

  // ---------------------------------------------------------------- tokens

  predicate IsTokenChar(cl: Classes, c: char) {
    cl.alphanumeric(c) || c == '-' || c == '_'
  }

  function TrimLeft(cl: Classes, s: string): (t: string)
    ensures |t| <= |s| && (t != [] ==> IsTokenChar(cl, t[0]))
  {
    if s == [] || IsTokenChar(cl, s[0]) then s else TrimLeft(cl, s[1..])
  }

  function TrimRight(cl: Classes, s: string): (t: string)
    ensures t <= s && (t != [] ==> IsTokenChar(cl, t[|t| - 1]))
  {
    if s == [] || IsTokenChar(cl, s[|s| - 1]) then s else TrimRight(cl, s[..|s| - 1])
  }

  function CleanToken(cl: Classes, s: string): (t: string)
    ensures |t| <= |s|
  {
    TrimRight(cl, TrimLeft(cl, s))
  }

  /** No character of the text can be at an end of a token. */
  predicate NoTokenChar(cl: Classes, s: string) {
    forall i :: 0 <= i < |s| ==> !cl.alphanumeric(s[i]) && s[i] != '-' && s[i] != '_'
  }

  lemma {:induction false} TrimLeftKeeps(cl: Classes, s: string) returns (n: nat)
    ensures n <= |s| && TrimLeft(cl, s) == s[n..] && NoTokenChar(cl, s[..n])
  {
    n := 0;
    if s != [] && !IsTokenChar(cl, s[0]) {
      var m := TrimLeftKeeps(cl, s[1..]);
      n := m + 1;
      assert s[1..][m..] == s[n..];
      forall i | 0 <= i < n ensures !IsTokenChar(cl, s[..n][i]) {
        if i > 0 { assert s[..n][i] == s[1..][..m][i - 1]; }
      }
    }
  }

  lemma {:induction false} TrimRightKeeps(cl: Classes, s: string)
    ensures NoTokenChar(cl, s[|TrimRight(cl, s)|..])
  {
    if s != [] && !IsTokenChar(cl, s[|s| - 1]) {
      var n := |TrimRight(cl, s)|;
      TrimRightKeeps(cl, s[..|s| - 1]);
      forall i | 0 <= i < |s| - n ensures !IsTokenChar(cl, s[n..][i]) {
        if i < |s| - n - 1 { assert s[n..][i] == s[..|s| - 1][n..][i]; }
      }
    }
  }

  /** Cleaning takes other characters off the ends of a word, and stops at letters, digits, hyphens and underscores. */
  lemma CleaningKeeps(cl: Classes, s: string) returns (lead: string, tail: string)
    ensures var t := CleanToken(cl, s);
            && s == lead + t + tail && NoTokenChar(cl, lead) && NoTokenChar(cl, tail)
            && (t != "" ==> !NoTokenChar(cl, [t[0]]) && !NoTokenChar(cl, [t[|t| - 1]]))
  {
    var n := TrimLeftKeeps(cl, s);
    var rest := TrimLeft(cl, s);
    TrimRightKeeps(cl, rest);
    var t := CleanToken(cl, s);
    lead, tail := s[..n], rest[|t|..];
    assert rest == t + tail && s == lead + rest;
    if t != "" {
      assert t[0] == rest[0];
      assert [t[0]][0] == t[0] && [t[|t| - 1]][0] == t[|t| - 1];
    }
  }

  /** Clean every word and drop those that vanish. */
  function CleanWords(cl: Classes, words: seq<string>): (ts: seq<string>)
    ensures forall t :: t in ts ==> t != ""
  {
    if words == [] then []
    else
      var t := CleanToken(cl, words[0]);
      (if t == "" then [] else [t]) + CleanWords(cl, words[1..])
  }

  function Tokens(cl: Classes, query: string): (ts: seq<string>)
    ensures forall t :: t in ts ==> t != ""
  {
    CleanWords(cl, Text.SplitWhitespace(query))
  }

  // ---------------------------------------------------------------- keywords

  predicate Listed(w: string, words: seq<string>) {
    words != [] && (w == words[0] || Listed(w, words[1..]))
  }

  const STOPWORDS: seq<string> :=
    ["about", "after", "again", "against", "alert", "also", "among", "and", "are", "because", "been", "before",
     "being", "between", "could", "email", "find", "for", "from", "have", "into", "just", "more", "notify",
     "should", "that", "the", "their", "them", "then", "there", "these", "they", "this", "those", "through",
     "tools", "when", "where", "which", "while", "with", "would"]

  predicate IsStopword(w: string) {
    Listed(w, STOPWORDS)
  }

  lemma {:induction false} ListedMeansIn(w: string, words: seq<string>)
    ensures Listed(w, words) <==> w in words
  {
    if words != [] {
      ListedMeansIn(w, words[1..]);
    }
  }

  predicate IsKeyword(w: string) {
    |w| >= 3 && !IsStopword(w)
  }

  /** The tokens in lower case, as far as they are kept. */
  function LowerForms(keep: string -> bool, tokens: seq<string>): seq<string> {
    if tokens == [] then []
    else
      var n := |tokens| - 1;
      var k := Text.Lower(tokens[n]);
      if keep(k) then LowerForms(keep, tokens[..n]) + [k] else LowerForms(keep, tokens[..n])
  }

  function KeywordForms(tokens: seq<string>): seq<string> {
    LowerForms(IsKeyword, tokens)
  }

  function Itself(w: string): string {
    w
  }

  /** The first 24 distinct keyword forms. */
  function Keywords(tokens: seq<string>): seq<string> {
    Take(DedupBy(Itself, KeywordForms(tokens)), MAX_KEYWORDS)
  }

  /** Some token has the lower-case form. */
  predicate HasLower(tokens: seq<string>, k: string) {
    exists t :: t in tokens && k == Text.Lower(t)
  }

  lemma HasLowerSplits(front: seq<string>, last: string, k: string)
    ensures HasLower(front + [last], k) <==> HasLower(front, k) || k == Text.Lower(last)
  {
    assert forall t :: t in front + [last] <==> t in front || t == last;
    assert last in front + [last];
  }

  lemma {:induction false} LowerFormMeaning(keep: string -> bool, tokens: seq<string>, k: string)
    ensures k in LowerForms(keep, tokens) <==> keep(k) && HasLower(tokens, k)
  {
    if tokens != [] {
      var front, last := tokens[..|tokens| - 1], tokens[|tokens| - 1];
      LowerFormMeaning(keep, front, k);
      HasLowerSplits(front, last, k);
      assert tokens == front + [last];
    }
  }

  /** The keyword forms are exactly the lower-case tokens that are long enough and no stop words. */
  lemma KeywordFormMeaning(tokens: seq<string>, k: string)
    ensures k in KeywordForms(tokens) <==> |k| >= 3 && !IsStopword(k) && HasLower(tokens, k)
  {
    LowerFormMeaning(IsKeyword, tokens, k);
  }

  /**
   Keywords are keyword forms in order of first occurrence, without repetition: all of them if
   fewer than 24, the first 24 otherwise.
   */
  lemma KeywordsMeaning(tokens: seq<string>) returns (at: seq<nat>)
    ensures FirstPositions(Map(Itself, KeywordForms(tokens)), at)
    ensures Picks(KeywordForms(tokens), Take(at, MAX_KEYWORDS), Keywords(tokens))
  {
    at := DedupPicksFirsts(Itself, KeywordForms(tokens));
  }

  lemma {:induction false} LowerFormsSplit(keep: string -> bool, a: seq<string>, b: seq<string>)
    ensures LowerForms(keep, a + b) == LowerForms(keep, a) + LowerForms(keep, b)
    decreases |b|
  {
    if b == [] {
      assert a + b == a;
    } else {
      var m := |b| - 1;
      assert (a + b)[..|a + b| - 1] == a + b[..m];
      LowerFormsSplit(keep, a, b[..m]);
    }
  }

  /** Stopping early keeps what the full scan would keep. */
  lemma EnoughForms(keep: string -> bool, tokens: seq<string>, i: nat, n: nat)
    requires i <= |tokens| && |DedupBy(Itself, LowerForms(keep, tokens[..i]))| == n
    ensures Take(DedupBy(Itself, LowerForms(keep, tokens)), n) == DedupBy(Itself, LowerForms(keep, tokens[..i]))
  {
    assert tokens == tokens[..i] + tokens[i..];
    LowerFormsSplit(keep, tokens[..i], tokens[i..]);
    DedupGrows(Itself, LowerForms(keep, tokens[..i]), LowerForms(keep, tokens[i..]));
    TakeOfLonger(DedupBy(Itself, LowerForms(keep, tokens[..i])), DedupBy(Itself, LowerForms(keep, tokens)));
  }

  lemma NextForm(keep: string -> bool, tokens: seq<string>, i: nat)
    requires i < |tokens|
    ensures var kept := DedupBy(Itself, LowerForms(keep, tokens[..i]));
            var k := Text.Lower(tokens[i]);
            DedupBy(Itself, LowerForms(keep, tokens[..i + 1])) == if keep(k) && k !in KeysOf(Itself, kept) then kept + [k] else kept
  {
    assert tokens[..i + 1][..i] == tokens[..i];
    var forms := LowerForms(keep, tokens[..i]);
    assert (forms + [Text.Lower(tokens[i])])[..|forms|] == forms;
  }

  /** The loop of `extract_keywords` for any test on normalised tokens: stop when `max` forms are out. */
  method CollectForms(keep: string -> bool, tokens: seq<string>, max: nat) returns (output: seq<string>)
    requires max > 0
    ensures output == Take(DedupBy(Itself, LowerForms(keep, tokens)), max)
  {
    var seen: set<string> := {};
    output := [];
    for i := 0 to |tokens|
      invariant output == DedupBy(Itself, LowerForms(keep, tokens[..i])) && |output| < max
      invariant seen == KeysOf(Itself, output)
    {
      NextForm(keep, tokens, i);
      var normalized := Text.Lower(tokens[i]);
      if !keep(normalized) || normalized in seen {
        continue;
      }
      seen := seen + {normalized};
      KeysOfAppend(Itself, output, normalized);
      output := output + [normalized];
      if |output| >= max {
        EnoughForms(keep, tokens, i + 1, max);
        return;
      }
    }
    assert tokens[..|tokens|] == tokens;
  }

  /** `extract_keywords`. */
  method ExtractKeywords(cl: Classes, query: string) returns (output: seq<string>)
    ensures output == Keywords(Tokens(cl, query))
  {
    output := CollectForms(IsKeyword, Tokens(cl, query), MAX_KEYWORDS);
  }

  // ---------------------------------------------------------------- entities

  const INSTRUCTION_WORDS: seq<string> := ["alert", "email", "find", "let", "notify", "show", "tell", "track", "watch"]

  predicate IsInstructionWord(w: string) {
    Listed(w, INSTRUCTION_WORDS)
  }

  predicate IsEntityWord(cl: Classes, w: string) {
    && w != "" && cl.uppercase(w[0])
    && (exists i :: 1 <= i < |w| && cl.lowercase(w[i]))
    && !(forall i :: 0 <= i < |w| ==> cl.uppercase(w[i]))
  }

  predicate IsCandidate(cl: Classes, words: seq<string>, i: nat)
    requires i < |words|
  {
    IsEntityWord(cl, words[i]) && !(i == 0 && IsInstructionWord(Text.Lower(words[i])))
  }

  function Flags(cl: Classes, words: seq<string>): (flags: seq<bool>)
    ensures |flags| == |words| && forall i :: 0 <= i < |words| ==> flags[i] == IsCandidate(cl, words, i)
  {
    seq(|words|, i requires 0 <= i < |words| => IsCandidate(cl, words, i))
  }

  /** The phrases of the given runs of words. */
  function Phrases(words: seq<string>, spans: seq<Span>): (ps: seq<string>)
    requires forall s :: s in spans ==> s.first < s.end <= |words|
    ensures |ps| == |spans|
    ensures forall k :: 0 <= k < |spans| ==> spans[k] in spans && ps[k] == Text.JoinSpace(words[spans[k].first..spans[k].end])
  {
    seq(|spans|, k requires 0 <= k < |spans| => assert spans[k] in spans; Text.JoinSpace(words[spans[k].first..spans[k].end]))
  }

  /** The first 12 phrases of maximal runs of entity words that differ in more than ASCII case. */
  function Entities(cl: Classes, words: seq<string>): seq<string> {
    Take(DedupBy(Text.Lower, Phrases(words, Spans(Flags(cl, words)))), MAX_ENTITIES)
  }

  /** The phrases flushed before word `i`. */
  function Flushed(cl: Classes, words: seq<string>, i: nat): seq<string>
    requires i <= |words|
  {
    Phrases(words, Closed(Flags(cl, words), i))
  }

  /** The words of the run open before word `i`. */
  function Open(cl: Classes, words: seq<string>, i: nat): seq<string>
    requires i <= |words|
  {
    words[Start(Flags(cl, words), i)..i]
  }

  /** One more word extends the open run, or ends it and flushes its phrase. */
  lemma ScanStep(cl: Classes, words: seq<string>, i: nat)
    requires i < |words|
    ensures IsCandidate(cl, words, i) ==>
              Open(cl, words, i + 1) == Open(cl, words, i) + [words[i]] && Flushed(cl, words, i + 1) == Flushed(cl, words, i)
    ensures !IsCandidate(cl, words, i) ==>
              && Open(cl, words, i + 1) == []
              && Flushed(cl, words, i + 1) ==
                 Flushed(cl, words, i) + PhraseOf(Open(cl, words, i))
  {
  }

  /** At the end the open run, if any, is the last phrase. */
  lemma ScanEnd(cl: Classes, words: seq<string>)
    ensures Phrases(words, Spans(Flags(cl, words))) ==
            Flushed(cl, words, |words|) + PhraseOf(Open(cl, words, |words|))
  {
  }

  /** What was flushed starts the list of all phrases. */
  lemma FlushedStarts(cl: Classes, words: seq<string>, i: nat) returns (rest: seq<string>)
    requires i <= |words|
    ensures Phrases(words, Spans(Flags(cl, words))) == Flushed(cl, words, i) + rest
  {
    var flags := Flags(cl, words);
    ClosedGrows(flags, i, |words|);
    var all := Phrases(words, Spans(flags));
    var n := |Flushed(cl, words, i)|;
    rest := all[n..];
    assert Closed(flags, i) <= Spans(flags);
    assert all[..n] == Flushed(cl, words, i);
  }

  /** Twelve flushed phrases are the result, whatever follows. */
  lemma EnoughEntities(cl: Classes, words: seq<string>, i: nat)
    requires i <= |words| && |DedupBy(Text.Lower, Flushed(cl, words, i))| == MAX_ENTITIES
    ensures Entities(cl, words) == DedupBy(Text.Lower, Flushed(cl, words, i))
  {
    var rest := FlushedStarts(cl, words, i);
    DedupGrows(Text.Lower, Flushed(cl, words, i), rest);
    TakeOfLonger(DedupBy(Text.Lower, Flushed(cl, words, i)), DedupBy(Text.Lower, Flushed(cl, words, i) + rest));
  }

  /** What one flush does to the identities seen and to the output. */
  predicate Flushes(current: seq<string>, seen: set<string>, output: seq<string>, seen': set<string>, output': seq<string>) {
    if current == [] || |output| >= MAX_ENTITIES then seen' == seen && output' == output
    else
      var entity := Text.JoinSpace(current);
      && seen' == seen + {Text.Lower(entity)}
      && output' == if Text.Lower(entity) in seen then output else output + [entity]
  }

  /** `flush_entity`: the current run, the seen identities and the output after the call. */
  method FlushEntity(current: seq<string>, seen: set<string>, output: seq<string>)
    returns (current': seq<string>, seen': set<string>, output': seq<string>)
    ensures current' == [] && Flushes(current, seen, output, seen', output')
  {
    current', seen', output' := [], seen, output;
    if current == [] || |output| >= MAX_ENTITIES {
      return;
    }
    var entity := Text.JoinSpace(current);
    var identity := Text.Lower(entity);
    if identity !in seen {
      output' := output + [entity];
    }
    seen' := seen + {identity};
  }

  /** The output is what deduplication leaves of the phrases flushed, and every identity in it is seen. */
  predicate Keeps(phrases: seq<string>, seen: set<string>, output: seq<string>) {
    output == DedupBy(Text.Lower, phrases) && seen == KeysOf(Text.Lower, output)
  }

  function PhraseOf(current: seq<string>): seq<string> {
    if current == [] then [] else [Text.JoinSpace(current)]
  }

  lemma FlushKeeps(current: seq<string>, phrases: seq<string>, seen: set<string>, output: seq<string>,
                   seen': set<string>, output': seq<string>)
    requires Keeps(phrases, seen, output) && (|output| < MAX_ENTITIES || current == [])
    requires Flushes(current, seen, output, seen', output')
    ensures Keeps(phrases + PhraseOf(current), seen', output')
  {
    if current == [] {
      assert phrases + [] == phrases;
    } else {
      var entity := Text.JoinSpace(current);
      assert (phrases + [entity])[..|phrases|] == phrases;
      KeysOfAppend(Text.Lower, output, entity);
    }
  }

  /** The loop of `extract_entities`; when it stops early no run is open, so nothing is left to flush. */
  method ScanWords(cl: Classes, words: seq<string>) returns (current: seq<string>, seen: set<string>, output: seq<string>)
    ensures |output| <= MAX_ENTITIES
    ensures |output| == MAX_ENTITIES ==> current == [] && output == Entities(cl, words)
    ensures |output| < MAX_ENTITIES ==> current == Open(cl, words, |words|) && Keeps(Flushed(cl, words, |words|), seen, output)
  {
    current, seen, output := [], {}, [];
    for i := 0 to |words|
      invariant |output| < MAX_ENTITIES && current == Open(cl, words, i) && Keeps(Flushed(cl, words, i), seen, output)
    {
      ScanStep(cl, words, i);
      var normalized := Text.Lower(words[i]);
      var candidate := IsEntityWord(cl, words[i]) && !(i == 0 && IsInstructionWord(normalized));
      if candidate {
        current := current + [words[i]];
      } else {
        ghost var before := (seen, output);
        ghost var run := current;
        current, seen, output := FlushEntity(current, seen, output);
        FlushKeeps(run, Flushed(cl, words, i), before.0, before.1, seen, output);
      }
      if |output| >= MAX_ENTITIES {
        EnoughEntities(cl, words, i + 1);
        return;
      }
    }
  }

  /** `extract_entities`: the last flush and the truncation lose nothing. */
  method ExtractEntities(cl: Classes, query: string) returns (output: seq<string>)
    ensures output == Entities(cl, Tokens(cl, query))
  {
    var words := Tokens(cl, query);
    var current, seen, scanned := ScanWords(cl, words);
    ghost var run, identities := current, seen;
    current, seen, output := FlushEntity(current, seen, scanned);
    if |scanned| < MAX_ENTITIES {
      FlushKeeps(run, Flushed(cl, words, |words|), identities, scanned, seen, output);
      ScanEnd(cl, words);
    }
    assert |output| <= MAX_ENTITIES;
    output := Take(output, MAX_ENTITIES);
  }

  /** The entities come from the one list of maximal runs of entity words. */
  lemma EntitiesOfMaximalRuns(cl: Classes, words: seq<string>, runs: seq<Span>)
    requires AreMaximalRuns(Flags(cl, words), runs)
    ensures Entities(cl, words) == Take(DedupBy(Text.Lower, Phrases(words, runs)), MAX_ENTITIES)
  {
    SpansAreMaximalRuns(Flags(cl, words));
    MaximalRunsUnique(Flags(cl, words), Spans(Flags(cl, words)), runs);
  }
}
