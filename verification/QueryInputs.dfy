/** `analyze_query`: the embedding inputs of a query, and why they fit the durable schema. */
module QueryInputs {
  import opened Wrappers
  import opened Dedup
  import opened Runs
  import opened QueryAnalysis
  import Text

  datatype Kind = Query | Keyword | Entity

  datatype Input = Input(kind: Kind, ordinal: nat, text: string, weight: real)

  datatype Views = Views(queryText: string, keywords: seq<string>, entities: seq<string>, inputs: seq<Input>)

  datatype Problem = InvalidQueryText | TooManyInputs

  /** The limits `MAX_EMBEDDING_INPUTS` and `MAX_EMBEDDING_INPUT_CHARS`. */
  datatype Limits = Limits(inputs: nat, chars: nat)

  function InputsOf(kind: Kind, texts: seq<string>, weight: real, first: nat): (inputs: seq<Input>)
    ensures |inputs| == |texts|
    ensures forall i :: 0 <= i < |texts| ==> inputs[i] == Input(kind, first + i, texts[i], weight)
  {
    seq(|texts|, i requires 0 <= i < |texts| => Input(kind, first + i, texts[i], weight))
  }

  function AllInputs(query: string, keywords: seq<string>, entities: seq<string>): seq<Input> {
    InputsOf(Query, [query], 1.2, 0) + InputsOf(Keyword, keywords, 0.6, 1) + InputsOf(Entity, entities, 0.9, 1 + |keywords|)
  }

  /** The views of a query, up to the final validation in another crate. */
  function Analysis(cl: Classes, limits: Limits, value: string): Result<Views, Problem> {
    var query := Text.CollapseWhitespace(value);
    if !(3 <= |query| <= limits.chars) then Err(InvalidQueryText)
    else
      var keywords, entities := Keywords(Tokens(cl, query)), Entities(cl, Tokens(cl, query));
      var inputs := AllInputs(query, keywords, entities);
      if |inputs| > limits.inputs then Err(TooManyInputs) else Ok(Views(query, keywords, entities, inputs))
  }

  // ---------------------------------------------------------------- pushing inputs

  /** `push_input`; an ordinal is a `u16`. */
  method PushInput(inputs: seq<Input>, kind: Kind, text: string, weight: real, limits: Limits) returns (r: Result<seq<Input>, Problem>)
    ensures r == if |inputs| >= limits.inputs || |inputs| > 65535 then Err(TooManyInputs)
                 else Ok(inputs + [Input(kind, |inputs|, text, weight)])
  {
    if |inputs| >= limits.inputs {
      return Err(TooManyInputs);
    }
    if |inputs| > 65535 {
      return Err(TooManyInputs);
    }
    r := Ok(inputs + [Input(kind, |inputs|, text, weight)]);
  }

  method PushAll(inputs: seq<Input>, kind: Kind, texts: seq<string>, weight: real, limits: Limits) returns (r: Result<seq<Input>, Problem>)
    requires |inputs| <= limits.inputs && |inputs| + |texts| <= 65536
    ensures r == if |inputs| + |texts| > limits.inputs then Err(TooManyInputs)
                 else Ok(inputs + InputsOf(kind, texts, weight, |inputs|))
  {
    var pushed := inputs;
    for i := 0 to |texts|
      invariant pushed == inputs + InputsOf(kind, texts, weight, |inputs|)[..i] && |inputs| + i <= limits.inputs
    {
      r := PushInput(pushed, kind, texts[i], weight, limits);
      if r.Err? {
        return;
      }
      pushed := r.value;
    }
    assert InputsOf(kind, texts, weight, |inputs|)[..|texts|] == InputsOf(kind, texts, weight, |inputs|);
    r := Ok(pushed);
  }

  /** `analyze_query`. */
  method AnalyzeQuery(cl: Classes, limits: Limits, value: string) returns (r: Result<Views, Problem>)
    ensures r == Analysis(cl, limits, value)
  {
    var query := Text.CollapseWhitespace(value);
    if !(3 <= |query| <= limits.chars) {
      return Err(InvalidQueryText);
    }
    var keywords := ExtractKeywords(cl, query);
    var entities := ExtractEntities(cl, query);
    var inputs := PushAll([], Query, [query], 1.2, limits);
    if inputs.Err? {
      return Err(TooManyInputs);
    }
    inputs := PushAll(inputs.value, Keyword, keywords, 0.6, limits);
    if inputs.Err? {
      return Err(TooManyInputs);
    }
    inputs := PushAll(inputs.value, Entity, entities, 0.9, limits);
    if inputs.Err? {
      return Err(TooManyInputs);
    }
    assert [] + InputsOf(Query, [query], 1.2, 0) == InputsOf(Query, [query], 1.2, 0);
    r := Ok(Views(query, keywords, entities, inputs.value));
  }

  // ---------------------------------------------------------------- what a successful analysis holds

  /** Where each kind of input stands. */
  predicate InputsListed(v: Views) {
    var n := |v.keywords|;
    && |v.inputs| == 1 + n + |v.entities|
    && v.inputs[0] == Input(Query, 0, v.queryText, 1.2)
    && (forall i :: 1 <= i <= n ==> v.inputs[i] == Input(Keyword, i, v.keywords[i - 1], 0.6))
    && (forall i :: n < i < |v.inputs| ==> v.inputs[i] == Input(Entity, i, v.entities[i - n - 1], 0.9))
  }

  lemma AllInputsListed(query: string, keywords: seq<string>, entities: seq<string>)
    ensures InputsListed(Views(query, keywords, entities, AllInputs(query, keywords, entities)))
  {
    var inputs := AllInputs(query, keywords, entities);
    var n := |keywords|;
    forall i | n < i < |inputs| ensures inputs[i] == Input(Entity, i, entities[i - n - 1], 0.9) {
      assert inputs[i] == InputsOf(Entity, entities, 0.9, 1 + n)[i - n - 1];
    }
  }

  /** One input for the whole query, one for each keyword and one for each entity, in this order and numbered through. */
  lemma InputsOfViews(cl: Classes, limits: Limits, value: string)
    requires Analysis(cl, limits, value).Ok?
    ensures var v := Analysis(cl, limits, value).value;
            && v.queryText == Text.CollapseWhitespace(value) && 3 <= |v.queryText| <= limits.chars
            && |v.inputs| <= limits.inputs && InputsListed(v)
  {
    var query := Text.CollapseWhitespace(value);
    AllInputsListed(query, Keywords(Tokens(cl, query)), Entities(cl, Tokens(cl, query)));
  }

  /** A token in lower case, of three characters or more, and none of the words below. */
  predicate IsSearchWord(tokens: seq<string>, k: string) {
    && |k| >= 3 && HasLower(tokens, k)
    && k !in ["about", "after", "again", "against", "alert", "also", "among", "and", "are", "because", "been",
              "before", "being", "between", "could", "email", "find", "for", "from", "have", "into", "just",
              "more", "notify", "should", "that", "the", "their", "them", "then", "there", "these", "they",
              "this", "those", "through", "tools", "when", "where", "which", "while", "with", "would"]
  }

  lemma FormsAreSearchWords(tokens: seq<string>, k: string)
    ensures k in KeywordForms(tokens) <==> IsSearchWord(tokens, k)
  {
    ListedMeansIn(k, STOPWORDS);
    KeywordFormMeaning(tokens, k);
  }

  /** The keywords are search words of the query, and if there are fewer than 24, all of them. */
  lemma KeywordsOfViews(cl: Classes, limits: Limits, value: string, k: string)
    requires Analysis(cl, limits, value).Ok?
    ensures var v := Analysis(cl, limits, value).value;
            && |v.keywords| <= 24
            && (k in v.keywords ==> IsSearchWord(Tokens(cl, v.queryText), k))
            && (IsSearchWord(Tokens(cl, v.queryText), k) && |v.keywords| < 24 ==> k in v.keywords)
  {
    var tokens := Tokens(cl, Text.CollapseWhitespace(value));
    FormsAreSearchWords(tokens, k);
    SeenMeansEarlier(Itself, KeywordForms(tokens), k);
  }

  /**
   A word can be part of an entity if it starts in upper case, goes on with some lower case and is not all upper
   case, save the words below at the start of the query.
   */
  lemma EntityWordsOfQuery(cl: Classes, tokens: seq<string>, i: nat)
    requires i < |tokens| && tokens[i] != ""
    ensures var w := Text.Lower(tokens[i]);
            Flags(cl, tokens)[i] <==>
              && cl.uppercase(tokens[i][0])
              && (exists j :: 1 <= j < |tokens[i]| && cl.lowercase(tokens[i][j]))
              && (exists j :: 0 <= j < |tokens[i]| && !cl.uppercase(tokens[i][j]))
              && (i == 0 ==> w !in ["alert", "email", "find", "let", "notify", "show", "tell", "track", "watch"])
  {
    ListedMeansIn(Text.Lower(tokens[i]), INSTRUCTION_WORDS);
    assert Flags(cl, tokens)[i] == IsCandidate(cl, tokens, i);
  }

  // ---------------------------------------------------------------- how long the texts are

  /** The length of the words with one separator after each. */
  function Extent(words: seq<string>): nat {
    if words == [] then 0 else |words[0]| + 1 + Extent(words[1..])
  }

  lemma {:induction false} JoinExtent(words: seq<string>)
    requires words != []
    ensures |Text.JoinSpace(words)| + 1 == Extent(words)
  {
    if |words| > 1 {
      JoinExtent(words[1..]);
    }
  }

  lemma {:induction false} ExtentOfPart(words: seq<string>, i: nat, j: nat)
    requires i <= j <= |words|
    ensures Extent(words[i..j]) <= Extent(words)
  {
    if words != [] && i < j {
      if i > 0 {
        assert words[i..j] == words[1..][i - 1..j - 1];
        ExtentOfPart(words[1..], i - 1, j - 1);
      } else {
        assert words[0..j][1..] == words[1..][0..j - 1];
        ExtentOfPart(words[1..], 0, j - 1);
      }
    }
  }

  lemma {:induction false} CleaningShrinks(cl: Classes, words: seq<string>)
    ensures Extent(CleanWords(cl, words)) <= Extent(words)
  {
    if words != [] {
      CleaningShrinks(cl, words[1..]);
      var t := CleanToken(cl, words[0]);
      if t != "" {
        assert ([t] + CleanWords(cl, words[1..]))[1..] == CleanWords(cl, words[1..]);
      } else {
        assert [] + CleanWords(cl, words[1..]) == CleanWords(cl, words[1..]);
      }
    }
  }

  predicate IsCollapsed(query: string) {
    Text.CollapseWhitespace(query) == query
  }

  /** Consecutive tokens of a collapsed query, joined, are no longer than the query. */
  lemma TokensFit(cl: Classes, query: string, i: nat, j: nat)
    requires IsCollapsed(query) && i < j <= |Tokens(cl, query)|
    ensures 1 <= |Text.JoinSpace(Tokens(cl, query)[i..j])| <= |query|
  {
    var words := Text.SplitWhitespace(query);
    var tokens := Tokens(cl, query);
    CleaningShrinks(cl, words);
    ExtentOfPart(tokens, i, j);
    JoinExtent(tokens[i..j]);
    assert words != [];
    JoinExtent(words);
    assert tokens[i] in tokens && tokens[i..j][0] == tokens[i];
  }

  predicate Fit(texts: seq<string>, n: nat) {
    forall k :: 0 <= k < |texts| ==> 1 <= |texts[k]| <= n
  }

  lemma TokenFits(cl: Classes, query: string, t: string)
    requires IsCollapsed(query) && t in Tokens(cl, query)
    ensures 1 <= |t| <= |query|
  {
    var tokens := Tokens(cl, query);
    var i :| 0 <= i < |tokens| && tokens[i] == t;
    TokensFit(cl, query, i, i + 1);
    assert tokens[i..i + 1] == [t];
  }

  lemma KeywordFormFits(cl: Classes, query: string, k: string)
    requires IsCollapsed(query) && k in KeywordForms(Tokens(cl, query))
    ensures 1 <= |k| <= |query|
  {
    KeywordFormMeaning(Tokens(cl, query), k);
    var t :| t in Tokens(cl, query) && k == Text.Lower(t);
    TokenFits(cl, query, t);
  }

  lemma KeywordsFit(cl: Classes, query: string)
    requires IsCollapsed(query)
    ensures Fit(Keywords(Tokens(cl, query)), |query|)
  {
    var ks := Keywords(Tokens(cl, query));
    forall k | 0 <= k < |ks| ensures 1 <= |ks[k]| <= |query| {
      assert ks[k] in DedupBy(Itself, KeywordForms(Tokens(cl, query)));
      KeywordFormFits(cl, query, ks[k]);
    }
  }

  lemma PhraseFits(cl: Classes, query: string, p: string)
    requires IsCollapsed(query) && p in Phrases(Tokens(cl, query), Spans(Flags(cl, Tokens(cl, query))))
    ensures 1 <= |p| <= |query|
  {
    var tokens := Tokens(cl, query);
    var spans := Spans(Flags(cl, tokens));
    var m :| 0 <= m < |spans| && Phrases(tokens, spans)[m] == p;
    assert spans[m] in spans;
    TokensFit(cl, query, spans[m].first, spans[m].end);
  }

  lemma EntitiesFit(cl: Classes, query: string)
    requires IsCollapsed(query)
    ensures Fit(Entities(cl, Tokens(cl, query)), |query|)
  {
    var tokens := Tokens(cl, query);
    var es := Entities(cl, tokens);
    forall k | 0 <= k < |es| ensures 1 <= |es[k]| <= |query| {
      assert es[k] in DedupBy(Text.Lower, Phrases(tokens, Spans(Flags(cl, tokens))));
      PhraseFits(cl, query, es[k]);
    }
  }

  // ---------------------------------------------------------------- the durable schema

  /** The constraints of `eal_semantic_inputs` on the inputs of one set. */
  predicate FitsSchema(inputs: seq<Input>, chars: nat) {
    && |inputs| <= 1 + MAX_KEYWORDS + MAX_ENTITIES
    && (forall i :: 0 <= i < |inputs| ==>
          && inputs[i].ordinal == i && i <= 95
          && 1 <= |inputs[i].text| <= chars
          && 0.1 <= inputs[i].weight <= 2.0)
    && (forall i, j :: 0 <= i < j < |inputs| ==> !(inputs[i].kind == inputs[j].kind && inputs[i].text == inputs[j].text))
  }

  predicate AllDifferent(texts: seq<string>) {
    forall i, j :: 0 <= i < j < |texts| ==> texts[i] != texts[j]
  }

  lemma InputsFitSchema(query: string, keywords: seq<string>, entities: seq<string>)
    requires |query| >= 1 && |keywords| <= MAX_KEYWORDS && |entities| <= MAX_ENTITIES
    requires AllDifferent(keywords) && AllDifferent(entities) && Fit(keywords, |query|) && Fit(entities, |query|)
    ensures FitsSchema(AllInputs(query, keywords, entities), |query|)
  {
  }

  lemma TextsDiffer(cl: Classes, tokens: seq<string>)
    ensures AllDifferent(Keywords(tokens)) && AllDifferent(Entities(cl, tokens))
  {
    DedupDistinct(Itself, KeywordForms(tokens));
    DedupDistinct(Text.Lower, Phrases(tokens, Spans(Flags(cl, tokens))));
  }

  /** With room for 37 inputs an analysis fails only on a query that is too short or too long; its inputs fit the schema. */
  lemma AnalysisFitsSchema(cl: Classes, limits: Limits, value: string)
    requires limits.inputs >= 1 + MAX_KEYWORDS + MAX_ENTITIES
    ensures var r := Analysis(cl, limits, value);
            var n := |Text.CollapseWhitespace(value)|;
            && (r.Err? <==> !(3 <= n <= limits.chars))
            && (r.Ok? ==> r.value.queryText == Text.CollapseWhitespace(r.value.queryText) && FitsSchema(r.value.inputs, n))
  {
    var query := Text.CollapseWhitespace(value);
    var tokens := Tokens(cl, query);
    Text.CollapseIdempotent(value);
    KeywordsFit(cl, query);
    EntitiesFit(cl, query);
    TextsDiffer(cl, tokens);
    if |query| >= 3 {
      InputsFitSchema(query, Keywords(tokens), Entities(cl, tokens));
    }
  }

  /** Queries with the same words have the same analysis. */
  lemma SpacingIsIrrelevant(cl: Classes, limits: Limits, a: string, b: string)
    requires Text.SplitWhitespace(a) == Text.SplitWhitespace(b)
    ensures Analysis(cl, limits, a) == Analysis(cl, limits, b)
  {
    Text.CollapseIdentifiesWords(a, b);
  }
}
