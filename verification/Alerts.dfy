/** Normalisation and validation of a rule before it is stored. */
module Alerts {
  import opened Wrappers
  import opened SourceScope
  import Text
  import Utf8

  const MAX_NAME_BYTES := 256
  const MAX_QUERY_CHARS := 700
  const MAX_MODEL_BYTES := 160
  const MAX_DELIVERY_CHANNELS := 32
  const MAX_DELIVERY_CHANNEL_BYTES := 120

  datatype Problem =
    | NameLength
    | QueryLength
    | ModelLength
    | ThresholdRange
    | Scope(error: ScopeError)
    | TooManyChannels
    | ChannelLength

  /** `CreateAlertRule`; a threshold that is not finite is `None`. */
  datatype RuleInput = RuleInput(
    name: string,
    queryText: string,
    embeddingModel: string,
    threshold: Option<real>,
    sourceFilters: seq<string>,
    deliveryChannels: seq<string>,
    enabled: bool)

  // ---------------------------------------------------------------- channel lists

  function Bytes(s: string): nat {
    |Utf8.Encode(s)|
  }

  predicate SortedStrings(s: seq<string>) {
    forall i :: 0 < i < |s| ==> Text.Less(s[i - 1], s[i])
  }

  function InsertString(x: string, s: seq<string>): (r: seq<string>)
    ensures forall y :: y in r <==> y == x || y in s
  {
    if s == [] || Text.Less(x, s[0]) then [x] + s
    else if x == s[0] then s
    else [s[0]] + InsertString(x, s[1..])
  }

  /** `sort` followed by `dedup`. */
  function SortDedup(s: seq<string>): (r: seq<string>)
    ensures forall y :: y in r <==> y in s
  {
    if s == [] then [] else InsertString(s[0], SortDedup(s[1..]))
  }

  lemma {:induction false} InsertStringSorted(x: string, s: seq<string>)
    requires SortedStrings(s)
    ensures SortedStrings(InsertString(x, s))
    ensures InsertString(x, s)[0] == x || (s != [] && InsertString(x, s)[0] == s[0])
  {
    if s == [] || Text.Less(x, s[0]) || x == s[0] {
    } else {
      Text.LessTotal(x, s[0]);
      assert SortedStrings(s[1..]) by {
        assert forall i :: 0 < i < |s[1..]| ==> s[1..][i] == s[i + 1] && s[1..][i - 1] == s[i];
      }
      InsertStringSorted(x, s[1..]);
      var t := InsertString(x, s[1..]);
      var r := [s[0]] + t;
      assert Text.Less(s[0], t[0]);
      forall i | 0 < i < |r| ensures Text.Less(r[i - 1], r[i]) {
        if i > 1 { assert Text.Less(t[i - 2], t[i - 1]); }
      }
    }
  }

  lemma {:induction false} SortDedupSorted(s: seq<string>)
    ensures SortedStrings(SortDedup(s))
  {
    if s != [] {
      SortDedupSorted(s[1..]);
      InsertStringSorted(s[0], SortDedup(s[1..]));
    }
  }

  lemma {:induction false} SortDedupFixesSorted(s: seq<string>)
    requires SortedStrings(s)
    ensures SortDedup(s) == s
  {
    if s != [] {
      assert SortedStrings(s[1..]) by {
        assert forall i :: 0 < i < |s[1..]| ==> s[1..][i] == s[i + 1] && s[1..][i - 1] == s[i];
      }
      SortDedupFixesSorted(s[1..]);
      assert |s| > 1 ==> Text.Less(s[1 - 1], s[1]);
      assert s == [s[0]] + s[1..];
    }
  }

  function TrimAll(s: seq<string>): (r: seq<string>)
    ensures |r| == |s|
    ensures forall i :: 0 <= i < |s| ==> r[i] == Text.Trim(s[i])
  {
    seq(|s|, i requires 0 <= i < |s| => Text.Trim(s[i]))
  }

  function ListProblem(s: seq<string>): Option<Problem> {
    if |s| > MAX_DELIVERY_CHANNELS then Some(TooManyChannels)
    else if exists x :: x in s && (x == "" || Bytes(x) > MAX_DELIVERY_CHANNEL_BYTES) then Some(ChannelLength)
    else None
  }

  /** `normalize_list`: here the count is checked after duplicates are dropped. */
  function NormalizeList(s: seq<string>): Result<seq<string>, Problem> {
    var r := SortDedup(TrimAll(s));
    match ListProblem(r)
    case Some(p) => Err(p)
    case None => Ok(r)
  }

  // ---------------------------------------------------------------- rules

  function Validate(x: RuleInput): Option<Problem> {
    if x.name == "" || Bytes(x.name) > MAX_NAME_BYTES then Some(NameLength)
    else if !(3 <= |x.queryText| <= MAX_QUERY_CHARS) then Some(QueryLength)
    else if x.embeddingModel == "" || Bytes(x.embeddingModel) > MAX_MODEL_BYTES then Some(ModelLength)
    else if x.threshold.None? || !(0.0 <= x.threshold.value <= 1.0) then Some(ThresholdRange)
    else match ParseIds(x.sourceFilters)
      case Err(e) => Some(Scope(e))
      case Ok(_) => ListProblem(x.deliveryChannels)
  }

  function TrimmedTexts(x: RuleInput): RuleInput {
    x.(name := Text.Trim(x.name), queryText := Text.CollapseWhitespace(x.queryText), embeddingModel := Text.Trim(x.embeddingModel))
  }

  /** The value `normalized` returns. */
  function Normalized(x: RuleInput): Result<RuleInput, Problem> {
    match Normalize(x.sourceFilters)
    case Err(e) => Err(Scope(e))
    case Ok(filters) =>
      match NormalizeList(x.deliveryChannels)
      case Err(p) => Err(p)
      case Ok(channels) =>
        var y := TrimmedTexts(x).(sourceFilters := filters, deliveryChannels := channels);
        match Validate(y)
        case Some(p) => Err(p)
        case None => Ok(y)
  }

  lemma NormalizeListIdempotent(s: seq<string>)
    requires NormalizeList(s).Ok?
    ensures NormalizeList(NormalizeList(s).value) == NormalizeList(s)
  {
    var r := NormalizeList(s).value;
    SortDedupSorted(TrimAll(s));
    forall i | 0 <= i < |r| ensures Text.Trim(r[i]) == r[i] {
      assert r[i] in r;
      var m :| 0 <= m < |s| && TrimAll(s)[m] == r[i];
      Text.TrimIsTrimmed(s[m]);
      Text.TrimFixesTrimmed(r[i]);
    }
    assert TrimAll(r) == r;
    SortDedupFixesSorted(r);
  }

  /** Normalising a normalised rule returns it unchanged. */
  lemma NormalizedIdempotent(x: RuleInput)
    requires Normalized(x).Ok?
    ensures Normalized(Normalized(x).value) == Normalized(x)
  {
    var y := Normalized(x).value;
    NormalizeKeepsIds(x.sourceFilters);
    NormalizeListIdempotent(x.deliveryChannels);
    Text.TrimIsTrimmed(x.name);
    Text.TrimFixesTrimmed(y.name);
    Text.TrimIsTrimmed(x.embeddingModel);
    Text.TrimFixesTrimmed(y.embeddingModel);
    Text.CollapseIdempotent(x.queryText);
  }

  // ---------------------------------------------------------------- what is kept and what is refused

  /** The second text is the first without the white space at its ends. */
  ghost predicate IsCoreOf(s: string, t: string) {
    Text.IsTrimmed(t) && exists lead, tail :: Text.AllSpace(lead) && Text.AllSpace(tail) && s == lead + t + tail
  }

  lemma TrimIsCore(s: string)
    ensures IsCoreOf(s, Text.Trim(s))
  {
    var lead, tail := Text.TrimKeeps(s);
  }

  /** What the normal form keeps of the rule as given. */
  ghost predicate Keeps(x: RuleInput, y: RuleInput) {
    && IsCoreOf(x.name, y.name)
    && IsCoreOf(x.embeddingModel, y.embeddingModel)
    && y.queryText == Text.JoinSpace(Text.SplitWhitespace(x.queryText))
    && y.threshold == x.threshold && y.enabled == x.enabled
    && ParseIds(y.sourceFilters) == ParseIds(x.sourceFilters)
    && SortedStrings(y.deliveryChannels)
    && forall c :: c in y.deliveryChannels <==> c in TrimAll(x.deliveryChannels)
  }

  lemma NormalizedKeeps(x: RuleInput)
    requires Normalized(x).Ok?
    ensures Keeps(x, Normalized(x).value)
  {
    TrimIsCore(x.name);
    TrimIsCore(x.embeddingModel);
    NormalizeKeepsIds(x.sourceFilters);
    SortDedupSorted(TrimAll(x.deliveryChannels));
  }

  /** The texts and the threshold of an acceptable rule. */
  predicate TextsAcceptable(x: RuleInput) {
    && 1 <= Bytes(Text.Trim(x.name)) <= 256
    && 3 <= |Text.CollapseWhitespace(x.queryText)| <= 700
    && 1 <= Bytes(Text.Trim(x.embeddingModel)) <= 160
    && x.threshold.Some? && 0.0 <= x.threshold.value <= 1.0
  }

  /** What a rule must satisfy; the number of channels counts after duplicates are dropped, that of sources before. */
  predicate Acceptable(x: RuleInput) {
    && TextsAcceptable(x)
    && |x.sourceFilters| <= 100 && (forall f :: f in x.sourceFilters ==> ParseSourceFilter(f).Some?)
    && |set c | c in TrimAll(x.deliveryChannels)| <= 32
    && forall c :: c in TrimAll(x.deliveryChannels) ==> 1 <= Bytes(c) <= 120
  }

  lemma {:induction false} SortedSize(s: seq<string>)
    requires SortedStrings(s)
    ensures |set c | c in s| == |s|
  {
    if s != [] {
      var n := |s| - 1;
      var front := s[..n];
      SortedSize(front);
      LastIsNew(s);
      assert (set c | c in s) == (set c | c in front) + {s[n]};
    }
  }

  lemma {:induction false} LastIsLargest(s: seq<string>, i: nat)
    requires SortedStrings(s) && i < |s| - 1
    ensures Text.Less(s[i], s[|s| - 1])
    decreases |s| - i
  {
    assert Text.Less(s[i + 1 - 1], s[i + 1]);
    if i + 1 < |s| - 1 {
      LastIsLargest(s, i + 1);
      Text.LessTransitive(s[i], s[i + 1], s[|s| - 1]);
    }
  }

  lemma LastIsNew(s: seq<string>)
    requires SortedStrings(s) && s != []
    ensures s[|s| - 1] !in s[..|s| - 1]
  {
    forall i | 0 <= i < |s| - 1 ensures s[i] != s[|s| - 1] {
      LastIsLargest(s, i);
      Text.LessAsymmetric(s[i], s[|s| - 1]);
    }
  }

  lemma ChannelsAccepted(s: seq<string>)
    ensures NormalizeList(s).Ok? <==> |set c | c in TrimAll(s)| <= 32 && forall c :: c in TrimAll(s) ==> 1 <= Bytes(c) <= 120
  {
    var r := SortDedup(TrimAll(s));
    SortDedupSorted(TrimAll(s));
    SortedSize(r);
    assert (set c | c in r) == (set c | c in TrimAll(s));
  }

  lemma FiltersAccepted(fs: seq<string>)
    ensures ParseIds(fs).Ok? <==> |fs| <= 100 && forall f :: f in fs ==> ParseSourceFilter(f).Some?
  {
  }

  lemma TextsValidated(x: RuleInput, filters: seq<string>, channels: seq<string>)
    requires ParseIds(filters).Ok? && ListProblem(channels).None?
    ensures Validate(TrimmedTexts(x).(sourceFilters := filters, deliveryChannels := channels)).None? <==> TextsAcceptable(x)
  {
    assert Bytes("") == 0;
  }

  /** Exactly the acceptable rules are normalised. */
  lemma NormalizedIff(x: RuleInput)
    ensures Normalized(x).Ok? <==> Acceptable(x)
  {
    ChannelsAccepted(x.deliveryChannels);
    FiltersAccepted(x.sourceFilters);
    var filters, channels := Normalize(x.sourceFilters), NormalizeList(x.deliveryChannels);
    if filters.Ok? && channels.Ok? {
      NormalizeKeepsIds(x.sourceFilters);
      TextsValidated(x, filters.value, channels.value);
    }
  }

  /** The CHECK constraints of the rule revision table that the input feeds. */
  predicate FitsSchema(x: RuleInput) {
    && 1 <= |x.name| <= 256
    && 3 <= |x.queryText| <= 700
    && 1 <= |x.embeddingModel| <= 160
    && x.threshold.Some? && 0.0 <= x.threshold.value <= 1.0
    && |x.sourceFilters| <= 128
    && |x.deliveryChannels| <= 32
  }

  /** A normalised rule never trips a CHECK constraint when it is inserted. */
  lemma NormalizedFitsSchema(x: RuleInput)
    requires Normalized(x).Ok?
    ensures FitsSchema(Normalized(x).value)
  {
    var y := Normalized(x).value;
    NormalizeKeepsIds(x.sourceFilters);
    assert |y.name| <= Bytes(y.name) && |y.embeddingModel| <= Bytes(y.embeddingModel);
  }

  // ---------------------------------------------------------------- in place

  class CreateAlertRule {
    var name: string
    var queryText: string
    var embeddingModel: string
    var threshold: Option<real>
    var sourceFilters: seq<string>
    var deliveryChannels: seq<string>
    var enabled: bool

    function Value(): RuleInput
      reads this
    {
      RuleInput(name, queryText, embeddingModel, threshold, sourceFilters, deliveryChannels, enabled)
    }

    constructor (x: RuleInput)
      ensures Value() == x
    {
      name, queryText, embeddingModel := x.name, x.queryText, x.embeddingModel;
      threshold, sourceFilters, deliveryChannels, enabled := x.threshold, x.sourceFilters, x.deliveryChannels, x.enabled;
    }

    method TrimTexts()
      modifies this`name, this`queryText, this`embeddingModel
      ensures Value() == TrimmedTexts(old(Value()))
    {
      name := Text.Trim(name);
      queryText := Text.CollapseWhitespace(queryText);
      embeddingModel := Text.Trim(embeddingModel);
    }

    /** `normalized`: rewrite the fields one by one, then validate. */
    method Normalize() returns (problem: Option<Problem>)
      modifies this
      ensures problem == match Normalized(old(Value())) { case Ok(_) => None case Err(p) => Some(p) }
      ensures problem.None? ==> Normalized(old(Value())) == Ok(Value())
    {
      ghost var trimmed := TrimmedTexts(Value());
      TrimTexts();
      var filters := SourceScope.Normalize(sourceFilters);
      if filters.Err? {
        return Some(Scope(filters.error));
      }
      sourceFilters := filters.value;
      problem := NormalizeChannels();
      assert Value() == trimmed.(sourceFilters := filters.value, deliveryChannels := deliveryChannels);
      if problem.None? {
        problem := Validate(Value());
      }
    }

    /** `normalize_list` on the delivery channels. */
    method NormalizeChannels() returns (problem: Option<Problem>)
      modifies this`deliveryChannels
      ensures deliveryChannels == SortDedup(TrimAll(old(deliveryChannels)))
      ensures problem == ListProblem(deliveryChannels)
    {
      ghost var before := deliveryChannels;
      for i := 0 to |deliveryChannels|
        invariant |deliveryChannels| == |before|
        invariant forall k :: 0 <= k < i ==> deliveryChannels[k] == Text.Trim(before[k])
        invariant forall k :: i <= k < |before| ==> deliveryChannels[k] == before[k]
      {
        deliveryChannels := deliveryChannels[i := Text.Trim(deliveryChannels[i])];
      }
      assert deliveryChannels == TrimAll(before);
      deliveryChannels := SortDedup(deliveryChannels);
      problem := ListProblem(deliveryChannels);
    }
  }
}
