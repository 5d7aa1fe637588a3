/** Source scoping of alert rules: typed filters, their normal form, and request narrowing. */
module SourceScope {
  import opened Wrappers
  import opened Uuids
  import Text

  const MAX_SOURCE_FILTERS := 100
  const SOURCE_PREFIX := "source:"

  datatype ScopeError = TooManyRuleFilters | InvalidRuleFilter | RequestedSourceOutsideRuleScope

  // ---------------------------------------------------------------- ordered sets of identifiers

  predicate StrictlyAscending(ids: seq<Uuid>) {
    forall i, j :: 0 <= i < j < |ids| ==> ids[i] < ids[j]
  }

  function InsertId(id: Uuid, ids: seq<Uuid>): (r: seq<Uuid>)
    ensures forall x :: x in r <==> x == id || x in ids
    ensures |r| <= |ids| + 1
  {
    if ids == [] || id < ids[0] then [id] + ids
    else if id == ids[0] then ids
    else [ids[0]] + InsertId(id, ids[1..])
  }

  /** The elements of a `BTreeSet` collected from `ids`. */
  function Collect(ids: seq<Uuid>): (r: seq<Uuid>)
    ensures forall x :: x in r <==> x in ids
    ensures |r| <= |ids|
  {
    if ids == [] then [] else InsertId(ids[0], Collect(ids[1..]))
  }

  lemma {:induction false} InsertIdAscending(id: Uuid, ids: seq<Uuid>)
    requires StrictlyAscending(ids)
    ensures StrictlyAscending(InsertId(id, ids))
  {
    if ids != [] && ids[0] < id {
      InsertIdAscending(id, ids[1..]);
      var t := InsertId(id, ids[1..]);
      forall j | 0 <= j < |t| ensures ids[0] < t[j] {
        assert t[j] in t;
        if t[j] != id {
          var m :| 0 <= m < |ids[1..]| && ids[1..][m] == t[j];
          assert ids[0] < ids[m + 1];
        }
      }
    }
  }

  lemma {:induction false} CollectAscending(ids: seq<Uuid>)
    ensures StrictlyAscending(Collect(ids))
  {
    if ids != [] {
      CollectAscending(ids[1..]);
      InsertIdAscending(ids[0], Collect(ids[1..]));
    }
  }

  lemma {:induction false} CollectFixesAscending(ids: seq<Uuid>)
    requires StrictlyAscending(ids)
    ensures Collect(ids) == ids
  {
    if ids != [] {
      CollectFixesAscending(ids[1..]);
      assert |ids| > 1 ==> ids[0] < ids[1];
      assert ids == [ids[0]] + ids[1..];
    }
  }

  // ---------------------------------------------------------------- parsing

  /** `parse_source_filter`: a UUID or `source:` and a UUID, surrounded by white space. */
  function ParseSourceFilter(value: string): Option<Uuid> {
    var v := Text.Trim(value);
    if v == "" then None
    else if SOURCE_PREFIX <= v then Parse(v[|SOURCE_PREFIX|..])
    else Parse(v)
  }

  function ParseAll(values: seq<string>): (r: Option<seq<Uuid>>)
    ensures r.Some? <==> forall i :: 0 <= i < |values| ==> ParseSourceFilter(values[i]).Some?
    ensures r.Some? ==> |r.value| == |values| && forall i :: 0 <= i < |values| ==> ParseSourceFilter(values[i]) == Some(r.value[i])
  {
    if values == [] then Some([])
    else
      match (ParseSourceFilter(values[0]), ParseAll(values[1..]))
      case (Some(id), Some(rest)) => Some([id] + rest)
      case (None, _) => None
      case (_, None) =>
        assert exists i :: 0 <= i < |values[1..]| && ParseSourceFilter(values[1..][i]).None?;
        var i :| 0 <= i < |values[1..]| && ParseSourceFilter(values[1..][i]).None?;
        assert ParseSourceFilter(values[i + 1]).None?;
        None
  }

  /** `parse_source_filter_ids`: the count is checked before duplicates are dropped. */
  function ParseIds(values: seq<string>): (r: Result<seq<Uuid>, ScopeError>)
    ensures |values| > MAX_SOURCE_FILTERS ==> r == Err(TooManyRuleFilters)
    ensures r.Ok? ==> |r.value| <= MAX_SOURCE_FILTERS
  {
    if |values| > MAX_SOURCE_FILTERS then Err(TooManyRuleFilters)
    else match ParseAll(values)
      case None => Err(InvalidRuleFilter)
      case Some(ids) => Ok(Collect(ids))
  }

  function FilterText(id: Uuid): string {
    SOURCE_PREFIX + ToText(id)
  }

  function FilterTexts(ids: seq<Uuid>): (r: seq<string>)
    ensures |r| == |ids|
    ensures forall i :: 0 <= i < |ids| ==> r[i] == FilterText(ids[i])
  {
    seq(|ids|, i requires 0 <= i < |ids| => FilterText(ids[i]))
  }

  /** `normalize_source_filters`. */
  function Normalize(values: seq<string>): Result<seq<string>, ScopeError> {
    match ParseIds(values)
    case Err(e) => Err(e)
    case Ok(ids) => Ok(FilterTexts(ids))
  }

  /** `constrain_search_sources`. */
  function Constrain(filters: seq<string>, requested: seq<Uuid>): Result<seq<Uuid>, ScopeError> {
    match ParseIds(filters)
    case Err(e) => Err(e)
    case Ok(scope) =>
      var wanted := Collect(requested);
      if scope == [] then Ok(wanted)
      else if wanted == [] then Ok(Collect(scope))
      else if exists i :: 0 <= i < |wanted| && wanted[i] !in scope then Err(RequestedSourceOutsideRuleScope)
      else Ok(wanted)
  }

  // ---------------------------------------------------------------- the normal form

  lemma FilterTextTrimmed(id: Uuid)
    ensures Text.IsTrimmed(FilterText(id))
  {
    TextAtColumn(id, 31);
    var t := FilterText(id);
    assert t[|t| - 1] == ToText(id)[35];
  }

  lemma StripPrefix(t: string)
    requires Text.IsTrimmed(SOURCE_PREFIX + t)
    ensures ParseSourceFilter(SOURCE_PREFIX + t) == Parse(t)
  {
    var v := SOURCE_PREFIX + t;
    Text.TrimFixesTrimmed(v);
    assert v[|SOURCE_PREFIX|..] == t;
  }

  /** A filter in normal form means the source it names. */
  lemma ParseOfFilterText(id: Uuid)
    ensures ParseSourceFilter(FilterText(id)) == Some(id)
  {
    FilterTextTrimmed(id);
    StripPrefix(ToText(id));
    ParseOfText(id);
  }

  lemma {:induction false} ParseAllIs(values: seq<string>, ids: seq<Uuid>)
    requires |values| == |ids| && forall i :: 0 <= i < |values| ==> ParseSourceFilter(values[i]) == Some(ids[i])
    ensures ParseAll(values) == Some(ids)
  {
    if values != [] {
      forall i | 0 <= i < |values| - 1 ensures ParseSourceFilter(values[1..][i]) == Some(ids[1..][i]) {
        assert ParseSourceFilter(values[i + 1]) == Some(ids[i + 1]);
      }
      ParseAllIs(values[1..], ids[1..]);
      assert ids == [ids[0]] + ids[1..];
    }
  }

  lemma ParseOfFilterTexts(ids: seq<Uuid>)
    ensures ParseAll(FilterTexts(ids)) == Some(ids)
  {
    var values := FilterTexts(ids);
    forall i | 0 <= i < |values| ensures ParseSourceFilter(values[i]) == Some(ids[i]) {
      ParseOfFilterText(ids[i]);
    }
    ParseAllIs(values, ids);
  }

  /** Normalising keeps the set of sources, and doing it again changes nothing. */
  lemma NormalizeKeepsIds(values: seq<string>)
    requires Normalize(values).Ok?
    ensures var out := Normalize(values).value;
            ParseIds(out) == ParseIds(values) && Normalize(out) == Ok(out)
  {
    var ids := ParseIds(values).value;
    CollectAscending(ParseAll(values).value);
    ParseOfFilterTexts(ids);
    CollectFixesAscending(ids);
  }

  lemma PrefixedOrder(prefix: string, a: string, b: string)
    ensures Text.Less(prefix + a, prefix + b) <==> Text.Less(a, b)
  {
    if prefix == [] {
      assert prefix + a == a && prefix + b == b;
    } else {
      PrefixedOrder(prefix[1..], a, b);
      assert (prefix + a)[1..] == prefix[1..] + a && (prefix + b)[1..] == prefix[1..] + b;
    }
  }

  /** Normal filters are strictly ascending as identifiers and as strings. */
  lemma NormalizeAscending(values: seq<string>)
    requires Normalize(values).Ok?
    ensures var out := Normalize(values).value;
            && StrictlyAscending(ParseIds(values).value)
            && forall i, j :: 0 <= i < j < |out| ==> Text.Less(out[i], out[j])
  {
    var ids := ParseIds(values).value;
    var out := Normalize(values).value;
    CollectAscending(ParseAll(values).value);
    forall i, j | 0 <= i < j < |out| ensures Text.Less(out[i], out[j]) {
      TextOrder(ids[i], ids[j]);
      PrefixedOrder(SOURCE_PREFIX, ToText(ids[i]), ToText(ids[j]));
    }
  }

  // ---------------------------------------------------------------- narrowing

  /** The effective scope, exactly: the request inside the rule's scope, defaulting to that scope. */
  lemma ConstrainMeaning(filters: seq<string>, requested: seq<Uuid>)
    requires ParseIds(filters).Ok?
    ensures var scope := ParseIds(filters).value;
            var r := Constrain(filters, requested);
            && (r.Ok? <==> scope == [] || forall x :: x in requested ==> x in scope)
            && (r.Ok? ==> forall x :: x in r.value <==> if requested == [] then x in scope else x in requested)
            && (r.Ok? && scope != [] ==> r.value != [] && forall x :: x in r.value ==> x in scope)
            && (r.Ok? ==> StrictlyAscending(r.value))
            && (r.Err? ==> r.error == RequestedSourceOutsideRuleScope)
  {
    var scope := ParseIds(filters).value;
    var wanted := Collect(requested);
    CollectAscending(requested);
    CollectAscending(scope);
    assert requested != [] ==> requested[0] in wanted;
    assert wanted != [] ==> wanted[0] in requested;
    assert scope != [] ==> scope[0] in Collect(scope);
    if scope != [] && wanted != [] {
      assert (exists i :: 0 <= i < |wanted| && wanted[i] !in scope) <==> !(forall x :: x in requested ==> x in scope) by {
        if x :| x in requested && x !in scope {
          assert x in wanted;
          var i :| 0 <= i < |wanted| && wanted[i] == x;
          assert wanted[i] !in scope;
        }
      }
    }
  }

  /** The stored text test of the reverse path and the typed narrowing admit the same single sources. */
  lemma TextTestMatchesNarrowing(values: seq<string>, source: Uuid)
    requires Normalize(values).Ok?
    ensures var stored := Normalize(values).value;
            (stored == [] || FilterText(source) in stored) <==> Constrain(stored, [source]).Ok?
  {
    var stored := Normalize(values).value;
    var ids := ParseIds(values).value;
    NormalizeKeepsIds(values);
    ConstrainMeaning(stored, [source]);
    if FilterText(source) in stored {
      var i :| 0 <= i < |stored| && stored[i] == FilterText(source);
      ParseOfFilterText(source);
      ParseOfFilterText(ids[i]);
      assert source == ids[i];
    }
    if source in ids {
      var i :| 0 <= i < |ids| && ids[i] == source;
      assert stored[i] == FilterText(source);
    }
  }
}
