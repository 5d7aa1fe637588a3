/**
 Canonical match keys and vector fingerprints: what is hashed, and why equal hashes mean
 equal inputs once SHA-256 is taken to be injective.
 */
module MatchKeys {
  import opened Wrappers
  import opened Uuids
  import opened Utf8
  import Json
  import Numerals

  /** SHA-256 followed by hexadecimal text, as a function of the hashed bytes. */
  type Sha = seq<Byte> -> string

  /** The assumption made about SHA-256. */
  ghost predicate Injective(sha: Sha) {
    forall a, b :: sha(a) == sha(b) ==> a == b
  }

  function TextSha(sha: Sha, text: string): string {
    sha(Encode(text))
  }

  lemma TextShaInjective(sha: Sha, a: string, b: string)
    requires Injective(sha) && TextSha(sha, a) == TextSha(sha, b)
    ensures a == b
  {
    EncodeInjective(a, b);
  }

  // ---------------------------------------------------------------- decimal text

  const DIGITS := "0123456789"

  /** `u32::to_string`. */
  function Decimal(n: nat): (s: string)
    ensures s != []
    decreases n
  {
    if n < 10 then [DIGITS[n]] else Decimal(n / 10) + [DIGITS[n % 10]]
  }

  function DecimalValue(s: string): nat {
    if s == [] then 0
    else
      var d := s[|s| - 1] as int - '0' as int;
      DecimalValue(s[..|s| - 1]) * 10 + (if 0 <= d < 10 then d else 0)
  }

  lemma {:induction false} ValueOfDecimal(n: nat)
    ensures DecimalValue(Decimal(n)) == n
  {
    if n >= 10 {
      ValueOfDecimal(n / 10);
      assert Decimal(n)[..|Decimal(n)| - 1] == Decimal(n / 10);
    } else {
      assert Decimal(n)[..0] == [];
    }
  }

  // ---------------------------------------------------------------- the match key

  datatype Normalization = NoNormalization | L2 | UnitLength

  function NormalizationName(n: Normalization): string {
    match n
    case NoNormalization => "none"
    case L2 => "l2"
    case UnitLength => "unit_length"
  }

  /** A model space: vectors are compared only inside one. */
  datatype Space = Space(model: string, version: string, dimensions: nat, normalization: Normalization)

  datatype MatchIdentity = MatchIdentity(
    tenant: Uuid,
    rule: Uuid,
    ruleRevision: Uuid,
    pageRevision: Uuid,
    contentSha: string,
    space: Space)

  function Fields(id: MatchIdentity): seq<string> {
    [ToText(id.tenant), ToText(id.rule), ToText(id.ruleRevision), ToText(id.pageRevision), id.contentSha,
     id.space.model, id.space.version, Decimal(id.space.dimensions), NormalizationName(id.space.normalization)]
  }

  /** `match_key`, the same function in both copies of the source. */
  function MatchKey(sha: Sha, id: MatchIdentity): string {
    TextSha(sha, Json.EncodeArray(Fields(id)))
  }

  /** A reader of hashed keys: tenant, rule, rule revision, page revision, content hash and the four parts of the space. */
  function ReadIdentity(hashed: seq<Byte>): Option<MatchIdentity> {
    match Decode(hashed)
    case None => None
    case Some(text) =>
      match Json.DecodeArray(text)
      case None => None
      case Some(f) => if |f| == 9 then ReadFields(f) else None
  }

  function ReadFields(f: seq<string>): Option<MatchIdentity>
    requires |f| == 9
  {
    match (Parse(f[0]), Parse(f[1]), Parse(f[2]), Parse(f[3]), ReadName(f[8]))
    case (Some(tenant), Some(rule), Some(ruleRevision), Some(pageRevision), Some(normalization)) =>
      Some(MatchIdentity(tenant, rule, ruleRevision, pageRevision, f[4], Space(f[5], f[6], DecimalValue(f[7]), normalization)))
    case _ => None
  }

  function ReadName(name: string): Option<Normalization> {
    if name == "none" then Some(NoNormalization)
    else if name == "l2" then Some(L2)
    else if name == "unit_length" then Some(UnitLength)
    else None
  }

  lemma NameInjective(a: Normalization, b: Normalization)
    requires NormalizationName(a) == NormalizationName(b)
    ensures a == b
  {
    assert ReadName(NormalizationName(a)) == Some(a) && ReadName(NormalizationName(b)) == Some(b);
  }

  lemma ReadOfFields(id: MatchIdentity)
    ensures ReadFields(Fields(id)) == Some(id)
  {
    ParseOfText(id.tenant);
    ParseOfText(id.rule);
    ParseOfText(id.ruleRevision);
    ParseOfText(id.pageRevision);
    ValueOfDecimal(id.space.dimensions);
  }

  lemma FieldsInjective(a: MatchIdentity, b: MatchIdentity)
    requires Fields(a) == Fields(b)
    ensures a == b
  {
    ReadOfFields(a);
    ReadOfFields(b);
  }

  /** What is hashed for a key reads back as the identity. */
  lemma MatchKeyReads(sha: Sha, id: MatchIdentity) returns (hashed: seq<Byte>)
    ensures MatchKey(sha, id) == sha(hashed) && ReadIdentity(hashed) == Some(id)
  {
    var text := Json.EncodeArray(Fields(id));
    hashed := Encode(text);
    DecodeOfEncode(text);
    Json.DecodeOfArray(Fields(id));
    ReadOfFields(id);
  }

  /** Two identities have one key exactly when they are the same identity. */
  lemma MatchKeyIdentifies(sha: Sha, a: MatchIdentity, b: MatchIdentity)
    requires Injective(sha)
    ensures MatchKey(sha, a) == MatchKey(sha, b) <==> a == b
  {
    if MatchKey(sha, a) == MatchKey(sha, b) {
      TextShaInjective(sha, Json.EncodeArray(Fields(a)), Json.EncodeArray(Fields(b)));
      Json.DecodeOfArray(Fields(a));
      Json.DecodeOfArray(Fields(b));
      FieldsInjective(a, b);
    }
  }

  // ---------------------------------------------------------------- vector fingerprints

  /** An `f32` by its bit pattern. */
  type F32 = n: nat | n < 0x1_0000_0000

  const NEGATIVE_ZERO: F32 := 0x8000_0000

  /** Both zeros hash as the positive one. */
  function Canonical(x: F32): F32 {
    if x == NEGATIVE_ZERO then 0 else x
  }

  function FloatBytes(x: F32): (b: seq<Byte>)
    ensures |b| == 4
  {
    Numerals.Digits(Canonical(x), 256, 4)
  }

  function VectorBytes(v: seq<F32>): (b: seq<Byte>)
    ensures |b| == 4 * |v|
  {
    if v == [] then [] else VectorBytes(v[..|v| - 1]) + FloatBytes(v[|v| - 1])
  }

  /** Equal but for the sign of zeros. */
  predicate SameVector(a: seq<F32>, b: seq<F32>) {
    |a| == |b| && forall i :: 0 <= i < |a| ==> Canonical(a[i]) == Canonical(b[i])
  }

  /** `embedding_sha256`: feed the digest value by value. */
  method EmbeddingSha(sha: Sha, values: seq<F32>) returns (fingerprint: string)
    ensures fingerprint == sha(VectorBytes(values))
  {
    var digest: seq<Byte> := [];
    for i := 0 to |values|
      invariant digest == VectorBytes(values[..i])
    {
      var canonical: F32 := if values[i] == 0 || values[i] == NEGATIVE_ZERO then 0 else values[i];
      digest := digest + Numerals.Digits(canonical, 256, 4);
      assert values[..i + 1][..i] == values[..i];
    }
    assert values[..|values|] == values;
    fingerprint := sha(digest);
  }

  /** A number of four bytes, the most significant first. */
  function Word(b: seq<nat>): nat
    requires |b| == 4
  {
    b[0] * 0x100_0000 + b[1] * 0x1_0000 + b[2] * 0x100 + b[3]
  }

  lemma WordOfFloat(x: F32)
    ensures Word(FloatBytes(x)) == Canonical(x)
  {
    var b: seq<nat> := FloatBytes(x);
    assert Numerals.Pow(256, 4) == 0x1_0000_0000;
    Numerals.ValueOfDigits(Canonical(x), 256, 4);
    assert b[..3][..2] == b[..2] && b[..2][..1] == b[..1] && b[..1][..0] == [];
    assert Numerals.Value(b[..1], 256) == b[0];
    assert Numerals.Value(b[..2], 256) == b[0] * 256 + b[1];
    assert Numerals.Value(b[..3], 256) == (b[0] * 256 + b[1]) * 256 + b[2];
  }

  /** Bytes `4 * i` to `4 * i + 3` are the bit pattern of value `i`, or zero if the value is a zero. */
  lemma {:induction false} BytesOfVector(v: seq<F32>, i: nat)
    requires i < |v|
    ensures Word(VectorBytes(v)[4 * i..4 * i + 4]) == if v[i] == 0x8000_0000 then 0 else v[i]
  {
    var n := |v| - 1;
    if i == n {
      WordOfFloat(v[n]);
      assert VectorBytes(v)[4 * n..4 * n + 4] == FloatBytes(v[n]);
    } else {
      BytesOfVector(v[..n], i);
      assert VectorBytes(v)[4 * i..4 * i + 4] == VectorBytes(v[..n])[4 * i..4 * i + 4];
    }
  }

  lemma FloatBytesInjective(a: F32, b: F32)
    requires FloatBytes(a) == FloatBytes(b)
    ensures Canonical(a) == Canonical(b)
  {
    assert Numerals.Pow(256, 4) == 0x1_0000_0000;
    Numerals.ValueOfDigits(Canonical(a), 256, 4);
    Numerals.ValueOfDigits(Canonical(b), 256, 4);
  }

  lemma {:induction false} VectorBytesInjective(a: seq<F32>, b: seq<F32>)
    requires VectorBytes(a) == VectorBytes(b)
    ensures SameVector(a, b)
  {
    if a == [] || b == [] {
    } else {
      var m, n := |a| - 1, |b| - 1;
      assert m == n;
      var fa, fb := VectorBytes(a[..m]), VectorBytes(b[..m]);
      assert VectorBytes(a)[..4 * m] == fa && VectorBytes(b)[..4 * m] == fb;
      assert VectorBytes(a)[4 * m..] == FloatBytes(a[m]) && VectorBytes(b)[4 * m..] == FloatBytes(b[m]);
      VectorBytesInjective(a[..m], b[..m]);
      FloatBytesInjective(a[m], b[m]);
      forall i | 0 <= i < |a| ensures Canonical(a[i]) == Canonical(b[i]) {
        if i < m {
          assert a[..m][i] == a[i] && b[..m][i] == b[i];
        }
      }
    }
  }

  lemma {:induction false} SameVectorSameBytes(a: seq<F32>, b: seq<F32>)
    requires SameVector(a, b)
    ensures VectorBytes(a) == VectorBytes(b)
  {
    if a != [] {
      SameVectorSameBytes(a[..|a| - 1], b[..|b| - 1]);
    }
  }

  /** Two vectors share a fingerprint exactly when they differ in the sign of zeros at most. */
  lemma FingerprintIdentifies(sha: Sha, a: seq<F32>, b: seq<F32>)
    requires Injective(sha)
    ensures sha(VectorBytes(a)) == sha(VectorBytes(b)) <==> SameVector(a, b)
  {
    if sha(VectorBytes(a)) == sha(VectorBytes(b)) {
      VectorBytesInjective(a, b);
    } else if SameVector(a, b) {
      SameVectorSameBytes(a, b);
    }
  }
}
