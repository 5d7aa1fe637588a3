/**
 UUIDs and their text. A UUID is its 128-bit big-endian value (section 4 of RFC 9562),
 so the order of the numbers is the byte order that `Uuid` compares with.
 */
module Uuids {
  import opened Numerals
  import Text
  import opened Wrappers

  const TWO_TO_THE_128: nat := 0x1_0000_0000_0000_0000_0000_0000_0000_0000

  type Uuid = n: nat | n < TWO_TO_THE_128

  const HEX := "0123456789abcdef"

  function HexText(digits: seq<nat>): (s: string)
    requires forall i :: 0 <= i < |digits| ==> digits[i] < 16
    ensures |s| == |digits|
    ensures forall i :: 0 <= i < |s| ==> s[i] == HEX[digits[i]]
  {
    seq(|digits|, i requires 0 <= i < |digits| => HEX[digits[i]])
  }

  /** The lower-case hyphenated form: 8-4-4-4-12 hexadecimal digits. */
  function ToText(id: Uuid): (s: string)
    ensures |s| == 36
  {
    Hyphenate(HexText(Digits(id, 16, 32)))
  }

  function Hyphenate(h: string): (s: string)
    requires |h| == 32
    ensures |s| == 36
  {
    h[..8] + "-" + h[8..12] + "-" + h[12..16] + "-" + h[16..20] + "-" + h[20..]
  }

  /** One hexadecimal digit of either case. */
  function HexValue(c: char): (v: Option<nat>)
    ensures v.Some? ==> v.value < 16
  {
    var n := c as int;
    if '0' <= c <= '9' then Some(n - '0' as int)
    else if 'a' <= c <= 'f' then Some(n - 'a' as int + 10)
    else if 'A' <= c <= 'F' then Some(n - 'A' as int + 10)
    else None
  }

  function HexDigits(s: string): (d: Option<seq<nat>>)
    ensures d.Some? ==> |d.value| == |s| && forall i :: 0 <= i < |s| ==> d.value[i] < 16
  {
    if s == [] then Some([])
    else match (HexValue(s[0]), HexDigits(s[1..]))
      case (Some(v), Some(rest)) => Some([v] + rest)
      case _ => None
  }

  function ParseSimple(s: string): Option<Uuid>
    requires |s| == 32
  {
    match HexDigits(s)
    case None => None
    case Some(d) =>
      PowerOf128();
      DigitsOfValue(d, 16);
      Some(Value(d, 16))
  }

  function ParseHyphenated(s: string): Option<Uuid>
    requires |s| == 36
  {
    if s[8] == '-' && s[13] == '-' && s[18] == '-' && s[23] == '-'
    then ParseSimple(s[..8] + s[9..13] + s[14..18] + s[19..23] + s[24..])
    else None
  }

  /** `Uuid::parse_str`: simple, hyphenated, braced and URN forms, digits of either case. */
  function Parse(s: string): Option<Uuid> {
    if |s| == 32 then ParseSimple(s)
    else if |s| == 36 then ParseHyphenated(s)
    else if |s| == 38 && s[0] == '{' && s[37] == '}' then ParseHyphenated(s[1..37])
    else if |s| == 45 && s[..9] == "urn:uuid:" then ParseHyphenated(s[9..])
    else None
  }

  lemma PowerOf128()
    ensures Pow(16, 32) == TWO_TO_THE_128
    ensures Pow(256, 16) == TWO_TO_THE_128
  {
    assert Pow(16, 8) == 0x1_0000_0000;
    assert Pow(16, 16) == 0x1_0000_0000_0000_0000;
    assert Pow(16, 24) == 0x1_0000_0000_0000_0000_0000_0000;
    assert Pow(256, 4) == 0x1_0000_0000;
    assert Pow(256, 8) == 0x1_0000_0000_0000_0000;
    assert Pow(256, 12) == 0x1_0000_0000_0000_0000_0000_0000;
  }

  lemma {:induction false} HexDigitsOfHexText(d: seq<nat>)
    requires forall i :: 0 <= i < |d| ==> d[i] < 16
    ensures HexDigits(HexText(d)) == Some(d)
  {
    if d == [] {
    } else {
      HexDigitsOfHexText(d[1..]);
      assert HexText(d)[1..] == HexText(d[1..]);
      assert HexValue(HEX[d[0]]) == Some(d[0]);
      assert d == [d[0]] + d[1..];
    }
  }

  lemma Unhyphenate(h: string)
    requires |h| == 32
    ensures var s := Hyphenate(h);
            s[8] == '-' && s[13] == '-' && s[18] == '-' && s[23] == '-'
            && s[..8] + s[9..13] + s[14..18] + s[19..23] + s[24..] == h
  {
    var s := Hyphenate(h);
    assert s[..8] == h[..8];
    assert s[9..13] == h[8..12];
    assert s[14..18] == h[12..16];
    assert s[19..23] == h[16..20];
    assert s[24..] == h[20..];
  }

  /** The text of a UUID parses back to the UUID. */
  lemma ParseOfText(id: Uuid)
    ensures Parse(ToText(id)) == Some(id)
  {
    var d := Digits(id, 16, 32);
    Unhyphenate(HexText(d));
    HexDigitsOfHexText(d);
    PowerOf128();
    ValueOfDigits(id, 16, 32);
  }

  /** Where hexadecimal digit `i` stands in the hyphenated text. */
  function Column(i: nat): nat
    requires i < 32
  {
    i + (if i < 8 then 0 else if i < 12 then 1 else if i < 16 then 2 else if i < 20 then 3 else 4)
  }

  lemma TextAtColumn(id: Uuid, i: nat)
    requires i < 32
    ensures ToText(id)[Column(i)] == HEX[Digits(id, 16, 32)[i]]
  {
  }

  lemma TextPrefix(a: Uuid, b: Uuid, i: nat)
    requires i < 32 && Digits(a, 16, 32)[..i] == Digits(b, 16, 32)[..i]
    ensures ToText(a)[..Column(i)] == ToText(b)[..Column(i)]
  {
    var h, g := HexText(Digits(a, 16, 32)), HexText(Digits(b, 16, 32));
    assert forall j :: 0 <= j < i ==> Digits(a, 16, 32)[j] == Digits(a, 16, 32)[..i][j];
    assert forall j :: 0 <= j < i ==> Digits(b, 16, 32)[j] == Digits(b, 16, 32)[..i][j];
    assert forall j :: 0 <= j < i ==> h[j] == g[j];
    var s, t := ToText(a), ToText(b);
    forall c | 0 <= c < Column(i) ensures s[c] == t[c] {
    }
  }

  /** Byte order on UUIDs is string order on their text, both ways. */
  lemma TextOrder(a: Uuid, b: Uuid)
    ensures a < b <==> Text.Less(ToText(a), ToText(b))
  {
    if a < b {
      SmallerIsLess(a, b);
    } else if b < a {
      SmallerIsLess(b, a);
      Text.LessAsymmetric(ToText(b), ToText(a));
    } else if Text.Less(ToText(a), ToText(b)) {
      Text.LessAsymmetric(ToText(a), ToText(b));
    }
  }

  lemma SmallerIsLess(a: Uuid, b: Uuid)
    requires a < b
    ensures Text.Less(ToText(a), ToText(b))
  {
    PowerOf128();
    var k := SmallerNumberSmallerDigits(a, b, 16, 32);
    TextPrefix(a, b, k);
    TextAtColumn(a, k);
    TextAtColumn(b, k);
    var x, y := Digits(a, 16, 32)[k], Digits(b, 16, 32)[k];
    assert HEX[x] < HEX[y];
    Text.LessAtFirstDifference(ToText(a), ToText(b), Column(k));
  }

  /** Comparing the 16 bytes from the front is comparing the numbers. */
  lemma ByteOrder(a: Uuid, b: Uuid) returns (k: nat)
    requires a < b
    ensures FirstDifference(Digits(a, 256, 16), Digits(b, 256, 16), k)
  {
    PowerOf128();
    k := SmallerNumberSmallerDigits(a, b, 256, 16);
  }
}
