/**
 The JSON text of a string array as `serde_json` writes it, and a reader for it
 (sections 5 and 7 of RFC 8259).
 */
module Json {
  import opened Wrappers
  import opened Uuids

  const QUOTE := '\"'
  const BACKSLASH := '\\'

  // ---------------------------------------------------------------- writer

  function EncodeChar(c: char): string {
    var n := c as int;
    if c == QUOTE then [BACKSLASH, QUOTE]
    else if c == BACKSLASH then [BACKSLASH, BACKSLASH]
    else if n == 8 then [BACKSLASH, 'b']
    else if n == 9 then [BACKSLASH, 't']
    else if n == 10 then [BACKSLASH, 'n']
    else if n == 12 then [BACKSLASH, 'f']
    else if n == 13 then [BACKSLASH, 'r']
    else if n < 0x20 then [BACKSLASH, 'u', '0', '0', HEX[n / 16], HEX[n % 16]]
    else [c]
  }

  function EncodeChars(s: string): string {
    if s == [] then [] else EncodeChar(s[0]) + EncodeChars(s[1..])
  }

  function EncodeString(s: string): string {
    [QUOTE] + EncodeChars(s) + [QUOTE]
  }

  function EncodeElements(fields: seq<string>): string {
    if |fields| == 0 then ""
    else if |fields| == 1 then EncodeString(fields[0])
    else EncodeString(fields[0]) + "," + EncodeElements(fields[1..])
  }

  function EncodeArray(fields: seq<string>): string {
    "[" + EncodeElements(fields) + "]"
  }

  // ---------------------------------------------------------------- reader

  /** The character an escape stands for, and how many characters the escape takes. */
  function DecodeEscape(s: string): (r: Option<(char, nat)>)
    requires s != [] && s[0] == BACKSLASH
    ensures r.Some? ==> 2 <= r.value.1 <= |s|
  {
    if |s| < 2 then None
    else if s[1] == QUOTE then Some((QUOTE, 2))
    else if s[1] == BACKSLASH then Some((BACKSLASH, 2))
    else if s[1] == '/' then Some(('/', 2))
    else if s[1] == 'b' then Some((8 as char, 2))
    else if s[1] == 't' then Some((9 as char, 2))
    else if s[1] == 'n' then Some((10 as char, 2))
    else if s[1] == 'f' then Some((12 as char, 2))
    else if s[1] == 'r' then Some((13 as char, 2))
    else if s[1] == 'u' && |s| >= 6 then
      match (HexValue(s[2]), HexValue(s[3]), HexValue(s[4]), HexValue(s[5]))
      case (Some(a), Some(b), Some(c), Some(d)) =>
        var n := a * 4096 + b * 256 + c * 16 + d;
        if n < 0xD800 || 0xE000 <= n then Some((n as char, 6)) else None
      case _ => None
    else None
  }

  /** Read up to the closing quote; the rest follows it. */
  function DecodeChars(s: string): (r: Option<(string, string)>)
    ensures r.Some? ==> |r.value.1| < |s|
    decreases |s|
  {
    if s == [] then None
    else if s[0] == QUOTE then Some(([], s[1..]))
    else if s[0] == BACKSLASH then
      match DecodeEscape(s)
      case None => None
      case Some((c, width)) =>
        (match DecodeChars(s[width..])
         case None => None
         case Some((chars, rest)) => Some(([c] + chars, rest)))
    else if s[0] as int < 0x20 then None
    else
      match DecodeChars(s[1..])
      case None => None
      case Some((chars, rest)) => Some(([s[0]] + chars, rest))
  }

  function DecodeElements(s: string): Option<seq<string>>
    decreases |s|
  {
    if s == [] || s[0] != QUOTE then None
    else
      match DecodeChars(s[1..])
      case None => None
      case Some((field, rest)) =>
        if rest == "]" then Some([field])
        else if rest != [] && rest[0] == ',' then
          match DecodeElements(rest[1..])
          case None => None
          case Some(fields) => Some([field] + fields)
        else None
  }

  function DecodeArray(s: string): Option<seq<string>> {
    if s == "[]" then Some([])
    else if s != [] && s[0] == '[' then DecodeElements(s[1..])
    else None
  }

  // ---------------------------------------------------------------- the reader inverts the writer

  lemma DecodeEscapedChar(c: char, rest: string)
    requires EncodeChar(c) != [c]
    ensures (EncodeChar(c) + rest)[0] == BACKSLASH
    ensures DecodeEscape(EncodeChar(c) + rest) == Some((c, |EncodeChar(c)|))
  {
    var n := c as int;
    if c != QUOTE && c != BACKSLASH && n != 8 && n != 9 && n != 10 && n != 12 && n != 13 {
      assert HexValue(HEX[n / 16]) == Some(n / 16) && HexValue(HEX[n % 16]) == Some(n % 16);
      assert n / 16 * 16 + n % 16 == n;
    }
  }

  /** Reading one written character, then what follows it. */
  lemma DecodeOneChar(c: char, tail: string, s: string, rest: string)
    requires DecodeChars(tail) == Some((s, rest))
    ensures DecodeChars(EncodeChar(c) + tail) == Some(([c] + s, rest))
  {
    var all := EncodeChar(c) + tail;
    assert all[|EncodeChar(c)|..] == tail;
    if EncodeChar(c) != [c] {
      DecodeEscapedChar(c, tail);
    }
  }

  lemma {:induction false} DecodeOfChars(s: string, rest: string)
    ensures DecodeChars(EncodeChars(s) + [QUOTE] + rest) == Some((s, rest))
  {
    if s == [] {
      assert EncodeChars(s) + [QUOTE] + rest == [QUOTE] + rest;
    } else {
      var tail := EncodeChars(s[1..]) + [QUOTE] + rest;
      DecodeOfChars(s[1..], rest);
      DecodeOneChar(s[0], tail, s[1..], rest);
      assert EncodeChars(s) + [QUOTE] + rest == EncodeChar(s[0]) + tail;
      assert s == [s[0]] + s[1..];
    }
  }

  lemma DecodeOfLast(field: string)
    ensures DecodeElements(EncodeString(field) + "]") == Some([field])
  {
    var all := EncodeString(field) + "]";
    assert all[1..] == EncodeChars(field) + [QUOTE] + "]";
    DecodeOfChars(field, "]");
  }

  lemma DecodeOfFirst(field: string, tail: string)
    ensures DecodeElements(EncodeString(field) + "," + tail) ==
            match DecodeElements(tail) { case None => None case Some(fields) => Some([field] + fields) }
  {
    var all := EncodeString(field) + "," + tail;
    var rest := "," + tail;
    assert all[1..] == EncodeChars(field) + [QUOTE] + rest;
    DecodeOfChars(field, rest);
    assert rest[0] == ',' && rest[1..] == tail;
    assert "]"[0] != rest[0];
  }

  lemma {:induction false} DecodeOfElements(fields: seq<string>)
    requires |fields| > 0
    ensures DecodeElements(EncodeElements(fields) + "]") == Some(fields)
  {
    if |fields| == 1 {
      DecodeOfLast(fields[0]);
      assert fields == [fields[0]];
    } else {
      var tail := EncodeElements(fields[1..]) + "]";
      DecodeOfElements(fields[1..]);
      DecodeOfFirst(fields[0], tail);
      assert EncodeElements(fields) + "]" == EncodeString(fields[0]) + "," + tail;
      assert fields == [fields[0]] + fields[1..];
    }
  }

  /** Any list of strings is recovered from its JSON text. */
  lemma DecodeOfArray(fields: seq<string>)
    ensures DecodeArray(EncodeArray(fields)) == Some(fields)
  {
    if |fields| > 0 {
      DecodeOfElements(fields);
      var all := EncodeArray(fields);
      assert all[1..] == EncodeElements(fields) + "]";
      assert all[1] == QUOTE;
    }
  }
}
