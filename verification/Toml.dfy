/** The TOML printer of the answer service (bmc/answer_service/app.py
    toml_value, toml_key) and a reader for the part of TOML v1.0.0 it prints:
    basic strings (section "String"), keys (section "Keys"), booleans and
    decimal integers. A char is a Unicode scalar value. */
module Toml {
  import opened Prelude

  datatype Scalar = Bool(b: bool) | Int(n: int) | Str(s: string)

  // ---- printing -------------------------------------------------------------

  function HexDigit(d: nat): char
    requires d < 16
  {
    if d < 10 then ('0' as int + d) as char else ('A' as int + (d - 10)) as char
  }

  /** Python's `f"{n:04X}"` for n below 65536. */
  function Hex4(n: nat): (r: string)
    requires n < 0x10000
    ensures |r| == 4
  {
    [HexDigit(n / 4096), HexDigit(n / 256 % 16), HexDigit(n / 16 % 16), HexDigit(n % 16)]
  }

  /** What one character becomes inside the quotes. */
  function Escape(c: char): string {
    if c == '"' then "\\\""
    else if c == '\\' then "\\\\"
    else if c == 0x08 as char then "\\b"
    else if c == '\t' then "\\t"
    else if c == '\n' then "\\n"
    else if c == 0x0C as char then "\\f"
    else if c == '\r' then "\\r"
    else if IsControl(c) then "\\u" + Hex4(c as int)
    else [c]
  }

  function EscapeAll(s: string): string { FlatMap(Escape, s) }

  function Quoted(s: string): string { "\"" + EscapeAll(s) + "\"" }

  function ValueText(v: Scalar): string {
    match v
    case Bool(b) => if b then "true" else "false"
    case Int(n) => IntText(n)
    case Str(s) => Quoted(s)
  }

  /** toml_value: the string case collects the escaped characters in a loop. */
  method TomlValue(v: Scalar) returns (text: string)
    ensures text == ValueText(v)
    ensures ReadScalar(text) == Some(v)
  {
    ScalarRoundTrip(v);
    match v
    case Bool(b) => return if b then "true" else "false";
    case Int(n) => return IntText(n);
    case Str(s) =>
      var out := "";
      for i := 0 to |s|
        invariant out == EscapeAll(s[..i])
      {
        assert s[..i + 1] == s[..i] + [s[i]];
        FlatMapSnoc(Escape, s[..i], s[i]);
        out := out + Escape(s[i]);
      }
      assert s[..|s|] == s;
      return "\"" + out + "\"";
  }

  predicate IsBareChar(c: char) {
    'A' <= c <= 'Z' || 'a' <= c <= 'z' || '0' <= c <= '9' || c == '_' || c == '-'
  }

  predicate IsBare(key: string) {
    key != "" && forall i :: 0 <= i < |key| ==> IsBareChar(key[i])
  }

  function TomlKey(key: string): string {
    if IsBare(key) then key else Quoted(key)
  }

  // ---- reading ----------------------------------------------------------------

  function HexValue(c: char): Option<nat> {
    if '0' <= c <= '9' then Some(c as int - '0' as int)
    else if 'A' <= c <= 'F' then Some(c as int - 'A' as int + 10)
    else if 'a' <= c <= 'f' then Some(c as int - 'a' as int + 10)
    else None
  }

  function HexNumber(s: string): Option<nat> {
    if s == "" then Some(0)
    else
      match (HexNumber(s[..|s| - 1]), HexValue(s[|s| - 1]))
      case (Some(high), Some(low)) => Some(16 * high + low)
      case _ => None
  }

  function ScalarValue(n: Option<nat>): Option<char> {
    match n
    case Some(v) => if v < 0xD800 || 0xE000 <= v < 0x11_0000 then Some(v as char) else None
    case None => None
  }

  function ShortEscape(c: char): Option<char> {
    if c == '"' then Some('"')
    else if c == '\\' then Some('\\')
    else if c == 'b' then Some(0x08 as char)
    else if c == 't' then Some('\t')
    else if c == 'n' then Some('\n')
    else if c == 'f' then Some(0x0C as char)
    else if c == 'r' then Some('\r')
    else None
  }

  /** One character of a basic string and how many text characters it took;
      None at the closing quote and on anything the grammar forbids. */
  function ReadChar(text: string): (r: Option<(char, nat)>)
    ensures r.Some? ==> 0 < r.value.1 <= |text|
  {
    if text == "" || text[0] == '"' then None
    else if text[0] != '\\' then
      if IsControl(text[0]) && text[0] != '\t' then None else Some((text[0], 1))
    else if |text| < 2 then None
    else if ShortEscape(text[1]).Some? then Some((ShortEscape(text[1]).value, 2))
    else if text[1] == 'u' && |text| >= 6 then
      match ScalarValue(HexNumber(text[2..6])) { case Some(c) => Some((c, 6)) case None => None }
    else if text[1] == 'U' && |text| >= 10 then
      match ScalarValue(HexNumber(text[2..10])) { case Some(c) => Some((c, 10)) case None => None }
    else None
  }

  /** The characters up to the closing quote, and what follows it. */
  function ReadBody(text: string): Option<(string, string)>
    decreases |text|
  {
    if text != "" && text[0] == '"' then Some(("", text[1..]))
    else
      match ReadChar(text)
      case None => None
      case Some((c, used)) =>
        match ReadBody(text[used..])
        case None => None
        case Some((value, rest)) => Some(([c] + value, rest))
  }

  function ReadBasicString(text: string): Option<(string, string)> {
    if text != "" && text[0] == '"' then ReadBody(text[1..]) else None
  }

  function BarePrefix(text: string): (n: nat)
    ensures n <= |text|
  {
    if text != "" && IsBareChar(text[0]) then 1 + BarePrefix(text[1..]) else 0
  }

  /** A bare key or a key quoted as a basic string, and what follows it. */
  function ReadKey(text: string): Option<(string, string)> {
    var n := BarePrefix(text);
    if n > 0 then Some((text[..n], text[n..])) else ReadBasicString(text)
  }

  /** A whole value, with nothing after it. */
  function ReadScalar(text: string): Option<Scalar> {
    if text == "true" then Some(Bool(true))
    else if text == "false" then Some(Bool(false))
    else if text != "" && text[0] == '"' then
      match ReadBasicString(text)
      case Some((value, "")) => Some(Str(value))
      case _ => None
    else
      match ReadInt(text)
      case Some(n) => Some(Int(n))
      case None => None
  }

  // ---- reading what was printed -----------------------------------------------

  lemma HexDigitReads(d: nat)
    requires d < 16
    ensures HexValue(HexDigit(d)) == Some(d)
  {}

  lemma {:induction false} HexStep(s: string, high: nat, d: nat)
    requires d < 16 && HexNumber(s) == Some(high)
    ensures HexNumber(s + [HexDigit(d)]) == Some(16 * high + d)
  {
    HexDigitReads(d);
    assert (s + [HexDigit(d)])[..|s|] == s;
  }

  lemma FourDigits(a: nat, b: nat, c: nat, d: nat)
    requires a < 16 && b < 16 && c < 16 && d < 16
    ensures HexNumber([HexDigit(a), HexDigit(b), HexDigit(c), HexDigit(d)])
         == Some(16 * (16 * (16 * a + b) + c) + d)
  {
    var (w, x, y, z) := (HexDigit(a), HexDigit(b), HexDigit(c), HexDigit(d));
    assert [] + [w] == [w] && [w] + [x] == [w, x] && [w, x] + [y] == [w, x, y] && [w, x, y] + [z] == [w, x, y, z];
    HexStep([], 0, a);
    HexStep([w], a, b);
    HexStep([w, x], 16 * a + b, c);
    HexStep([w, x, y], 16 * (16 * a + b) + c, d);
  }

  lemma HexParts(n: nat)
    requires n < 0x10000
    ensures 16 * (16 * (16 * (n / 4096) + n / 256 % 16) + n / 16 % 16) + n % 16 == n
  {
    assert n / 256 == 16 * (n / 4096) + n / 256 % 16;
    assert n / 16 == 16 * (n / 256) + n / 16 % 16;
  }

  lemma Hex4Reads(n: nat)
    requires n < 0x10000
    ensures HexNumber(Hex4(n)) == Some(n)
  {
    FourDigits(n / 4096, n / 256 % 16, n / 16 % 16, n % 16);
    HexParts(n);
  }

  /** An escaped character reads back as itself, whatever follows it. */
  lemma EscapeReads(c: char, tail: string)
    ensures ReadChar(Escape(c) + tail) == Some((c, |Escape(c)|))
  {
    var text := Escape(c) + tail;
    if IsControl(c) && |Escape(c)| == 6 {
      Hex4Reads(c as int);
      assert text[2..6] == Hex4(c as int);
    }
  }

  lemma {:induction false} BodyReads(s: string, rest: string)
    ensures ReadBody(EscapeAll(s) + "\"" + rest) == Some((s, rest))
  {
    var text := EscapeAll(s) + "\"" + rest;
    if s == "" {
      assert text == "\"" + rest;
      assert text[1..] == rest;
    } else {
      var tail := EscapeAll(s[1..]) + "\"" + rest;
      assert text == Escape(s[0]) + tail;
      EscapeReads(s[0], tail);
      assert text[|Escape(s[0])|..] == tail;
      BodyReads(s[1..], rest);
      assert s == [s[0]] + s[1..];
    }
  }

  /** A printed string can never close its own quotes: whatever text follows,
      the reader takes exactly the printed string and leaves that text. */
  lemma QuotedRoundTrip(s: string, rest: string)
    ensures ReadBasicString(Quoted(s) + rest) == Some((s, rest))
  {
    BodyReads(s, rest);
    assert (Quoted(s) + rest)[1..] == EscapeAll(s) + "\"" + rest;
  }

  /** A run of plain characters, two-character escapes and `\u` escapes of four
      hex digits: no raw quote, backslash or control character. */
  predicate Escaped(body: string) {
    if body == "" then true
    else if body[0] != '\\' then body[0] != '"' && !IsControl(body[0]) && Escaped(body[1..])
    else if |body| >= 2 && ShortEscape(body[1]).Some? then Escaped(body[2..])
    else |body| >= 6 && body[1] == 'u' && ScalarValue(HexNumber(body[2..6])).Some? && Escaped(body[6..])
  }

  lemma EscapeIsUnit(c: char, tail: string)
    requires Escaped(tail)
    ensures Escaped(Escape(c) + tail)
  {
    var text := Escape(c) + tail;
    assert text[|Escape(c)|..] == tail;
    if IsControl(c) && |Escape(c)| == 6 {
      Hex4Reads(c as int);
      assert text[2..6] == Hex4(c as int);
    }
  }

  lemma EscapeChars(c: char)
    ensures forall i :: 0 <= i < |Escape(c)| ==> !IsControl(Escape(c)[i])
    ensures forall i :: 0 <= i < |Escape(c)| && Escape(c)[i] == '"' ==> i > 0 && Escape(c)[i - 1] == '\\'
  {}

  lemma {:induction false} NoRawControl(s: string)
    ensures forall i :: 0 <= i < |EscapeAll(s)| ==> !IsControl(EscapeAll(s)[i])
  {
    if s == "" {
    } else {
      NoRawControl(s[1..]);
      EscapeChars(s[0]);
      var e, t := Escape(s[0]), EscapeAll(s[1..]);
      forall i | 0 <= i < |e + t| ensures !IsControl((e + t)[i]) {
        assert (e + t)[i] == if i < |e| then e[i] else t[i - |e|];
      }
    }
  }

  lemma {:induction false} QuotesFollowBackslash(s: string)
    ensures forall i :: 0 <= i < |EscapeAll(s)| && EscapeAll(s)[i] == '"' ==> i > 0 && EscapeAll(s)[i - 1] == '\\'
  {
    if s == "" {
    } else {
      QuotesFollowBackslash(s[1..]);
      EscapeChars(s[0]);
      hide Escape;
      var e, t := Escape(s[0]), EscapeAll(s[1..]);
      forall i | 0 <= i < |e + t| && (e + t)[i] == '"' ensures i > 0 && (e + t)[i - 1] == '\\' {
        if i >= |e| {
          assert t[i - |e|] == '"';
          assert (e + t)[i - 1] == t[i - |e| - 1];
        }
      }
    }
  }

  lemma {:induction false} AllEscaped(s: string)
    ensures Escaped(EscapeAll(s))
  {
    if s == "" {
    } else {
      hide Escape, Escaped;
      AllEscaped(s[1..]);
      EscapeIsUnit(s[0], EscapeAll(s[1..]));
    }
  }

  /** The printed body holds quotes and backslashes only in escapes, and no raw
      control character, so no line break either. */
  lemma BodyIsPlain(s: string)
    ensures Escaped(EscapeAll(s))
    ensures forall i :: 0 <= i < |EscapeAll(s)| ==> !IsControl(EscapeAll(s)[i])
    ensures forall i :: 0 <= i < |EscapeAll(s)| && EscapeAll(s)[i] == '"' ==> i > 0 && EscapeAll(s)[i - 1] == '\\'
  {
    AllEscaped(s);
    NoRawControl(s);
    QuotesFollowBackslash(s);
  }

  /** An escaped body, with a quote after it, is read exactly up to that quote. */
  lemma {:induction false} EscapedEndsAtQuote(body: string, rest: string)
    requires Escaped(body)
    ensures var r := ReadBody(body + "\"" + rest); r.Some? && r.value.1 == rest
    decreases |body|
  {
    var text := body + "\"" + rest;
    if body == "" {
      assert text == "\"" + rest && text[1..] == rest;
    } else {
      var used := if body[0] != '\\' then 1 else if ShortEscape(body[1]).Some? then 2 else 6;
      assert text[used..] == body[used..] + "\"" + rest;
      EscapedEndsAtQuote(body[used..], rest);
      if used == 6 { assert text[2..6] == body[2..6]; }
    }
  }

  lemma IntReads(n: int)
    ensures ReadInt(IntText(n)) == Some(n)
    ensures IntText(n) != "true" && IntText(n) != "false" && IntText(n) != "" && IntText(n)[0] != '"'
  {
    IntTextReads(n);
    assert "true"[0] == 't' && "false"[0] == 'f';
  }

  /** Reading a printed value gives the value back, type included. */
  lemma ScalarRoundTrip(v: Scalar)
    ensures ReadScalar(ValueText(v)) == Some(v)
  {
    match v
    case Bool(b) =>
    case Int(n) => IntReads(n);
    case Str(s) =>
      QuotedRoundTrip(s, "");
      assert Quoted(s) + "" == Quoted(s);
      assert "true"[0] == 't' && "false"[0] == 'f' && Quoted(s)[0] == '"';
  }

  lemma {:induction false} BarePrefixStops(key: string, rest: string)
    requires forall i :: 0 <= i < |key| ==> IsBareChar(key[i])
    requires rest == "" || !IsBareChar(rest[0])
    ensures BarePrefix(key + rest) == |key|
  {
    if key != "" {
      BarePrefixStops(key[1..], rest);
      assert (key + rest)[1..] == key[1..] + rest;
    } else {
      assert key + rest == rest;
    }
  }

  /** A printed key reads back, followed by anything that ends a key (a space,
      a dot, an equals sign, the end of the text). */
  lemma KeyRoundTrip(key: string, rest: string)
    requires rest == "" || !IsBareChar(rest[0])
    ensures ReadKey(TomlKey(key) + rest) == Some((key, rest))
  {
    if IsBare(key) {
      BarePrefixStops(key, rest);
      assert (key + rest)[..|key|] == key && (key + rest)[|key|..] == rest;
    } else {
      QuotedRoundTrip(key, rest);
    }
  }

  lemma KeyInjective(a: string, b: string)
    requires TomlKey(a) == TomlKey(b)
    ensures a == b
  {
    KeyRoundTrip(a, "");
    KeyRoundTrip(b, "");
    assert TomlKey(a) + "" == TomlKey(a) && TomlKey(b) + "" == TomlKey(b);
  }

  /** No text without control characters that reads as a character is shorter than
      what is printed for it. */
  lemma EscapeIsShortest(c: char, text: string)
    requires ReadChar(text) == Some((c, |text|)) && forall i :: 0 <= i < |text| ==> !IsControl(text[i])
    ensures |Escape(c)| <= |text|
  {
    hide HexNumber, ScalarValue;
  }

  /** A control character without a short form is written with four digits, of which
      the letters are capitals. */
  lemma EscapesInCapitals(c: char)
    requires |Escape(c)| > 2
    ensures IsControl(c) && |Escape(c)| == 6 && Escape(c)[..2] == "\\u"
    ensures forall i :: 2 <= i < 6 ==> '0' <= Escape(c)[i] <= '9' || 'A' <= Escape(c)[i] <= 'F'
  {
    assert Escape(c) == "\\u" + Hex4(c as int);
  }

  /** A key is printed without quotes iff it is letters, digits, underscores and
      dashes, and not empty. */
  lemma BareKeys(key: string)
    ensures TomlKey(key) == key <==> key != "" && forall c :: c in key ==>
      'A' <= c <= 'Z' || 'a' <= c <= 'z' || '0' <= c <= '9' || c == '_' || c == '-'
    ensures TomlKey(key) != key ==> TomlKey(key)[0] == '"'
  {
    if IsBare(key) {
      forall c | c in key ensures IsBareChar(c) { var i :| 0 <= i < |key| && key[i] == c; }
    } else {
      EscapeGrows(key);
      hide EscapeAll;
      if key != "" {
        var i :| 0 <= i < |key| && !IsBareChar(key[i]);
        assert key[i] in key;
      }
    }
  }

  lemma {:induction false} EscapeGrows(s: string)
    ensures |EscapeAll(s)| >= |s|
  {
    if s == "" {
    } else {
      EscapeGrows(s[1..]);
      assert EscapeAll(s) == Escape(s[0]) + EscapeAll(s[1..]);
    }
  }
}
