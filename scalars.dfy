/**
 * Scalar rendering shared by both formatters: quote choice, string escaping
 * (`format_string`), integers with an optional `+`, hex and base64 binary, the
 * float sign rule, and the test for keys that may be written bare. The two
 * formatters carry identical copies of this logic.
 */
module Scalars {
  import Bytes
  import Text
  import Values

  /** Quote style for strings and map keys. */
  datatype QuoteStyle = Double | Single | PreferDouble

  /** Binary data encoding preference. */
  datatype BinaryEncoding = Base64 | Hex

  // ---------------------------------------------------------------------------
  // Character classes
  // ---------------------------------------------------------------------------

  /** `char::is_control`: the Unicode category Cc, U+0000..U+001F and U+007F..U+009F. */
  predicate IsControl(c: char) {
    c as int <= 0x1F || 0x7F <= c as int <= 0x9F
  }

  /** `char::is_ascii`. */
  predicate IsAscii(c: char) {
    c as int < 0x80
  }

  // ---------------------------------------------------------------------------
  // Quote choice
  // ---------------------------------------------------------------------------

  /**
   * The quote character a string is written with: `PreferDouble` switches to
   * `'` only when that avoids escaping, i.e. the text has `"` and no `'`.
   */
  function ChooseQuote(style: QuoteStyle, s: string): (q: char)
    ensures q == '"' || q == '\''
    ensures q == '\'' <==> style == Single || (style == PreferDouble && '"' in s && '\'' !in s)
  {
    match style
    case Double => '"'
    case Single => '\''
    case PreferDouble => if '"' in s && '\'' !in s then '\'' else '"'
  }

  // ---------------------------------------------------------------------------
  // Hexadecimal digits
  // ---------------------------------------------------------------------------

  /** One lowercase hexadecimal digit, as `{:x}` prints it. */
  function HexDigit(d: nat): (c: char)
    requires d < 16
    ensures '0' <= c <= '9' || 'a' <= c <= 'f'
  {
    if d < 10 then ('0' as int + d) as char else ('a' as int + d - 10) as char
  }

  /** `{:02x}` of a byte. */
  function Hex2(n: nat): (r: string)
    requires n < 0x100
    ensures |r| == 2
  {
    [HexDigit(n / 16), HexDigit(n % 16)]
  }

  /** `{:04x}` of a value that fits in four digits. */
  function Hex4(n: nat): (r: string)
    requires n < 0x1_0000
    ensures |r| == 4
  {
    Hex2(n / 0x100) + Hex2(n % 0x100)
  }

  /** `\u` followed by four lowercase hex digits. */
  function UnicodeEscape(n: nat): (r: string)
    requires n < 0x1_0000
    ensures |r| == 6
  {
    "\\u" + Hex4(n)
  }

  // ---------------------------------------------------------------------------
  // UTF-16 surrogates
  // ---------------------------------------------------------------------------

  /** `0xD800 + ((code - 0x10000) >> 10)`. */
  function HighSurrogate(code: int): (r: nat)
    requires 0x1_0000 <= code <= 0x10_FFFF
    ensures 0xD800 <= r <= 0xDBFF
  {
    0xD800 + (code - 0x1_0000) / 0x400
  }

  /** `0xDC00 + ((code - 0x10000) & 0x3FF)`. */
  function LowSurrogate(code: int): (r: nat)
    requires 0x1_0000 <= code <= 0x10_FFFF
    ensures 0xDC00 <= r <= 0xDFFF
  {
    0xDC00 + (code - 0x1_0000) % 0x400
  }

  /** The pair is the UTF-16 encoding of the code point: recombining it gives the code point back. */
  lemma SurrogatePairRecombines(code: int)
    requires 0x1_0000 <= code <= 0x10_FFFF
    ensures 0x1_0000 + (HighSurrogate(code) - 0xD800) * 0x400 + (LowSurrogate(code) - 0xDC00) == code
  {
  }

  // ---------------------------------------------------------------------------
  // String escaping
  // ---------------------------------------------------------------------------

  /** What `format_string` writes for one character of the text. */
  function EscapeChar(c: char, quote: char, escapeUnicode: bool): string {
    if c == '"' && quote == '"' then "\\\""
    else if c == '\'' && quote == '\'' then "\\'"
    else if c == '\\' then "\\\\"
    else if c == '/' then "\\/"
    else if c == '\n' then "\\n"
    else if c == '\t' then "\\t"
    else if c == '\r' then "\\r"
    else if c == '\U{0008}' then "\\b"
    else if c == '\U{000C}' then "\\f"
    else if IsControl(c) then UnicodeEscape(c as int)
    else if escapeUnicode && !IsAscii(c) then
      if c as int <= 0xFFFF then UnicodeEscape(c as int)
      else UnicodeEscape(HighSurrogate(c as int)) + UnicodeEscape(LowSurrogate(c as int))
    else [c]
  }

  /** The escaped text between the quotes. */
  function EscapeBody(s: string, quote: char, escapeUnicode: bool): string
    decreases |s|
  {
    if s == [] then [] else EscapeChar(s[0], quote, escapeUnicode) + EscapeBody(s[1..], quote, escapeUnicode)
  }

  /** `format_string(s, quote, escape_unicode)`: the quoted, escaped literal. */
  function Quoted(s: string, quote: char, escapeUnicode: bool): string {
    [quote] + EscapeBody(s, quote, escapeUnicode) + [quote]
  }

  lemma {:induction false} EscapeBodyAppend(s: string, c: char, quote: char, escapeUnicode: bool)
    ensures EscapeBody(s + [c], quote, escapeUnicode) == EscapeBody(s, quote, escapeUnicode) + EscapeChar(c, quote, escapeUnicode)
    decreases |s|
  {
    if s == [] {
      assert [c][1..] == [];
    } else {
      assert (s + [c])[1..] == s[1..] + [c];
      EscapeBodyAppend(s[1..], c, quote, escapeUnicode);
    }
  }

  /** Escaping works character by character: the escape of a concatenation is the concatenation of the escapes. */
  lemma {:induction false} EscapeBodyConcat(a: string, b: string, quote: char, escapeUnicode: bool)
    ensures EscapeBody(a + b, quote, escapeUnicode) == EscapeBody(a, quote, escapeUnicode) + EscapeBody(b, quote, escapeUnicode)
    decreases |a|
  {
    if a == [] {
      assert a + b == b;
    } else {
      assert (a + b)[0] == a[0];
      assert (a + b)[1..] == a[1..] + b;
      EscapeBodyConcat(a[1..], b, quote, escapeUnicode);
    }
  }

  /** One loop step of `format_string`: appending the next character's escape extends the prefix by one. */
  lemma EscapeStep(s: string, i: nat, quote: char, escapeUnicode: bool, result: string)
    requires i < |s|
    requires result == [quote] + EscapeBody(s[..i], quote, escapeUnicode)
    ensures result + EscapeChar(s[i], quote, escapeUnicode) == [quote] + EscapeBody(s[..i + 1], quote, escapeUnicode)
  {
    EscapeBodyAppend(s[..i], s[i], quote, escapeUnicode);
    assert s[..i + 1] == s[..i] + [s[i]];
    Text.AppendAssoc([quote], EscapeBody(s[..i], quote, escapeUnicode), EscapeChar(s[i], quote, escapeUnicode));
  }

  /**
   * The per-character `match` arm of `format_string`'s loop, step by step as
   * the source writes it (the surrogate pair computed inline from the offset
   * code point), proved to push exactly the escape `EscapeChar` specifies.
   */
  method EscapePiece(ch: char, quote: char, escapeUnicode: bool) returns (piece: string)
    ensures piece == EscapeChar(ch, quote, escapeUnicode)
  {
    if ch == '"' && quote == '"' {
      piece := "\\\"";
    } else if ch == '\'' && quote == '\'' {
      piece := "\\'";
    } else if ch == '\\' {
      piece := "\\\\";
    } else if ch == '/' {
      piece := "\\/";
    } else if ch == '\n' {
      piece := "\\n";
    } else if ch == '\t' {
      piece := "\\t";
    } else if ch == '\r' {
      piece := "\\r";
    } else if ch == '\U{0008}' {
      piece := "\\b";
    } else if ch == '\U{000C}' {
      piece := "\\f";
    } else if IsControl(ch) {
      piece := "\\u" + Hex4(ch as int);
    } else if escapeUnicode && !IsAscii(ch) {
      var code := ch as int;
      if code <= 0xFFFF {
        piece := "\\u" + Hex4(code);
      } else {
        var adjusted := code - 0x1_0000;
        var high := 0xD800 + adjusted / 0x400;
        var low := 0xDC00 + adjusted % 0x400;
        piece := "\\u" + Hex4(high) + "\\u" + Hex4(low);
        Text.AppendAssoc("\\u" + Hex4(high), "\\u", Hex4(low));
        assert high == HighSurrogate(code) && low == LowSurrogate(code);
        assert piece == UnicodeEscape(high) + UnicodeEscape(low);
      }
    } else {
      piece := [ch];
    }
  }

  /**
   * `format_string`: pushes the opening quote, then the escape of each
   * character in turn, then the closing quote.
   */
  method FormatString(s: string, quote: char, escapeUnicode: bool) returns (result: string)
    ensures result == Quoted(s, quote, escapeUnicode)
  {
    result := [quote];
    var i := 0;
    while i < |s|
      invariant 0 <= i <= |s|
      invariant result == [quote] + EscapeBody(s[..i], quote, escapeUnicode)
    {
      EscapeStep(s, i, quote, escapeUnicode, result);
      var piece := EscapePiece(s[i], quote, escapeUnicode);
      result := result + piece;
      i := i + 1;
    }
    assert s[..|s|] == s;
    result := result + [quote];
  }

  /** With `escape_unicode` on, every escape is plain ASCII. */
  lemma EscapeCharAscii(c: char, quote: char)
    requires IsAscii(quote)
    ensures forall k | 0 <= k < |EscapeChar(c, quote, true)| :: IsAscii(EscapeChar(c, quote, true)[k])
  {
  }

  /** With `escape_unicode` on and an ASCII quote, the whole literal is ASCII. */
  lemma {:induction false} QuotedAscii(s: string, quote: char)
    requires IsAscii(quote)
    ensures forall k | 0 <= k < |Quoted(s, quote, true)| :: IsAscii(Quoted(s, quote, true)[k])
  {
    EscapeBodyAscii(s, quote);
  }

  lemma {:induction false} EscapeBodyAscii(s: string, quote: char)
    requires IsAscii(quote)
    ensures forall k | 0 <= k < |EscapeBody(s, quote, true)| :: IsAscii(EscapeBody(s, quote, true)[k])
    decreases |s|
  {
    if s != [] {
      EscapeCharAscii(s[0], quote);
      EscapeBodyAscii(s[1..], quote);
    }
  }

  /** A character `format_string` copies unchanged. */
  predicate Verbatim(c: char, quote: char, escapeUnicode: bool) {
    c != quote && c != '\\' && c != '/' && !IsControl(c) && (escapeUnicode ==> IsAscii(c))
  }

  /** Exactly the verbatim characters are written as themselves. */
  lemma EscapeCharVerbatim(c: char, quote: char, escapeUnicode: bool)
    requires quote == '"' || quote == '\''
    ensures EscapeChar(c, quote, escapeUnicode) == [c] <==> Verbatim(c, quote, escapeUnicode)
  {
  }

  /** Text made of verbatim characters is written as itself. */
  lemma {:induction false} EscapeBodyVerbatim(s: string, quote: char, escapeUnicode: bool)
    requires quote == '"' || quote == '\''
    requires forall k | 0 <= k < |s| :: Verbatim(s[k], quote, escapeUnicode)
    ensures EscapeBody(s, quote, escapeUnicode) == s
    decreases |s|
  {
    if s != [] {
      EscapeCharVerbatim(s[0], quote, escapeUnicode);
      EscapeBodyVerbatim(s[1..], quote, escapeUnicode);
    }
  }

  /** No escape contains a line break, so a rendered string is always on one line. */
  lemma EscapeCharNoNewline(c: char, quote: char, escapeUnicode: bool)
    requires quote != '\n'
    ensures '\n' !in EscapeChar(c, quote, escapeUnicode)
  {
  }

  lemma {:induction false} QuotedNoNewline(s: string, quote: char, escapeUnicode: bool)
    requires quote != '\n'
    ensures '\n' !in Quoted(s, quote, escapeUnicode)
  {
    EscapeBodyNoNewline(s, quote, escapeUnicode);
  }

  lemma {:induction false} EscapeBodyNoNewline(s: string, quote: char, escapeUnicode: bool)
    requires quote != '\n'
    ensures '\n' !in EscapeBody(s, quote, escapeUnicode)
    decreases |s|
  {
    if s != [] {
      EscapeCharNoNewline(s[0], quote, escapeUnicode);
      EscapeBodyNoNewline(s[1..], quote, escapeUnicode);
    }
  }

  // ---------------------------------------------------------------------------
  // Integers
  // ---------------------------------------------------------------------------

  function DecimalDigit(d: nat): (c: char)
    requires d < 10
    ensures '0' <= c <= '9'
  {
    ('0' as int + d) as char
  }

  /** The decimal digits of `n`, most significant first, with no leading zero. */
  function NatText(n: nat): (r: string)
    ensures r != []
    ensures forall k | 0 <= k < |r| :: '0' <= r[k] <= '9'
    decreases n
  {
    if n < 10 then [DecimalDigit(n)] else NatText(n / 10) + [DecimalDigit(n % 10)]
  }

  /** `i64::to_string`. */
  function IntText(i: int): string {
    if i < 0 then "-" + NatText(-i) else NatText(i)
  }

  /** `format_int`: the decimal text, with `+` in front exactly when `leading_plus` is on and `i >= 0`. */
  function FormatInt(i: int, leadingPlus: bool): (r: string)
    ensures r != []
    ensures r[0] == '+' <==> leadingPlus && i >= 0
    ensures r[0] == '-' <==> i < 0
    ensures forall k | 1 <= k < |r| :: '0' <= r[k] <= '9'
  {
    if leadingPlus && i >= 0 then "+" + IntText(i) else IntText(i)
  }

  /** The text of an integer holds no newline and ends in a digit. */
  lemma FormatIntOneLine(i: int, leadingPlus: bool)
    ensures '\n' !in FormatInt(i, leadingPlus)
    ensures '0' <= FormatInt(i, leadingPlus)[|FormatInt(i, leadingPlus)| - 1] <= '9'
  {
    var r := FormatInt(i, leadingPlus);
    var digits := NatText(if i < 0 then -i else i);
    assert r[|r| - 1] == digits[|digits| - 1];
    if r[0] != '+' && r[0] != '-' {
      assert r == NatText(i);
    }
    assert forall k | 0 <= k < |r| :: r[k] != '\n';
  }

  // ---------------------------------------------------------------------------
  // Floats (sign rule only)
  // ---------------------------------------------------------------------------

  /**
   * `format_float`: `inf`, `-inf` and `nan` literally, the library's decimal
   * text otherwise, then `+` when `leading_plus` is on, the value is not NaN
   * and the text does not already start with `-`.
   */
  function FormatFloat(f: Values.F64, leadingPlus: bool): (r: string)
    ensures f.isNan && !f.isInfinite ==> r == "nan"
    ensures f.isInfinite && !f.isNan ==> r == (if f.isSignNegative then "-inf" else if leadingPlus then "+inf" else "inf")
    ensures !f.isNan && !f.isInfinite ==> r == f.text || r == "+" + f.text
    ensures !f.isNan && !f.isInfinite ==> (r == f.text <==> !leadingPlus || (|f.text| > 0 && f.text[0] == '-'))
  {
    var base :=
      if f.isInfinite then (if f.isSignNegative then "-inf" else "inf")
      else if f.isNan then "nan"
      else f.text;
    if leadingPlus && !f.isNan && !(|base| > 0 && base[0] == '-') then "+" + base else base
  }

  // ---------------------------------------------------------------------------
  // Binary
  // ---------------------------------------------------------------------------

  /** The bytes as two lowercase hex digits each, in order. */
  function HexText(bytes: seq<Bytes.u8>): (r: string)
    ensures |r| == 2 * |bytes|
    ensures forall k | 0 <= k < |r| :: '0' <= r[k] <= '9' || 'a' <= r[k] <= 'f'
    decreases |bytes|
  {
    if bytes == [] then [] else Hex2(bytes[0]) + HexText(bytes[1..])
  }

  /** One character of the standard base64 alphabet (section 4 of RFC 4648). */
  function Base64Char(n: nat): (c: char)
    requires n < 64
    ensures 'A' <= c <= 'Z' || 'a' <= c <= 'z' || '0' <= c <= '9' || c == '+' || c == '/'
  {
    if n < 26 then ('A' as int + n) as char
    else if n < 52 then ('a' as int + n - 26) as char
    else if n < 62 then ('0' as int + n - 52) as char
    else if n == 62 then '+'
    else '/'
  }

  /** One byte: two characters, then `==`. */
  function Quad1(b0: Bytes.u8): (r: string)
    ensures |r| == 4
  {
    [Base64Char(b0 / 4), Base64Char((b0 % 4) * 16), '=', '=']
  }

  /** Two bytes: three characters, then `=`. */
  function Quad2(b0: Bytes.u8, b1: Bytes.u8): (r: string)
    ensures |r| == 4
  {
    [Base64Char(b0 / 4), Base64Char((b0 % 4) * 16 + b1 / 16), Base64Char((b1 % 16) * 4), '=']
  }

  /** Three bytes: four characters of six bits each. */
  function Quad3(b0: Bytes.u8, b1: Bytes.u8, b2: Bytes.u8): (r: string)
    ensures |r| == 4
  {
    [Base64Char(b0 / 4), Base64Char((b0 % 4) * 16 + b1 / 16),
     Base64Char((b1 % 16) * 4 + b2 / 64), Base64Char(b2 % 64)]
  }

  /** Standard base64 with `=` padding (section 4 of RFC 4648). */
  function Base64Encode(bytes: seq<Bytes.u8>): (r: string)
    ensures |r| == 4 * ((|bytes| + 2) / 3)
    decreases |bytes|
  {
    if bytes == [] then []
    else if |bytes| == 1 then Quad1(bytes[0])
    else if |bytes| == 2 then Quad2(bytes[0], bytes[1])
    else Quad3(bytes[0], bytes[1], bytes[2]) + Base64Encode(bytes[3..])
  }

  /** `Hello` in base64: `Hel` is one full group, `lo` a padded one. */
  lemma Base64Example()
    ensures Base64Encode([72, 101, 108, 108, 111]) == "SGVsbG8="
  {
    var bytes: seq<Bytes.u8> := [72, 101, 108, 108, 111];
    assert bytes[3..] == [108, 111];
    HelGroup();
    assert Quad2(108, 111) == "bG8=";
  }

  lemma HelGroup()
    ensures Quad3(72, 101, 108) == "SGVs"
  {
    assert Base64Char(18) == 'S' && Base64Char(6) == 'G';
    assert Base64Char(21) == 'V' && Base64Char(44) == 's';
  }

  /** Base64 text is drawn from the alphabet and `=`, so it never holds a newline. */
  lemma {:induction false} Base64NoNewline(bytes: seq<Bytes.u8>)
    ensures '\n' !in Base64Encode(bytes)
    decreases |bytes|
  {
    if |bytes| > 2 {
      Base64NoNewline(bytes[3..]);
    }
  }

  // ---------------------------------------------------------------------------
  // Bare keys
  // ---------------------------------------------------------------------------

  /** The words that must stay quoted even though they look like identifiers. */
  const ReservedWords: seq<string> := ["null", "true", "false", "inf", "nan"]

  predicate IsIdentStart(c: char) {
    'a' <= c <= 'z' || 'A' <= c <= 'Z' || c == '_'
  }

  predicate IsIdentContinue(c: char) {
    IsIdentStart(c) || '0' <= c <= '9'
  }

  /** `chars.all(|c| c.is_ascii_alphanumeric() || c == '_')`. */
  function AllIdentContinue(s: string): (r: bool)
    ensures r <==> forall k | 0 <= k < |s| :: IsIdentContinue(s[k])
    decreases |s|
  {
    s == [] || (IsIdentContinue(s[0]) && AllIdentContinue(s[1..]))
  }

  /**
   * `can_be_unquoted`: a key may be written bare exactly when it is a
   * non-reserved identifier (an ASCII letter or `_`, then ASCII letters,
   * digits or `_`).
   */
  function CanBeUnquoted(key: string): (r: bool)
    ensures r <==> key != [] && key !in ReservedWords && IsIdentStart(key[0])
                   && forall k | 1 <= k < |key| :: IsIdentContinue(key[k])
  {
    if key == [] then false
    else if key in ReservedWords then false
    else if !IsIdentStart(key[0]) then false
    else AllIdentContinue(key[1..])
  }

  /**
   * A map key as both formatters write it: bare when unquoted keys are on and
   * the key is a plain identifier, otherwise quoted like a string value.
   */
  function KeyText(key: string, unquoted: bool, style: QuoteStyle, escapeUnicode: bool): string {
    if unquoted && CanBeUnquoted(key) then key else Quoted(key, ChooseQuote(style, key), escapeUnicode)
  }

  /** A key, bare or quoted, is written on one line. */
  lemma KeyOneLine(key: string, unquoted: bool, style: QuoteStyle, escapeUnicode: bool)
    ensures '\n' !in KeyText(key, unquoted, style, escapeUnicode)
  {
    if unquoted && CanBeUnquoted(key) {
      BareKeyOneLine(key);
    } else {
      QuotedNoNewline(key, ChooseQuote(style, key), escapeUnicode);
    }
  }

  /** A key accepted bare holds no newline. */
  lemma BareKeyOneLine(key: string)
    requires CanBeUnquoted(key)
    ensures '\n' !in key
  {
    assert forall k | 0 <= k < |key| :: key[k] != '\n' by {
      forall k | 0 <= k < |key|
        ensures key[k] != '\n'
      {
        if k > 0 { assert IsIdentContinue(key[k]); }
      }
    }
  }

  /** A plain lower-case word is accepted bare. */
  lemma CanBeUnquotedHello()
    ensures CanBeUnquoted("hello")
  {
    assert "hello" != "false" by { assert "hello"[0] != "false"[0]; }
    assert "hello" !in ReservedWords;
    assert AllIdentContinue("ello") by {
      assert forall k | 0 <= k < 4 :: IsIdentContinue("ello"[k]);
    }
  }

  /** A leading underscore is accepted bare. */
  lemma CanBeUnquotedPrivate()
    ensures CanBeUnquoted("_private")
  {
    assert "_private" !in ReservedWords;
    assert AllIdentContinue("private") by {
      assert forall k | 0 <= k < 7 :: IsIdentContinue("private"[k]);
    }
  }

  /** Digits after the first character are accepted bare. */
  lemma CanBeUnquotedDigits()
    ensures CanBeUnquoted("key123")
  {
    assert "key123" !in ReservedWords;
    assert AllIdentContinue("ey123") by {
      assert forall k | 0 <= k < 5 :: IsIdentContinue("ey123"[k]);
    }
  }

  /** A lone underscore is accepted bare. */
  lemma CanBeUnquotedUnderscore()
    ensures CanBeUnquoted("_")
  {
    assert "_" !in ReservedWords;
  }

  /** The keys the source's unit test rejects. */
  lemma CanBeUnquotedRejects()
    ensures !CanBeUnquoted("") && !CanBeUnquoted("123") && !CanBeUnquoted("null")
    ensures !CanBeUnquoted("true") && !CanBeUnquoted("false") && !CanBeUnquoted("kebab-case")
  {
    assert "null" in ReservedWords && "true" in ReservedWords && "false" in ReservedWords;
    assert !IsIdentContinue("kebab-case"[5]);
  }

  /** The leading-plus cases of the source's unit test. */
  lemma FormatIntExamples()
    ensures FormatInt(42, true) == "+42" && FormatInt(0, true) == "+0" && FormatInt(-42, true) == "-42"
    ensures FormatInt(42, false) == "42" && FormatInt(-123, false) == "-123"
  {
    assert NatText(42) == NatText(4) + [DecimalDigit(2)];
    assert NatText(123) == NatText(12) + [DecimalDigit(3)];
    assert NatText(12) == NatText(1) + [DecimalDigit(2)];
  }

  /** The four-digit codes used by the escape examples below. */
  lemma Hex4Examples()
    ensures Hex4(0xE9) == "00e9" && Hex4(0xD83D) == "d83d" && Hex4(0xDE00) == "de00"
  {
    Hex2Examples();
  }

  lemma Hex2Examples()
    ensures Hex2(0x00) == "00" && Hex2(0xE9) == "e9" && Hex2(0xD8) == "d8"
    ensures Hex2(0x3D) == "3d" && Hex2(0xDE) == "de"
  {
    assert HexDigit(0) == '0' && HexDigit(3) == '3' && HexDigit(8) == '8' && HexDigit(9) == '9';
    assert HexDigit(0xD) == 'd' && HexDigit(0xE) == 'e';
  }

  /** A newline is written `\n`. */
  lemma NewlineEscapes()
    ensures Quoted("a\nb", '"', true) == "\"a\\nb\""
  {
    EscapeBodyVerbatim("b", '"', true);
    assert EscapeBody("\nb", '"', true) == "\\nb";
  }

  /** With `escape_unicode`, `é` (U+00E9) is `\u00e9` and U+1F600 its UTF-16 surrogate pair `\ud83d\ude00`. */
  lemma EscapeCharExamples()
    ensures EscapeChar('\U{00E9}', '"', true) == "\\u00e9"
    ensures EscapeChar('\U{1F600}', '"', true) == "\\ud83d\\ude00"
  {
    Hex4Examples();
    assert HighSurrogate(0x1F600) == 0xD83D;
    assert LowSurrogate(0x1F600) == 0xDE00;
  }

  /** With `escape_unicode`, `é` alone is written `"\u00e9"`. */
  lemma LatinEscapes()
    ensures Quoted("\U{00E9}", '"', true) == "\"\\u00e9\""
  {
    EscapeCharExamples();
    assert EscapeBody("\U{00E9}", '"', true) == "\\u00e9";
  }

  /** With `escape_unicode`, U+1F600 alone is written `"\ud83d\ude00"`. */
  lemma SurrogateEscapes()
    ensures Quoted("\U{1F600}", '"', true) == "\"\\ud83d\\ude00\""
  {
    EscapeCharExamples();
    assert EscapeBody("\U{1F600}", '"', true) == "\\ud83d\\ude00";
  }
}
