/**
 * Reference readers for the scalar texts the formatters write: decimal
 * integers with an optional sign, lowercase hex payloads, and quoted string
 * literals. The string reader is driven by the same escape
 * table the formatters write: `\"`, `\'`, `\\`, `\/`, `\n`, `\t`, `\r`,
 * `\b`, `\f` and `\uXXXX`, where a high surrogate escape must be followed by
 * a low surrogate escape and the pair stands for one supplementary code
 * point. It is the partner of `format_string`: reading what the formatter
 * wrote gives back the original text.
 */
module Readers {
  import opened Wrappers
  import Bytes
  import Scalars

  /** The value of one hexadecimal digit, either case. */
  function HexValue(c: char): (r: Option<nat>)
    ensures r.Some? ==> r.value < 16
    ensures r.Some? <==> '0' <= c <= '9' || 'a' <= c <= 'f' || 'A' <= c <= 'F'
  {
    if '0' <= c <= '9' then Some(c as int - '0' as int)
    else if 'a' <= c <= 'f' then Some(c as int - 'a' as int + 10)
    else if 'A' <= c <= 'F' then Some(c as int - 'A' as int + 10)
    else None
  }

  /** The value of two hexadecimal digits. */
  function ParseHex2(s: string): (r: Option<nat>)
    requires |s| == 2
    ensures r.Some? ==> r.value < 0x100
  {
    match (HexValue(s[0]), HexValue(s[1]))
    case (Some(hi), Some(lo)) => Some(hi * 16 + lo)
    case _ => None
  }

  /** The value of four hexadecimal digits. */
  function ParseHex4(s: string): (r: Option<nat>)
    requires |s| == 4
    ensures r.Some? ==> r.value < 0x1_0000
  {
    match (ParseHex2(s[..2]), ParseHex2(s[2..]))
    case (Some(hi), Some(lo)) => Some(hi * 0x100 + lo)
    case _ => None
  }

  lemma HexDigitReads(d: nat)
    requires d < 16
    ensures HexValue(Scalars.HexDigit(d)) == Some(d)
  {
  }

  lemma Hex2Reads(n: nat)
    requires n < 0x100
    ensures ParseHex2(Scalars.Hex2(n)) == Some(n)
  {
    HexDigitReads(n / 16);
    HexDigitReads(n % 16);
  }

  /** Four lowercase digits read back as the value they were written from. */
  lemma Hex4Reads(n: nat)
    requires n < 0x1_0000
    ensures ParseHex4(Scalars.Hex4(n)) == Some(n)
  {
    var s := Scalars.Hex4(n);
    assert s[..2] == Scalars.Hex2(n / 0x100);
    assert s[2..] == Scalars.Hex2(n % 0x100);
    Hex2Reads(n / 0x100);
    Hex2Reads(n % 0x100);
  }

  predicate IsHighSurrogate(n: nat) { 0xD800 <= n <= 0xDBFF }

  predicate IsLowSurrogate(n: nat) { 0xDC00 <= n <= 0xDFFF }

  /** The code point a `\uXXXX` escape introduces, with the rest of the text. */
  function ReadUnicode(t: string): (r: Option<(char, string)>)
    ensures r.Some? ==> |r.value.1| + 6 <= |t|
  {
    if |t| < 6 || t[..2] != "\\u" then None
    else match ParseHex4(t[2..6])
      case None => None
      case Some(h) =>
        if IsHighSurrogate(h) then
          if |t| < 12 || t[6..8] != "\\u" then None
          else match ParseHex4(t[8..12])
            case None => None
            case Some(l) =>
              if IsLowSurrogate(l) then
                Some(((0x1_0000 + (h - 0xD800) * 0x400 + (l - 0xDC00)) as char, t[12..]))
              else None
        else if IsLowSurrogate(h) then None
        else Some((h as char, t[6..]))
  }

  /** One character of the body: a raw character, or one escape. */
  function ReadOne(t: string): (r: Option<(char, string)>)
    requires t != []
    ensures r.Some? ==> |r.value.1| < |t|
  {
    if t[0] != '\\' then Some((t[0], t[1..]))
    else if |t| < 2 then None
    else
      var e := t[1];
      if e == '"' then Some(('"', t[2..]))
      else if e == '\'' then Some(('\'', t[2..]))
      else if e == '\\' then Some(('\\', t[2..]))
      else if e == '/' then Some(('/', t[2..]))
      else if e == 'n' then Some(('\n', t[2..]))
      else if e == 't' then Some(('\t', t[2..]))
      else if e == 'r' then Some(('\r', t[2..]))
      else if e == 'b' then Some(('\U{0008}', t[2..]))
      else if e == 'f' then Some(('\U{000C}', t[2..]))
      else if e == 'u' then ReadUnicode(t)
      else None
  }

  /**
   * The decoded body of a literal opened with `quote`, up to the first raw
   * `quote`, and the text after that closing quote; `None` when the text
   * ends first or holds a malformed escape.
   */
  function ReadBody(t: string, quote: char): (r: Option<(string, string)>)
    ensures r.Some? ==> |r.value.1| < |t|
    decreases |t|
  {
    if t == [] then None
    else if t[0] == quote then Some(([], t[1..]))
    else match ReadOne(t)
      case None => None
      case Some((c, t')) =>
        match ReadBody(t', quote)
        case None => None
        case Some((s, rest)) => Some(([c] + s, rest))
  }

  /** A whole quoted literal: the opening quote, the body, the closing quote. */
  function ReadQuoted(t: string): (r: Option<(string, string)>)
  {
    if t != [] && (t[0] == '"' || t[0] == '\'') then ReadBody(t[1..], t[0]) else None
  }

  lemma UnicodeEscapeReads(n: nat, t: string)
    requires n < 0x1_0000 && !IsHighSurrogate(n) && !IsLowSurrogate(n)
    ensures ReadOne(Scalars.UnicodeEscape(n) + t) == Some((n as char, t))
  {
    var u := Scalars.UnicodeEscape(n) + t;
    assert u[..2] == "\\u";
    assert u[2..6] == Scalars.Hex4(n);
    Hex4Reads(n);
    assert u[6..] == t;
  }

  lemma SurrogatePairReads(code: int, t: string)
    requires 0x1_0000 <= code <= 0x10_FFFF
    ensures ReadOne(Scalars.UnicodeEscape(Scalars.HighSurrogate(code)) + Scalars.UnicodeEscape(Scalars.LowSurrogate(code)) + t)
            == Some((code as char, t))
  {
    var hi := Scalars.HighSurrogate(code);
    var lo := Scalars.LowSurrogate(code);
    var u := Scalars.UnicodeEscape(hi) + Scalars.UnicodeEscape(lo) + t;
    assert u[..2] == "\\u";
    assert u[2..6] == Scalars.Hex4(hi);
    assert u[6..8] == "\\u";
    assert u[8..12] == Scalars.Hex4(lo);
    assert u[12..] == t;
    Hex4Reads(hi);
    Hex4Reads(lo);
    Scalars.SurrogatePairRecombines(code);
  }

  /** Every escape the formatter writes for a character reads back as that character. */
  lemma EscapeCharReads(c: char, quote: char, escapeUnicode: bool, t: string)
    requires quote == '"' || quote == '\''
    ensures Scalars.EscapeChar(c, quote, escapeUnicode) != []
    ensures Scalars.EscapeChar(c, quote, escapeUnicode)[0] != quote
    ensures ReadOne(Scalars.EscapeChar(c, quote, escapeUnicode) + t) == Some((c, t))
  {
    var e := Scalars.EscapeChar(c, quote, escapeUnicode);
    if c == '"' && quote == '"' {
    } else if c == '\'' && quote == '\'' {
    } else if c == '\\' || c == '/' || c == '\n' || c == '\t' || c == '\r' || c == '\U{0008}' || c == '\U{000C}' {
    } else if Scalars.IsControl(c) {
      UnicodeEscapeReads(c as int, t);
    } else if escapeUnicode && !Scalars.IsAscii(c) {
      if c as int <= 0xFFFF {
        UnicodeEscapeReads(c as int, t);
      } else {
        SurrogatePairReads(c as int, t);
      }
    } else {
      assert e == [c];
      assert (e + t)[1..] == t;
    }
  }

  /** Reading the escaped body followed by the closing quote gives back the text and the rest. */
  lemma {:induction false} EscapeBodyReads(s: string, quote: char, escapeUnicode: bool, rest: string)
    requires quote == '"' || quote == '\''
    ensures ReadBody(Scalars.EscapeBody(s, quote, escapeUnicode) + [quote] + rest, quote) == Some((s, rest))
    decreases |s|
  {
    var t := Scalars.EscapeBody(s, quote, escapeUnicode) + [quote] + rest;
    if s == [] {
      assert t == [quote] + rest;
      assert t[1..] == rest;
    } else {
      var e := Scalars.EscapeChar(s[0], quote, escapeUnicode);
      var t' := Scalars.EscapeBody(s[1..], quote, escapeUnicode) + [quote] + rest;
      assert t == e + t';
      EscapeCharReads(s[0], quote, escapeUnicode, t');
      assert t[0] == e[0];
      EscapeBodyReads(s[1..], quote, escapeUnicode, rest);
      assert [s[0]] + s[1..] == s;
    }
  }

  /** `format_string` round trip: the quoted literal reads back as the original text, for either quote. */
  lemma QuotedReads(s: string, quote: char, escapeUnicode: bool, rest: string)
    requires quote == '"' || quote == '\''
    ensures ReadQuoted(Scalars.Quoted(s, quote, escapeUnicode) + rest) == Some((s, rest))
  {
    var t := Scalars.Quoted(s, quote, escapeUnicode) + rest;
    assert t[1..] == Scalars.EscapeBody(s, quote, escapeUnicode) + [quote] + rest;
    EscapeBodyReads(s, quote, escapeUnicode, rest);
  }

  /**
   * The literal is closed by its last character and by no earlier one: the
   * only raw quote inside is the closing one, so the body never ends early.
   */
  lemma QuotedConsumesAll(s: string, quote: char, escapeUnicode: bool)
    requires quote == '"' || quote == '\''
    ensures ReadQuoted(Scalars.Quoted(s, quote, escapeUnicode)) == Some((s, []))
  {
    QuotedReads(s, quote, escapeUnicode, []);
    assert Scalars.Quoted(s, quote, escapeUnicode) + [] == Scalars.Quoted(s, quote, escapeUnicode);
  }
  // ---------------------------------------------------------------------------
  // Integers
  // ---------------------------------------------------------------------------

  function DigitValue(c: char): (r: Option<nat>)
    ensures r.Some? ==> r.value < 10
    ensures r.Some? <==> '0' <= c <= '9'
  {
    if '0' <= c <= '9' then Some(c as int - '0' as int) else None
  }

  /** The value of a non-empty run of decimal digits. */
  function ParseDigits(s: string): (r: Option<nat>)
    decreases |s|
  {
    if s == [] then None
    else if |s| == 1 then DigitValue(s[0])
    else match (ParseDigits(s[..|s| - 1]), DigitValue(s[|s| - 1]))
      case (Some(high), Some(d)) => Some(high * 10 + d)
      case _ => None
  }

  /** A decimal integer with an optional `+` or `-` sign. */
  function ParseInt(s: string): (r: Option<int>)
  {
    if s != [] && s[0] == '-' then
      match ParseDigits(s[1..])
      case Some(n) => var v: int := n; Some(-v)
      case None => None
    else if s != [] && s[0] == '+' then
      match ParseDigits(s[1..])
      case Some(n) => Some(n)
      case None => None
    else
      match ParseDigits(s)
      case Some(n) => Some(n)
      case None => None
  }

  lemma {:induction false} NatTextReads(n: nat)
    ensures ParseDigits(Scalars.NatText(n)) == Some(n)
    decreases n
  {
    if n >= 10 {
      var s := Scalars.NatText(n);
      assert s[..|s| - 1] == Scalars.NatText(n / 10);
      NatTextReads(n / 10);
    }
  }

  /** `format_int` round trip: the text reads back as the integer, with or without the leading `+`. */
  lemma FormatIntReads(i: int, leadingPlus: bool)
    ensures ParseInt(Scalars.FormatInt(i, leadingPlus)) == Some(i)
  {
    var r := Scalars.FormatInt(i, leadingPlus);
    if i < 0 {
      NatTextReads(-i);
      assert r[1..] == Scalars.NatText(-i);
    } else {
      NatTextReads(i);
      if leadingPlus {
        assert r[1..] == Scalars.NatText(i);
      } else {
        assert r == Scalars.NatText(i);
      }
    }
  }

  /** Different integers never render to the same text. */
  lemma FormatIntInjective(i: int, j: int, leadingPlus: bool)
    requires Scalars.FormatInt(i, leadingPlus) == Scalars.FormatInt(j, leadingPlus)
    ensures i == j
  {
    FormatIntReads(i, leadingPlus);
    FormatIntReads(j, leadingPlus);
  }

  // ---------------------------------------------------------------------------
  // Binary payloads
  // ---------------------------------------------------------------------------

  /** Pairs of hexadecimal digits back to bytes. */
  function DecodeHex(s: string): (r: Option<seq<Bytes.u8>>)
    decreases |s|
  {
    if s == [] then Some([])
    else if |s| < 2 then None
    else match (ParseHex2(s[..2]), DecodeHex(s[2..]))
      case (Some(b), Some(rest)) => Some([b] + rest)
      case _ => None
  }

  /** The hex payload reads back as the bytes it was written from. */
  lemma {:induction false} HexTextReads(bytes: seq<Bytes.u8>)
    ensures DecodeHex(Scalars.HexText(bytes)) == Some(bytes)
    decreases |bytes|
  {
    if bytes != [] {
      var s := Scalars.HexText(bytes);
      assert s[..2] == Scalars.Hex2(bytes[0]);
      assert s[2..] == Scalars.HexText(bytes[1..]);
      Hex2Reads(bytes[0]);
      HexTextReads(bytes[1..]);
      assert [bytes[0]] + bytes[1..] == bytes;
    }
  }

  /** The value of one character of the standard base64 alphabet. */
  function Base64Value(c: char): (r: Option<nat>)
    ensures r.Some? ==> r.value < 64
  {
    if 'A' <= c <= 'Z' then Some(c as int - 'A' as int)
    else if 'a' <= c <= 'z' then Some(c as int - 'a' as int + 26)
    else if '0' <= c <= '9' then Some(c as int - '0' as int + 52)
    else if c == '+' then Some(62)
    else if c == '/' then Some(63)
    else None
  }

  lemma Base64CharReads(n: nat)
    requires n < 64
    ensures Base64Value(Scalars.Base64Char(n)) == Some(n)
  {
  }

  /** The bytes one group of four characters stands for, `=` marking padding. */
  function DecodeGroup(g: string): (r: Option<seq<Bytes.u8>>)
    requires |g| == 4
  {
    match (Base64Value(g[0]), Base64Value(g[1]))
    case (Some(a), Some(b)) =>
      (if g[2] == '=' && g[3] == '=' then Some([a * 4 + b / 16])
       else
         match Base64Value(g[2])
         case None => None
         case Some(c) =>
           (if g[3] == '=' then Some([a * 4 + b / 16, (b % 16) * 16 + c / 4])
            else
              match Base64Value(g[3])
              case None => None
              case Some(d) => Some([a * 4 + b / 16, (b % 16) * 16 + c / 4, (c % 4) * 64 + d])))
    case _ => None
  }

  /** Standard padded base64 (section 4 of RFC 4648) back to bytes. */
  function DecodeBase64(s: string): (r: Option<seq<Bytes.u8>>)
    decreases |s|
  {
    if s == [] then Some([])
    else if |s| < 4 then None
    else match (DecodeGroup(s[..4]), DecodeBase64(s[4..]))
      case (Some(g), Some(rest)) => Some(g + rest)
      case _ => None
  }

  lemma Group1Reads(b0: Bytes.u8)
    ensures DecodeGroup(Scalars.Quad1(b0)) == Some([b0])
  {
    Base64CharReads(b0 / 4);
    Base64CharReads((b0 % 4) * 16);
  }

  lemma Group2Reads(b0: Bytes.u8, b1: Bytes.u8)
    ensures DecodeGroup(Scalars.Quad2(b0, b1)) == Some([b0, b1])
  {
    var a, b, c := b0 / 4, (b0 % 4) * 16 + b1 / 16, (b1 % 16) * 4;
    Base64CharReads(a);
    Base64CharReads(b);
    Base64CharReads(c);
    assert Scalars.Base64Char(c) != '=';
    SextetsRecombine(b0, b1, 0);
  }

  lemma Group3Reads(b0: Bytes.u8, b1: Bytes.u8, b2: Bytes.u8)
    ensures DecodeGroup(Scalars.Quad3(b0, b1, b2)) == Some([b0, b1, b2])
  {
    var a, b, c, d := b0 / 4, (b0 % 4) * 16 + b1 / 16, (b1 % 16) * 4 + b2 / 64, b2 % 64;
    Base64CharReads(a);
    Base64CharReads(b);
    Base64CharReads(c);
    Base64CharReads(d);
    assert Scalars.Base64Char(c) != '=';
    assert Scalars.Base64Char(d) != '=';
    SextetsRecombine(b0, b1, b2);
  }

  /** Three bytes cut into four six-bit values and put back together. */
  lemma SextetsRecombine(b0: Bytes.u8, b1: Bytes.u8, b2: Bytes.u8)
    ensures (b0 / 4) * 4 + ((b0 % 4) * 16 + b1 / 16) / 16 == b0
    ensures (((b0 % 4) * 16 + b1 / 16) % 16) * 16 + ((b1 % 16) * 4 + b2 / 64) / 4 == b1
    ensures (((b1 % 16) * 4 + b2 / 64) % 4) * 64 + b2 % 64 == b2
  {
  }

  /** The base64 payload reads back as the bytes it was written from. */
  lemma {:induction false} Base64Reads(bytes: seq<Bytes.u8>)
    ensures DecodeBase64(Scalars.Base64Encode(bytes)) == Some(bytes)
    decreases |bytes|
  {
    if |bytes| == 1 {
      Group1Reads(bytes[0]);
      LastGroupReads(Scalars.Quad1(bytes[0]), [bytes[0]]);
      assert [bytes[0]] == bytes;
    } else if |bytes| == 2 {
      Group2Reads(bytes[0], bytes[1]);
      LastGroupReads(Scalars.Quad2(bytes[0], bytes[1]), [bytes[0], bytes[1]]);
      assert [bytes[0], bytes[1]] == bytes;
    } else if |bytes| > 2 {
      Base64Reads(bytes[3..]);
      Group3Reads(bytes[0], bytes[1], bytes[2]);
      DecodeStep(Scalars.Quad3(bytes[0], bytes[1], bytes[2]), Scalars.Base64Encode(bytes[3..]));
      FirstThree(bytes);
    }
  }

  /** A group that decodes, standing alone. */
  lemma LastGroupReads(g: string, out: seq<Bytes.u8>)
    requires |g| == 4 && DecodeGroup(g) == Some(out)
    ensures DecodeBase64(g) == Some(out)
  {
    assert g[..4] == g && g[4..] == [];
    assert out + [] == out;
  }

  /** A group that decodes, in front of a payload that decodes. */
  lemma DecodeStep(g: string, tail: string)
    requires |g| == 4 && DecodeGroup(g).Some? && DecodeBase64(tail).Some?
    ensures DecodeBase64(g + tail) == Some(DecodeGroup(g).value + DecodeBase64(tail).value)
  {
    assert (g + tail)[..4] == g && (g + tail)[4..] == tail;
  }

  lemma FirstThree(bytes: seq<Bytes.u8>)
    requires |bytes| > 2
    ensures [bytes[0], bytes[1], bytes[2]] + bytes[3..] == bytes
  {
  }
}
