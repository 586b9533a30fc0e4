/**
 * The block-syntax formatter (`jaml/src/formatter.rs`): one `- item` or
 * `key: value` line per member, two spaces of indent per nesting level, a
 * nested list or map starting on the line after its dash or key, and an empty
 * list or map written as nothing at all. Scalars share the escape and number
 * logic of the bracketed formatter; timestamps are the `time` crate's text
 * with its UTC suffix rewritten to the configured form.
 *
 * The functions below are the specification; the methods follow the source's
 * loops and are proved to produce exactly what the functions describe.
 */
module JamlFormatter {
  import Text
  import Bytes
  import Values
  import Scalars
  import Readers
  import opened Wrappers
  import JamlOptions

  type Options = JamlOptions.Options

  /** The indent of one nesting level. */
  const Unit := "  "

  // ---------------------------------------------------------------------------
  // Scalars
  // ---------------------------------------------------------------------------

  /** A string value or quoted key: `format_string` with the quote the style picks. */
  function StringText(s: string, o: Options): string {
    Scalars.Quoted(s, Scalars.ChooseQuote(o.quoteStyle, s), o.escapeUnicode)
  }

  /** A map key: bare when `unquoted_keys` is on and the key is a plain identifier, quoted otherwise. */
  function KeyText(key: string, o: Options): string {
    Scalars.KeyText(key, o.unquotedKeys, o.quoteStyle, o.escapeUnicode)
  }

  /** `format_binary`: `b64"…"` or `hex"…"`. */
  function BinaryText(b: Bytes.Binary, encoding: Scalars.BinaryEncoding): string {
    match encoding
    case Base64 => "b64\"" + Scalars.Base64Encode(b.bytes) + "\""
    case Hex => "hex\"" + Scalars.HexText(b.bytes) + "\""
  }

  // ---------------------------------------------------------------------------
  // Timestamps
  // ---------------------------------------------------------------------------

  /** The text the `time` crate writes for `t` at precision `p`. */
  function LibraryText(t: Values.OffsetDateTime, p: JamlOptions.TimestampPrecision): string {
    match p
    case Auto => t.rfc3339
    case Seconds => t.seconds
    case Milliseconds => t.millis
    case Microseconds => t.micros
    case Nanoseconds => t.nanos
  }

  /** `s` with its suffix `suffix` replaced by `replacement`: a `pop` or `truncate`, then a push. */
  function SwapSuffix(s: string, suffix: string, replacement: string): (r: string)
    requires Text.EndsWith(s, suffix)
    ensures Text.EndsWith(r, replacement)
    ensures r[..|r| - |replacement|] == s[..|s| - |suffix|]
  {
    s[..|s| - |suffix|] + replacement
  }

  /**
   * The timestamp text between the quotes: RFC 3339 with `Z` turned into
   * `+00:00` unless `use_zulu`; a fixed precision with `+00:00` turned into
   * `Z` when `use_zulu`.
   */
  function TimestampBody(t: Values.OffsetDateTime, o: Options): string {
    var s := LibraryText(t, o.timestampPrecision);
    if o.timestampPrecision == JamlOptions.Auto then
      if !o.useZulu && Text.EndsWith(s, "Z") then SwapSuffix(s, "Z", "+00:00") else s
    else
      if o.useZulu && Text.EndsWith(s, "+00:00") then SwapSuffix(s, "+00:00", "Z") else s
  }

  /** `format_timestamp`: the body wrapped in `ts"…"`. */
  function TimestampText(t: Values.OffsetDateTime, o: Options): string {
    "ts\"" + TimestampBody(t, o) + "\""
  }

  // ---------------------------------------------------------------------------
  // Specification
  // ---------------------------------------------------------------------------

  /** A list or map: written as a block of lines rather than inline. */
  predicate IsCollection(v: Values.Value) {
    v.List? || v.Map?
  }

  /** `format_impl(value, opts, depth, inline)`. */
  function Render(v: Values.Value, o: Options, depth: nat, inline: bool): string
    decreases v, 0
  {
    match v
    case Null => "null"
    case Bool(b) => if b then "true" else "false"
    case Int(i) => Scalars.FormatInt(i, o.leadingPlus)
    case Float(f) => Scalars.FormatFloat(f, o.leadingPlus)
    case String(s) => StringText(s, o)
    case Binary(b) => BinaryText(b, o.binaryEncoding)
    case Timestamp(t) => TimestampText(t, o)
    case List(items) => ListBlock(items, o, depth, inline)
    case Map(es) => MapBlock(es, o, depth, inline)
  }

  /** The indent in front of member `i`: none for the first member of an inline block. */
  function LineIndent(depth: nat, i: nat, inline: bool): string {
    if i > 0 || !inline then Text.Repeat(Unit, depth) else ""
  }

  /** What follows a dash or a key's colon: a nested block on the next lines, or a scalar and a newline. */
  function Child(v: Values.Value, o: Options, depth: nat, sep: string): string
    decreases v, 1
  {
    if IsCollection(v) then "\n" + Render(v, o, depth + 1, false)
    else sep + Render(v, o, depth + 1, true) + "\n"
  }

  /** The line (or lines) of item `i` of a list. */
  function ItemLine(v: Values.Value, o: Options, depth: nat, i: nat, inline: bool): string
    decreases v, 2
  {
    LineIndent(depth, i, inline) + "- " + Child(v, o, depth, "")
  }

  /** The lines of the first `n` items. */
  function ItemLines(items: seq<Values.Value>, o: Options, depth: nat, inline: bool, n: nat): string
    requires n <= |items|
    decreases items, n
  {
    if n == 0 then []
    else ItemLines(items, o, depth, inline, n - 1) + ItemLine(items[n - 1], o, depth, n - 1, inline)
  }

  /** `format_list`. */
  function ListBlock(items: seq<Values.Value>, o: Options, depth: nat, inline: bool): string
    decreases items, |items| + 1
  {
    if items == [] then "" else ItemLines(items, o, depth, inline, |items|)
  }

  /** The line (or lines) of entry `e`, the `i`th in walk order, of a map. */
  function EntryLine(e: Values.Entry, o: Options, depth: nat, i: nat, inline: bool): string
    decreases e
  {
    LineIndent(depth, i, inline) + KeyText(e.key, o) + ":" + Child(e.value, o, depth, " ")
  }

  /** The lines of the first `n` entries in walk order. */
  function EntryLines(es: seq<Values.Entry>, o: Options, depth: nat, inline: bool, n: nat): string
    requires n <= |es|
    decreases es, n
  {
    if n == 0 then []
    else
      Values.OrderedEntryIn(es, o.sortKeys, n - 1);
      EntryLines(es, o, depth, inline, n - 1) + EntryLine(Values.OrderedEntries(es, o.sortKeys)[n - 1], o, depth, n - 1, inline)
  }

  /** `format_map`. */
  function MapBlock(es: seq<Values.Entry>, o: Options, depth: nat, inline: bool): string
    decreases es, |es| + 1
  {
    if es == [] then "" else EntryLines(es, o, depth, inline, |es|)
  }

  /** `format`: default options, depth 0, not inline. */
  function Format(v: Values.Value): string {
    Render(v, JamlOptions.Default(), 0, false)
  }

  /** `format_with_opts`. */
  function FormatWithOpts(v: Values.Value, o: Options): string {
    Render(v, o, 0, false)
  }

  // ---------------------------------------------------------------------------
  // Methods
  // ---------------------------------------------------------------------------

  /** `format_impl`: the dispatch, with the loops below for lists and maps. */
  method FormatImpl(v: Values.Value, o: Options, depth: nat, inline: bool) returns (r: string)
    ensures r == Render(v, o, depth, inline)
    decreases v, 0
  {
    match v {
      case Null => r := "null";
      case Bool(b) => r := if b then "true" else "false";
      case Int(i) => r := Scalars.FormatInt(i, o.leadingPlus);
      case Float(f) => r := Scalars.FormatFloat(f, o.leadingPlus);
      case String(s) =>
        var quote := Scalars.ChooseQuote(o.quoteStyle, s);
        r := Scalars.FormatString(s, quote, o.escapeUnicode);
      case Binary(b) => r := BinaryText(b, o.binaryEncoding);
      case Timestamp(t) => r := FormatTimestamp(t, o);
      case List(items) => r := FormatList(items, o, depth, inline);
      case Map(es) => r := FormatMap(es, o, depth, inline);
    }
  }

  /** `format_timestamp`: the suffix rewrite pops or truncates the library's text, then pushes the new suffix. */
  method FormatTimestamp(t: Values.OffsetDateTime, o: Options) returns (r: string)
    ensures r == TimestampText(t, o)
  {
    var s := LibraryText(t, o.timestampPrecision);
    if o.timestampPrecision == JamlOptions.Auto {
      if !o.useZulu && Text.EndsWith(s, "Z") {
        s := s[..|s| - 1];
        s := s + "+00:00";
      }
    } else if o.useZulu && Text.EndsWith(s, "+00:00") {
      s := s[..|s| - 6];
      s := s + "Z";
    }
    r := "ts\"" + s + "\"";
  }

  /** `format_list`: pushes one item line per item. */
  method FormatList(items: seq<Values.Value>, o: Options, depth: nat, inline: bool) returns (r: string)
    ensures r == ListBlock(items, o, depth, inline)
    decreases items, |items| + 1
  {
    if |items| == 0 {
      return "";
    }
    var indent := Text.Repeat(Unit, depth);
    r := "";
    for i := 0 to |items|
      invariant r == ItemLines(items, o, depth, inline, i)
    {
      r := PushItem(r, items[i], o, depth, i, inline, indent);
    }
  }

  /** `format_map`: pushes one entry line per entry, in walk order. */
  method FormatMap(es: seq<Values.Entry>, o: Options, depth: nat, inline: bool) returns (r: string)
    ensures r == MapBlock(es, o, depth, inline)
    decreases es, |es| + 1
  {
    if |es| == 0 {
      return "";
    }
    var indent := Text.Repeat(Unit, depth);
    r := PushEntries(es, o, depth, inline, indent);
  }

  /** The loop of `format_map`: one entry line per entry, in walk order. */
  method PushEntries(es: seq<Values.Entry>, o: Options, depth: nat, inline: bool, indent: string) returns (r: string)
    requires indent == Text.Repeat(Unit, depth)
    ensures r == EntryLines(es, o, depth, inline, |es|)
    decreases es, |es|
  {
    r := "";
    for i := 0 to |es|
      invariant r == EntryLines(es, o, depth, inline, i)
    {
      r := PushEntry(r, es, o, depth, i, inline, indent);
    }
  }

  /** The map text grows by one entry line per walked entry. */
  lemma EntryLinesSucc(es: seq<Values.Entry>, o: Options, depth: nat, inline: bool, i: nat, before: string, after: string)
    requires i < |es|
    requires before == EntryLines(es, o, depth, inline, i)
    requires after == before + EntryLine(Values.OrderedEntries(es, o.sortKeys)[i], o, depth, i, inline)
    ensures after == EntryLines(es, o, depth, inline, i + 1)
  {
  }

  /** The body of `format_list`'s loop. */
  method PushItem(r0: string, v: Values.Value, o: Options, depth: nat, i: nat, inline: bool, indent: string)
    returns (r: string)
    requires indent == Text.Repeat(Unit, depth)
    ensures r == r0 + ItemLine(v, o, depth, i, inline)
    decreases v, 2
  {
    var lead := "";
    if i > 0 || !inline {
      lead := indent;
    }
    assert lead == LineIndent(depth, i, inline);
    var child := PushChild("", v, o, depth, "");
    assert child == Child(v, o, depth, "");
    r := r0 + (lead + "- " + child);
  }

  /** The body of `format_map`'s loop for the `i`th walked entry; the key is written bare or through `format_string`. */
  method PushEntry(r0: string, es: seq<Values.Entry>, o: Options, depth: nat, i: nat, inline: bool, indent: string)
    returns (r: string)
    requires indent == Text.Repeat(Unit, depth)
    requires i < |es| && r0 == EntryLines(es, o, depth, inline, i)
    ensures r == EntryLines(es, o, depth, inline, i + 1)
    decreases es, i
  {
    Values.OrderedEntryIn(es, o.sortKeys, i);
    var e := Values.OrderedEntries(es, o.sortKeys)[i];
    var lead := "";
    if i > 0 || !inline {
      lead := indent;
    }
    var key;
    if o.unquotedKeys && Scalars.CanBeUnquoted(e.key) {
      key := e.key;
    } else {
      var quote := Scalars.ChooseQuote(o.quoteStyle, e.key);
      key := Scalars.FormatString(e.key, quote, o.escapeUnicode);
    }
    assert lead == LineIndent(depth, i, inline);
    var child := PushChild("", e.value, o, depth, " ");
    assert child == Child(e.value, o, depth, " ");
    r := r0 + (lead + key + ":" + child);
    EntryLinesSucc(es, o, depth, inline, i, r0, r);
  }

  /** After the dash or colon: a newline and the nested block, or the scalar and a newline. */
  method PushChild(r0: string, v: Values.Value, o: Options, depth: nat, sep: string) returns (r: string)
    ensures r == r0 + Child(v, o, depth, sep)
    decreases v, 1
  {
    if v.List? || v.Map? {
      var block := FormatImpl(v, o, depth + 1, false);
      r := r0 + ("\n" + block);
    } else {
      var text := FormatImpl(v, o, depth + 1, true);
      r := r0 + (sep + text + "\n");
    }
  }

  // ---------------------------------------------------------------------------
  // Layout
  // ---------------------------------------------------------------------------

  /** Position `i` of `s` begins a line. */
  predicate LineStart(s: string, i: nat) {
    i == 0 || (i <= |s| && s[i - 1] == '\n')
  }

  /** A well-formed block: every line begins with `prefix`, and the text is empty or ends with a newline. */
  predicate Block(s: string, prefix: string) {
    (forall i | 0 <= i < |s| && LineStart(s, i) :: Text.StartsWith(s[i..], prefix))
    && (s == [] || s[|s| - 1] == '\n')
  }

  /** The library texts a value carries (float digits, timestamp renderings) are single lines. */
  predicate LibraryTextsOneLine(v: Values.Value)
    decreases v
  {
    match v
    case Float(f) => '\n' !in f.text
    case Timestamp(t) =>
      '\n' !in t.rfc3339 && '\n' !in t.seconds && '\n' !in t.millis && '\n' !in t.micros && '\n' !in t.nanos
    case List(items) => forall i | 0 <= i < |items| :: LibraryTextsOneLine(items[i])
    case Map(es) => forall i | 0 <= i < |es| :: LibraryTextsOneLine(es[i].value)
    case _ => true
  }

  /** One line: newline-free text that starts with the prefix, and the newline that ends it. */
  lemma OneLine(line: string, prefix: string)
    requires Text.StartsWith(line, prefix) && '\n' !in line
    ensures Block(line + "\n", prefix)
  {
    var s := line + "\n";
    assert s[..|prefix|] == line[..|prefix|];
    assert forall k | 0 <= k < |s| - 1 :: s[k] != '\n' by {
      assert forall k | 0 <= k < |s| - 1 :: s[k] == line[k];
    }
  }

  /** Two blocks with the same prefix make one. */
  lemma BlockAppend(a: string, b: string, prefix: string)
    requires Block(a, prefix) && Block(b, prefix)
    ensures Block(a + b, prefix)
  {
    var s := a + b;
    forall i | 0 <= i < |s| && LineStart(s, i)
      ensures Text.StartsWith(s[i..], prefix)
    {
      if i < |a| {
        assert LineStart(a, i) by {
          if i > 0 { assert s[i - 1] == a[i - 1]; }
        }
        assert s[i..] == a[i..] + b;
        Text.StartsWithAppend(a[i..], b, prefix);
      } else {
        var j := i - |a|;
        assert LineStart(b, j) by {
          if j > 0 { assert s[i - 1] == b[j - 1]; }
        }
        assert s[i..] == b[j..];
      }
    }
    if b != [] {
      assert s[|s| - 1] == b[|b| - 1];
    }
  }

  /** A block indented one level deeper is still indented at this level. */
  lemma BlockDeeper(s: string, depth: nat)
    requires Block(s, Text.Repeat(Unit, depth + 1))
    ensures Block(s, Text.Repeat(Unit, depth))
  {
    var p := Text.Repeat(Unit, depth);
    Text.RepeatSucc(Unit, depth);
    forall i | 0 <= i < |s| && LineStart(s, i)
      ensures Text.StartsWith(s[i..], p)
    {
      assert Text.StartsWith(s[i..], p + Unit);
      assert s[i..][..|p|] == (p + Unit)[..|p|];
    }
  }

  /** The indent holds only spaces. */
  lemma IndentNoNewline(depth: nat)
    ensures '\n' !in Text.Repeat(Unit, depth)
  {
    if '\n' in Text.Repeat(Unit, depth) {
      var k :| 0 <= k < |Text.Repeat(Unit, depth)| && Text.Repeat(Unit, depth)[k] == '\n';
      Text.RepeatChars(Unit, depth, k);
      assert false;
    }
  }

  /** A scalar is written on one line. */
  lemma ScalarOneLine(v: Values.Value, o: Options, depth: nat, inline: bool)
    requires !IsCollection(v) && LibraryTextsOneLine(v)
    ensures '\n' !in Render(v, o, depth, inline)
  {
    match v
    case Null =>
    case Bool(b) =>
    case Int(i) => Scalars.FormatIntOneLine(i, o.leadingPlus);
    case Float(f) => FloatOneLine(f, o.leadingPlus);
    case String(s) => Scalars.QuotedNoNewline(s, Scalars.ChooseQuote(o.quoteStyle, s), o.escapeUnicode);
    case Binary(b) => BinaryOneLine(b, o.binaryEncoding);
    case Timestamp(t) => TimestampOneLine(t, o);
  }

  lemma FloatOneLine(f: Values.F64, leadingPlus: bool)
    requires '\n' !in f.text
    ensures '\n' !in Scalars.FormatFloat(f, leadingPlus)
  {
  }

  lemma BinaryOneLine(b: Bytes.Binary, encoding: Scalars.BinaryEncoding)
    ensures '\n' !in BinaryText(b, encoding)
  {
    Scalars.Base64NoNewline(b.bytes);
  }

  lemma TimestampOneLine(t: Values.OffsetDateTime, o: Options)
    requires '\n' !in LibraryText(t, o.timestampPrecision)
    ensures '\n' !in TimestampText(t, o)
  {
    var s := LibraryText(t, o.timestampPrecision);
    if Text.EndsWith(s, "Z") {
      assert '\n' !in s[..|s| - 1];
    }
    if Text.EndsWith(s, "+00:00") {
      assert '\n' !in s[..|s| - 6];
    }
  }

  /**
   * Every line of a list or map written at `depth` starts with `depth` levels
   * of indent, and the block is empty or ends with a newline: nested blocks
   * sit exactly one level deeper than the dash or key that holds them.
   */
  lemma {:induction false} BlockLayout(v: Values.Value, o: Options, depth: nat)
    requires IsCollection(v) && LibraryTextsOneLine(v)
    ensures Block(Render(v, o, depth, false), Text.Repeat(Unit, depth))
    decreases v, 0
  {
    match v
    case List(items) =>
      if items != [] {
        ItemLinesLayout(items, o, depth, |items|);
      }
    case Map(es) =>
      if es != [] {
        EntryLinesLayout(es, o, depth, |es|);
      }
  }

  lemma {:induction false} ItemLinesLayout(items: seq<Values.Value>, o: Options, depth: nat, n: nat)
    requires n <= |items| && forall i | 0 <= i < |items| :: LibraryTextsOneLine(items[i])
    ensures Block(ItemLines(items, o, depth, false, n), Text.Repeat(Unit, depth))
    decreases items, n
  {
    if n > 0 {
      var p := Text.Repeat(Unit, depth);
      ItemLinesLayout(items, o, depth, n - 1);
      IndentNoNewline(depth);
      Text.StartsWithAppend(p, "- ", p);
      ChildLayout(items[n - 1], o, depth, LineIndent(depth, n - 1, false) + "- ", "");
      BlockAppend(ItemLines(items, o, depth, false, n - 1), ItemLine(items[n - 1], o, depth, n - 1, false), p);
    }
  }

  lemma {:induction false} EntryLinesLayout(es: seq<Values.Entry>, o: Options, depth: nat, n: nat)
    requires n <= |es| && forall i | 0 <= i < |es| :: LibraryTextsOneLine(es[i].value)
    ensures Block(EntryLines(es, o, depth, false, n), Text.Repeat(Unit, depth))
    decreases es, n
  {
    if n > 0 {
      EntryLinesLayout(es, o, depth, n - 1);
      EntryLinesLayoutStep(es, o, depth, n);
    }
  }

  /** One step of the above: a block followed by one more entry's block. */
  lemma EntryLinesLayoutStep(es: seq<Values.Entry>, o: Options, depth: nat, n: nat)
    requires 1 <= n <= |es| && forall i | 0 <= i < |es| :: LibraryTextsOneLine(es[i].value)
    requires Block(EntryLines(es, o, depth, false, n - 1), Text.Repeat(Unit, depth))
    ensures Block(EntryLines(es, o, depth, false, n), Text.Repeat(Unit, depth))
    decreases es, n - 1
  {
    Values.OrderedEntryIn(es, o.sortKeys, n - 1);
    var e := Values.OrderedEntries(es, o.sortKeys)[n - 1];
    var j :| 0 <= j < |es| && es[j] == e;
    EntryLineLayout(e, o, depth, n - 1);
    EntryLinesLast(es, o, depth, false, n);
    BlockAppend(EntryLines(es, o, depth, false, n - 1), EntryLine(e, o, depth, n - 1, false), Text.Repeat(Unit, depth));
  }

  lemma {:induction false} EntryLineLayout(e: Values.Entry, o: Options, depth: nat, i: nat)
    requires LibraryTextsOneLine(e.value)
    ensures Block(EntryLine(e, o, depth, i, false), Text.Repeat(Unit, depth))
    decreases e
  {
    var p := Text.Repeat(Unit, depth);
    IndentNoNewline(depth);
    Scalars.KeyOneLine(e.key, o.unquotedKeys, o.quoteStyle, o.escapeUnicode);
    Text.StartsWithAppend(p, KeyText(e.key, o), p);
    Text.StartsWithAppend(p + KeyText(e.key, o), ":", p);
    ChildLayout(e.value, o, depth, LineIndent(depth, i, false) + KeyText(e.key, o) + ":", " ");
  }

  /** The line that holds a dash or key (`head`), followed by what the member puts after it. */
  lemma {:induction false} ChildLayout(v: Values.Value, o: Options, depth: nat, head: string, sep: string)
    requires Text.StartsWith(head, Text.Repeat(Unit, depth)) && '\n' !in head && '\n' !in sep
    requires LibraryTextsOneLine(v)
    ensures Block(head + Child(v, o, depth, sep), Text.Repeat(Unit, depth))
    decreases v, 1
  {
    var p := Text.Repeat(Unit, depth);
    if IsCollection(v) {
      var r := Render(v, o, depth + 1, false);
      OneLine(head, p);
      BlockLayout(v, o, depth + 1);
      BlockDeeper(r, depth);
      BlockAppend(head + "\n", r, p);
      Text.AppendAssoc(head, "\n", r);
    } else {
      var t := Render(v, o, depth + 1, true);
      ScalarOneLine(v, o, depth + 1, true);
      Text.StartsWithAppend(head, sep + t, p);
      OneLine(head + (sep + t), p);
      Text.AppendAssoc(head, sep + t, "\n");
      Text.AppendAssoc(head, sep, t);
    }
  }

  // ---------------------------------------------------------------------------
  // Inline blocks, empty blocks and option independence
  // ---------------------------------------------------------------------------

  /**
   * `inline` only drops the indent of a block's first line: a scalar ignores
   * it, a list or map is written as nothing exactly when it is empty, and a
   * nonempty one written inline is the same block without its leading indent.
   */
  lemma InlineDropsFirstIndent(v: Values.Value, o: Options, depth: nat)
    ensures !IsCollection(v) ==> Render(v, o, depth, true) == Render(v, o, depth, false)
    ensures IsCollection(v) ==>
              (Render(v, o, depth, false) == [] <==> (v.List? && v.items == []) || (v.Map? && v.entries == []))
    ensures IsCollection(v) && Render(v, o, depth, false) != [] ==>
              Render(v, o, depth, false) == Text.Repeat(Unit, depth) + Render(v, o, depth, true)
  {
    match v
    case List(items) =>
      if items != [] {
        ItemLinesInline(items, o, depth, |items|);
      }
    case Map(es) =>
      if es != [] {
        EntryLinesInline(es, o, depth, |es|);
        EntryLinesNonEmpty(es, o, depth, false, |es|);
      }
    case _ =>
  }

  lemma {:induction false} ItemLinesInline(items: seq<Values.Value>, o: Options, depth: nat, n: nat)
    requires 1 <= n <= |items|
    ensures ItemLines(items, o, depth, false, n) != []
    ensures ItemLines(items, o, depth, false, n) == Text.Repeat(Unit, depth) + ItemLines(items, o, depth, true, n)
    decreases n
  {
    var p := Text.Repeat(Unit, depth);
    var c := Child(items[n - 1], o, depth, "");
    if n == 1 {
      assert ItemLines(items, o, depth, true, 1) == "- " + c;
      assert ItemLines(items, o, depth, false, 1) == p + "- " + c;
      Text.AppendAssoc(p, "- ", c);
    } else {
      ItemLinesInline(items, o, depth, n - 1);
      assert ItemLine(items[n - 1], o, depth, n - 1, false) == ItemLine(items[n - 1], o, depth, n - 1, true);
      Text.AppendAssoc(p, ItemLines(items, o, depth, true, n - 1), ItemLine(items[n - 1], o, depth, n - 1, true));
    }
  }

  lemma {:induction false} EntryLinesInline(es: seq<Values.Entry>, o: Options, depth: nat, n: nat)
    requires 1 <= n <= |es|
    ensures EntryLines(es, o, depth, false, n) == Text.Repeat(Unit, depth) + EntryLines(es, o, depth, true, n)
    decreases n
  {
    if n > 1 {
      EntryLinesInline(es, o, depth, n - 1);
    }
    EntryLinesInlineStep(es, o, depth, n);
  }

  /** One step of the above: the first line drops its indent, the later ones keep theirs. */
  lemma EntryLinesInlineStep(es: seq<Values.Entry>, o: Options, depth: nat, n: nat)
    requires 1 <= n <= |es|
    requires n > 1 ==> EntryLines(es, o, depth, false, n - 1) == Text.Repeat(Unit, depth) + EntryLines(es, o, depth, true, n - 1)
    ensures EntryLines(es, o, depth, false, n) == Text.Repeat(Unit, depth) + EntryLines(es, o, depth, true, n)
  {
    if n == 1 {
      EntryLinesInlineFirst(es, o, depth, n);
    } else {
      EntryLinesInlineLater(es, o, depth, n);
    }
  }

  lemma EntryLinesInlineFirst(es: seq<Values.Entry>, o: Options, depth: nat, n: nat)
    requires n == 1 <= |es|
    ensures EntryLines(es, o, depth, false, n) == Text.Repeat(Unit, depth) + EntryLines(es, o, depth, true, n)
  {
    Values.OrderedEntryIn(es, o.sortKeys, 0);
    var e := Values.OrderedEntries(es, o.sortKeys)[0];
    EntryLinesSucc(es, o, depth, true, 0, [], [] + EntryLine(e, o, depth, 0, true));
    EntryLinesSucc(es, o, depth, false, 0, [], [] + EntryLine(e, o, depth, 0, false));
    FirstEntryLineInline(e, o, depth);
    assert [] + EntryLine(e, o, depth, 0, true) == EntryLine(e, o, depth, 0, true);
    assert [] + EntryLine(e, o, depth, 0, false) == EntryLine(e, o, depth, 0, false);
  }

  lemma EntryLinesInlineLater(es: seq<Values.Entry>, o: Options, depth: nat, n: nat)
    requires 1 < n <= |es|
    requires EntryLines(es, o, depth, false, n - 1) == Text.Repeat(Unit, depth) + EntryLines(es, o, depth, true, n - 1)
    ensures EntryLines(es, o, depth, false, n) == Text.Repeat(Unit, depth) + EntryLines(es, o, depth, true, n)
  {
    var p := Text.Repeat(Unit, depth);
    Values.OrderedEntryIn(es, o.sortKeys, n - 1);
    var e := Values.OrderedEntries(es, o.sortKeys)[n - 1];
    var line := EntryLine(e, o, depth, n - 1, true);
    assert EntryLine(e, o, depth, n - 1, false) == line;
    var before := EntryLines(es, o, depth, true, n - 1);
    EntryLinesSucc(es, o, depth, true, n - 1, before, before + line);
    EntryLinesSucc(es, o, depth, false, n - 1, p + before, (p + before) + line);
    Text.AppendAssoc(p, before, line);
  }

  /** A map with an entry has at least its key and colon. */
  lemma EntryLinesNonEmpty(es: seq<Values.Entry>, o: Options, depth: nat, inline: bool, n: nat)
    requires 1 <= n <= |es|
    ensures EntryLines(es, o, depth, inline, n) != []
  {
    Values.OrderedEntryIn(es, o.sortKeys, n - 1);
    EntryLinesLast(es, o, depth, inline, n);
    EntryLineNonEmpty(Values.OrderedEntries(es, o.sortKeys)[n - 1], o, depth, n - 1, inline);
  }

  /** The first `n` entry lines end with the line of the `n`th walked entry. */
  lemma EntryLinesLast(es: seq<Values.Entry>, o: Options, depth: nat, inline: bool, n: nat)
    requires 1 <= n <= |es|
    ensures EntryLines(es, o, depth, inline, n)
            == EntryLines(es, o, depth, inline, n - 1) + EntryLine(Values.OrderedEntries(es, o.sortKeys)[n - 1], o, depth, n - 1, inline)
  {
  }

  lemma EntryLineNonEmpty(e: Values.Entry, o: Options, depth: nat, i: nat, inline: bool)
    ensures |EntryLine(e, o, depth, i, inline)| > 0
  {
  }

  lemma FirstEntryLineInline(e: Values.Entry, o: Options, depth: nat)
    ensures EntryLine(e, o, depth, 0, false) == Text.Repeat(Unit, depth) + EntryLine(e, o, depth, 0, true)
  {
    var p := Text.Repeat(Unit, depth);
    var k := KeyText(e.key, o);
    var c := Child(e.value, o, depth, " ");
    calc {
      EntryLine(e, o, depth, 0, false);
      (p + k) + ":" + c;
      { Text.AppendAssoc(p, k, ":"); }
      (p + (k + ":")) + c;
      { Text.AppendAssoc(p, k + ":", c); }
      p + ((k + ":") + c);
      { assert "" + k == k; }
      p + (("" + k + ":") + c);
      p + EntryLine(e, o, depth, 0, true);
    }
  }

  /**
   * On a well-formed value (every map a `BTreeMap`, already in key order)
   * `sort_keys` changes nothing in the output.
   */
  lemma {:induction false} RenderIgnoresSortKeys(v: Values.Value, o1: Options, o2: Options, depth: nat, inline: bool)
    requires Values.InWalkOrder(v)
    requires o1.(sortKeys := o2.sortKeys) == o2
    ensures Render(v, o1, depth, inline) == Render(v, o2, depth, inline)
    decreases v, 0
  {
    match v
    case List(items) => ListIgnoresSortKeys(items, o1, o2, depth, inline);
    case Map(es) => MapIgnoresSortKeys(es, o1, o2, depth, inline);
    case _ => ScalarIgnoresSortKeys(v, o1, o2, depth, inline);
  }

  lemma ScalarIgnoresSortKeys(v: Values.Value, o1: Options, o2: Options, depth: nat, inline: bool)
    requires !IsCollection(v)
    requires o1.(sortKeys := o2.sortKeys) == o2
    ensures Render(v, o1, depth, inline) == Render(v, o2, depth, inline)
  {
    assert o1.leadingPlus == o2.leadingPlus && o1.quoteStyle == o2.quoteStyle && o1.escapeUnicode == o2.escapeUnicode;
    assert o1.binaryEncoding == o2.binaryEncoding && o1.useZulu == o2.useZulu;
    assert o1.timestampPrecision == o2.timestampPrecision;
  }

  lemma ListIgnoresSortKeys(items: seq<Values.Value>, o1: Options, o2: Options, depth: nat, inline: bool)
    requires forall j | 0 <= j < |items| :: Values.InWalkOrder(items[j])
    requires o1.(sortKeys := o2.sortKeys) == o2
    ensures ListBlock(items, o1, depth, inline) == ListBlock(items, o2, depth, inline)
    decreases items, |items| + 1
  {
    ItemLinesIgnoreSortKeys(items, o1, o2, depth, inline, |items|);
  }

  lemma MapIgnoresSortKeys(es: seq<Values.Entry>, o1: Options, o2: Options, depth: nat, inline: bool)
    requires forall j | 0 <= j < |es| :: Values.InWalkOrder(es[j].value)
    requires Values.SortByKey(es) == es
    requires o1.(sortKeys := o2.sortKeys) == o2
    ensures MapBlock(es, o1, depth, inline) == MapBlock(es, o2, depth, inline)
    decreases es, |es| + 1
  {
    EntryLinesIgnoreSortKeys(es, o1, o2, depth, inline, |es|);
  }

  /** For a well-formed value, flipping `sort_keys` changes nothing in the output. */
  lemma SortKeysInvisible(v: Values.Value, o: Options)
    requires Values.WellFormed(v)
    ensures FormatWithOpts(v, o) == FormatWithOpts(v, o.(sortKeys := !o.sortKeys))
  {
    Values.WellFormedInWalkOrder(v);
    RenderIgnoresSortKeys(v, o, o.(sortKeys := !o.sortKeys), 0, false);
  }

  lemma {:induction false} ChildIgnoresSortKeys(v: Values.Value, o1: Options, o2: Options, depth: nat, sep: string)
    requires Values.InWalkOrder(v)
    requires o1.(sortKeys := o2.sortKeys) == o2
    ensures Child(v, o1, depth, sep) == Child(v, o2, depth, sep)
    decreases v, 1
  {
    RenderIgnoresSortKeys(v, o1, o2, depth + 1, !IsCollection(v));
  }

  lemma {:induction false} ItemLinesIgnoreSortKeys(items: seq<Values.Value>, o1: Options, o2: Options, depth: nat, inline: bool, n: nat)
    requires forall j | 0 <= j < |items| :: Values.InWalkOrder(items[j])
    requires o1.(sortKeys := o2.sortKeys) == o2
    requires n <= |items|
    ensures ItemLines(items, o1, depth, inline, n) == ItemLines(items, o2, depth, inline, n)
    decreases items, n
  {
    if n > 0 {
      ItemLinesIgnoreSortKeys(items, o1, o2, depth, inline, n - 1);
      ChildIgnoresSortKeys(items[n - 1], o1, o2, depth, "");
    }
  }

  lemma {:induction false} EntryLinesIgnoreSortKeys(es: seq<Values.Entry>, o1: Options, o2: Options, depth: nat, inline: bool, n: nat)
    requires forall j | 0 <= j < |es| :: Values.InWalkOrder(es[j].value)
    requires Values.SortByKey(es) == es
    requires o1.(sortKeys := o2.sortKeys) == o2
    requires n <= |es|
    ensures EntryLines(es, o1, depth, inline, n) == EntryLines(es, o2, depth, inline, n)
    decreases es, n
  {
    if n > 0 {
      EntryLinesIgnoreSortKeys(es, o1, o2, depth, inline, n - 1);
      EntryLinesStepIgnoresSortKeys(es, o1, o2, depth, inline, n);
    }
  }

  /** One step of the above: equal first `n - 1` lines extend to equal first `n` lines. */
  lemma EntryLinesStepIgnoresSortKeys(es: seq<Values.Entry>, o1: Options, o2: Options, depth: nat, inline: bool, n: nat)
    requires forall j | 0 <= j < |es| :: Values.InWalkOrder(es[j].value)
    requires Values.SortByKey(es) == es
    requires o1.(sortKeys := o2.sortKeys) == o2
    requires 0 < n <= |es|
    requires EntryLines(es, o1, depth, inline, n - 1) == EntryLines(es, o2, depth, inline, n - 1)
    ensures EntryLines(es, o1, depth, inline, n) == EntryLines(es, o2, depth, inline, n)
    decreases es, n - 1
  {
    var i := n - 1;
    var before := EntryLines(es, o1, depth, inline, i);
    var e := es[i];
    assert Values.OrderedEntries(es, o1.sortKeys) == es;
    assert Values.OrderedEntries(es, o2.sortKeys) == es;
    EntryLineIgnoresSortKeys(e, o1, o2, depth, i, inline);
    var line := EntryLine(e, o2, depth, i, inline);
    EntryLinesSucc(es, o1, depth, inline, i, before, before + line);
    EntryLinesSucc(es, o2, depth, inline, i, before, before + line);
  }

  lemma EntryLineIgnoresSortKeys(e: Values.Entry, o1: Options, o2: Options, depth: nat, i: nat, inline: bool)
    requires Values.InWalkOrder(e.value)
    requires o1.(sortKeys := o2.sortKeys) == o2
    ensures EntryLine(e, o1, depth, i, inline) == EntryLine(e, o2, depth, i, inline)
    decreases e
  {
    ChildIgnoresSortKeys(e.value, o1, o2, depth, " ");
    assert KeyText(e.key, o1) == KeyText(e.key, o2);
  }

  // ---------------------------------------------------------------------------
  // Scalars read back
  // ---------------------------------------------------------------------------

  /** Replacing a suffix and then replacing it back restores the text. */
  lemma SwapSuffixUndo(s: string, suffix: string, replacement: string)
    requires Text.EndsWith(s, suffix)
    ensures SwapSuffix(SwapSuffix(s, suffix, replacement), replacement, suffix) == s
  {
    assert s == s[..|s| - |suffix|] + s[|s| - |suffix|..];
  }

  /**
   * The UTC suffix follows `use_zulu`: with `Auto` and `use_zulu` off no `Z`
   * survives, with a fixed precision and `use_zulu` on no `+00:00` survives,
   * in the other two combinations the library's text is kept, and a rewrite
   * touches nothing but the suffix.
   */
  lemma TimestampSuffix(t: Values.OffsetDateTime, o: Options)
    ensures o.timestampPrecision == JamlOptions.Auto && !o.useZulu ==> !Text.EndsWith(TimestampBody(t, o), "Z")
    ensures o.timestampPrecision != JamlOptions.Auto && o.useZulu ==> !Text.EndsWith(TimestampBody(t, o), "+00:00")
    ensures (o.timestampPrecision == JamlOptions.Auto) == o.useZulu ==>
              TimestampBody(t, o) == LibraryText(t, o.timestampPrecision)
    ensures var s := LibraryText(t, o.timestampPrecision); var b := TimestampBody(t, o);
            b == s
            || (Text.EndsWith(s, "Z") && Text.EndsWith(b, "+00:00") && SwapSuffix(b, "+00:00", "Z") == s)
            || (Text.EndsWith(s, "+00:00") && Text.EndsWith(b, "Z") && SwapSuffix(b, "Z", "+00:00") == s)
  {
    var s := LibraryText(t, o.timestampPrecision);
    var b := TimestampBody(t, o);
    if b != [] {
      assert b[|b| - 1..] == [b[|b| - 1]];
    }
    if Text.EndsWith(s, "Z") {
      SwapSuffixUndo(s, "Z", "+00:00");
    }
    if Text.EndsWith(s, "+00:00") {
      SwapSuffixUndo(s, "+00:00", "Z");
    }
  }

  /**
   * A key reads back: it is written bare only when it is a plain identifier,
   * which a reader tells from a quoted key by its first character, and
   * otherwise quoted in a form that reads back to exactly the key.
   */
  lemma KeyReadsBack(key: string, o: Options)
    ensures KeyText(key, o) != []
    ensures Scalars.IsIdentStart(KeyText(key, o)[0]) <==> o.unquotedKeys && Scalars.CanBeUnquoted(key)
    ensures Scalars.IsIdentStart(KeyText(key, o)[0]) ==> KeyText(key, o) == key
    ensures !Scalars.IsIdentStart(KeyText(key, o)[0]) ==> Readers.ReadQuoted(KeyText(key, o)) == Some((key, []))
  {
    if !(o.unquotedKeys && Scalars.CanBeUnquoted(key)) {
      var q := Scalars.ChooseQuote(o.quoteStyle, key);
      assert KeyText(key, o)[0] == q;
      Readers.QuotedConsumesAll(key, q, o.escapeUnicode);
    }
  }

  /**
   * A binary value is `hex"…"` or `b64"…"` around a payload that decodes back
   * to exactly its bytes.
   */
  lemma BinaryReadsBack(b: Bytes.Binary, encoding: Scalars.BinaryEncoding)
    ensures var r := BinaryText(b, encoding); |r| >= 5 && r[3] == '"' && r[|r| - 1] == '"'
    ensures var r := BinaryText(b, encoding);
            encoding == Scalars.Hex ==> r[..3] == "hex" && Readers.DecodeHex(r[4..|r| - 1]) == Some(b.bytes)
    ensures var r := BinaryText(b, encoding);
            encoding == Scalars.Base64 ==> r[..3] == "b64" && Readers.DecodeBase64(r[4..|r| - 1]) == Some(b.bytes)
  {
    var r := BinaryText(b, encoding);
    match encoding
    case Hex =>
      assert r[4..|r| - 1] == Scalars.HexText(b.bytes);
      Readers.HexTextReads(b.bytes);
    case Base64 =>
      assert r[4..|r| - 1] == Scalars.Base64Encode(b.bytes);
      Readers.Base64Reads(b.bytes);
  }

  // ---------------------------------------------------------------------------
  // Examples
  // ---------------------------------------------------------------------------

  /** A list of integers is one dash line per item. */
  lemma ListExample()
    ensures Format(Values.List([Values.Int(1), Values.Int(2), Values.Int(3)])) == "- 1\n- 2\n- 3\n"
  {
    var o := JamlOptions.Default();
    var items := [Values.Int(1), Values.Int(2), Values.Int(3)];
    assert Text.Repeat(Unit, 0) == "";
    assert ItemLine(items[0], o, 0, 0, false) == "- 1\n";
    assert ItemLine(items[1], o, 0, 1, false) == "- 2\n";
    assert ItemLine(items[2], o, 0, 2, false) == "- 3\n";
    assert ItemLines(items, o, 0, false, 3) == "- 1\n" + "- 2\n" + "- 3\n";
  }

  /** A plain lower-case word that is not reserved is written bare. */
  lemma BareWord(k: string)
    requires 3 <= |k| && k !in Scalars.ReservedWords
    requires forall j | 0 <= j < |k| :: 'a' <= k[j] <= 'z'
    ensures Scalars.CanBeUnquoted(k)
  {
  }

  /** A two-entry map already in key order is its two entry lines. */
  lemma TwoEntries(es: seq<Values.Entry>, o: Options, depth: nat)
    requires |es| == 2 && Values.OrderedEntries(es, o.sortKeys) == es
    ensures MapBlock(es, o, depth, false) == EntryLine(es[0], o, depth, 0, false) + EntryLine(es[1], o, depth, 1, false)
  {
    var first := EntryLine(es[0], o, depth, 0, false);
    var second := EntryLine(es[1], o, depth, 1, false);
    assert first == [] + first;
    EntryLinesSucc(es, o, depth, false, 0, [], first);
    EntryLinesSucc(es, o, depth, false, 1, first, first + second);
  }

  /** An entry holding a scalar under a bare key is one `key: value` line. */
  lemma ScalarEntry(e: Values.Entry, o: Options, depth: nat, i: nat)
    requires !IsCollection(e.value) && o.unquotedKeys && Scalars.CanBeUnquoted(e.key)
    ensures EntryLine(e, o, depth, i, false) == Text.Repeat(Unit, depth) + e.key + ":" + (" " + Render(e.value, o, depth + 1, true) + "\n")
  {
  }

  /** An entry holding a list or map under a bare key is the key line, then the nested block. */
  lemma CollectionEntry(e: Values.Entry, o: Options, depth: nat, i: nat)
    requires IsCollection(e.value) && o.unquotedKeys && Scalars.CanBeUnquoted(e.key)
    ensures EntryLine(e, o, depth, i, false) == (Text.Repeat(Unit, depth) + e.key + ":\n") + Render(e.value, o, depth + 1, false)
  {
    Text.AppendAssoc(Text.Repeat(Unit, depth) + e.key + ":", "\n", Render(e.value, o, depth + 1, false));
  }

  /** A one-entry map is its entry line. */
  lemma OneEntry(es: seq<Values.Entry>, o: Options, depth: nat)
    requires |es| == 1
    ensures MapBlock(es, o, depth, false) == EntryLine(es[0], o, depth, 0, false)
  {
    assert Values.OrderedEntries(es, o.sortKeys) == es;
    assert EntryLines(es, o, depth, false, 1) == [] + EntryLine(es[0], o, depth, 0, false);
  }

  /** The literal texts of the map examples. */
  lemma MapExampleTexts()
    ensures Scalars.FormatInt(30, false) == "30" && Scalars.FormatInt(5, false) == "5"
    ensures Scalars.Quoted("Alice", '"', false) == "\"Alice\""
    ensures Text.Repeat(Unit, 0) == "" && Text.Repeat(Unit, 1) == "  "
  {
    assert Scalars.NatText(30) == Scalars.NatText(3) + [Scalars.DecimalDigit(0)];
    Scalars.EscapeBodyVerbatim("Alice", '"', false);
  }

  /** The map examples are sorted `BTreeMap`s. */
  lemma ExampleMapsSorted()
    ensures Values.SortedKeys([Values.Entry("age", Values.Int(30)), Values.Entry("name", Values.String("Alice"))])
    ensures Values.SortedKeys([Values.Entry("count", Values.Int(5)), Values.Entry("enabled", Values.Bool(true))])
  {
    assert Values.KeyLess("age", "name");
    assert Values.KeyLess("count", "enabled");
  }

  /** The keys of the map examples are written bare. */
  lemma PersonKeysBare()
    ensures Scalars.CanBeUnquoted("age") && Scalars.CanBeUnquoted("name")
  {
    BareWord("age");
    BareWord("name");
  }

  lemma ConfigKeysBare()
    ensures Scalars.CanBeUnquoted("count") && Scalars.CanBeUnquoted("enabled")
  {
    BareWord("count");
    BareWord("enabled");
  }

  lemma MapExampleAssembly(x: string, y: string)
    requires x == "" + "age" + ":" + (" " + "30" + "\n")
    requires y == "" + "name" + ":" + (" " + "\"Alice\"" + "\n")
    ensures x + y == "age: 30\nname: \"Alice\"\n"
  {
  }

  lemma ConfigAssembly(x: string, y: string)
    requires x == "  " + "count" + ":" + (" " + "5" + "\n")
    requires y == "  " + "enabled" + ":" + (" " + "true" + "\n")
    ensures x + y == "  count: 5\n  enabled: true\n"
  {
  }

  lemma NestedAssembly(x: string, head: string, block: string)
    requires head == Text.Repeat(Unit, 0) + "config" + ":\n"
    requires block == "  count: 5\n  enabled: true\n"
    requires x == head + block
    ensures x == "config:\n  count: 5\n  enabled: true\n"
  {
    assert Text.Repeat(Unit, 0) == "";
    assert head == "config:\n";
  }

  /** `format` of a map is its block at depth 0 under the default options. */
  lemma FormatMapBlock(es: seq<Values.Entry>)
    ensures Format(Values.Map(es)) == MapBlock(es, JamlOptions.Default(), 0, false)
  {
  }

  /** A map renders as its block. */
  lemma RenderMapBlock(es: seq<Values.Entry>, o: Options, depth: nat, inline: bool)
    ensures Render(Values.Map(es), o, depth, inline) == MapBlock(es, o, depth, inline)
  {
  }

  /** A map of a number and a string: bare keys in key order, the string quoted. */
  lemma MapExample(es: seq<Values.Entry>)
    requires es == [Values.Entry("age", Values.Int(30)), Values.Entry("name", Values.String("Alice"))]
    ensures Format(Values.Map(es)) == "age: 30\nname: \"Alice\"\n"
  {
    var o := JamlOptions.Default();
    ExampleMapsSorted();
    Values.OrderedEntriesOfBTreeMap(es, true);
    TwoEntries(es, o, 0);
    PersonKeysBare();
    ScalarEntry(es[0], o, 0, 0);
    ScalarEntry(es[1], o, 0, 1);
    MapExampleTexts();
    assert Render(es[1].value, o, 1, true) == Scalars.Quoted("Alice", '"', false);
    MapExampleAssembly(EntryLine(es[0], o, 0, 0, false), EntryLine(es[1], o, 0, 1, false));
    FormatMapBlock(es);
  }

  /** The inner map of the nested example, one level deep. */
  lemma ConfigBlock(o: Options, es: seq<Values.Entry>)
    requires o == JamlOptions.Default()
    requires es == [Values.Entry("count", Values.Int(5)), Values.Entry("enabled", Values.Bool(true))]
    ensures MapBlock(es, o, 1, false) == "  count: 5\n  enabled: true\n"
  {
    ExampleMapsSorted();
    Values.OrderedEntriesOfBTreeMap(es, true);
    TwoEntries(es, o, 1);
    ConfigKeysBare();
    ScalarEntry(es[0], o, 1, 0);
    ScalarEntry(es[1], o, 1, 1);
    MapExampleTexts();
    ConfigAssembly(EntryLine(es[0], o, 1, 0, false), EntryLine(es[1], o, 1, 1, false));
  }

  /** The entry line of a key whose value is a map: the key, then the map one level deeper. */
  lemma NestedLine(e: Values.Entry, o: Options)
    requires o.unquotedKeys && e.key == "config" && IsCollection(e.value)
    requires Render(e.value, o, 1, false) == "  count: 5\n  enabled: true\n"
    ensures EntryLine(e, o, 0, 0, false) == "config:\n  count: 5\n  enabled: true\n"
  {
    BareWord("config");
    CollectionEntry(e, o, 0, 0);
    NestedAssembly(EntryLine(e, o, 0, 0, false), Text.Repeat(Unit, 0) + e.key + ":\n", Render(e.value, o, 1, false));
  }

  /** A nested map starts on the line after its key, one level deeper. */
  lemma NestedExample(es: seq<Values.Entry>, inner: seq<Values.Entry>)
    requires inner == [Values.Entry("count", Values.Int(5)), Values.Entry("enabled", Values.Bool(true))]
    requires es == [Values.Entry("config", Values.Map(inner))]
    ensures Format(Values.Map(es)) == "config:\n  count: 5\n  enabled: true\n"
  {
    var o := JamlOptions.Default();
    OneEntry(es, o, 0);
    ConfigBlock(o, inner);
    RenderMapBlock(inner, o, 1, false);
    NestedLine(es[0], o);
    FormatMapBlock(es);
  }
}
