/**
 * The bracketed-syntax formatter (`src/formatter.rs`): `format_with_opts`
 * dispatches on the value; lists and maps are written compactly (items joined
 * by `,`) when the indent string is empty and one item per line otherwise.
 *
 * The functions below are the specification; the methods follow the source's
 * loops and are proved to produce exactly what the functions describe.
 */
module JasnFormatter {
  import Text
  import Bytes
  import Values
  import Scalars
  import JasnOptions

  type Options = JasnOptions.Options

  /**
   * A value this formatter can write: its `Value` has no timestamp variant,
   * so a timestamp anywhere inside is outside its domain.
   */
  predicate Bracketable(v: Values.Value)
    decreases v
  {
    !v.Timestamp?
    && (v.List? ==> forall i | 0 <= i < |v.items| :: Bracketable(v.items[i]))
    && (v.Map? ==> forall i | 0 <= i < |v.entries| :: Bracketable(v.entries[i].value))
  }

  /** The entries in the order the formatter walks them stay within the formatter's domain. */
  lemma OrderedBracketable(es: seq<Values.Entry>, sortKeys: bool, i: nat)
    requires forall j | 0 <= j < |es| :: Bracketable(es[j].value)
    requires i < |es|
    ensures Values.OrderedEntries(es, sortKeys)[i] in es
    ensures Bracketable(Values.OrderedEntries(es, sortKeys)[i].value)
  {
    Values.OrderedEntryIn(es, sortKeys, i);
  }

  // ---------------------------------------------------------------------------
  // Scalars
  // ---------------------------------------------------------------------------

  /** A string value or quoted key: `format_string` with the quote the style picks. */
  function StringText(s: string, o: Options): string {
    Scalars.Quoted(s, Scalars.ChooseQuote(o.quoteStyle, s), o.escapeUnicode)
  }

  /** A map key: bare when `unquoted_keys` is on and the key is a plain identifier, quoted otherwise. */
  function KeyText(key: string, o: Options): string {
    Scalars.KeyText(key, o.unquotedKeys, o.quoteStyle, o.escapeUnicode)
  }

  /** `format_binary`: `b64"…"` or `h"…"`. */
  function BinaryText(b: Bytes.Binary, encoding: Scalars.BinaryEncoding): string {
    match encoding
    case Base64 => "b64\"" + Scalars.Base64Encode(b.bytes) + "\""
    case Hex => "h\"" + Scalars.HexText(b.bytes) + "\""
  }

  /** The comma after item `i` of `n`: always but after the last, and there too with trailing commas. */
  function Comma(i: nat, n: nat, trailingCommas: bool): string {
    if i < n - 1 || trailingCommas then "," else ""
  }

  // ---------------------------------------------------------------------------
  // Specification
  // ---------------------------------------------------------------------------

  /** `format_with_opts(value, opts, depth)`. */
  function Render(v: Values.Value, o: Options, depth: nat): string
    requires Bracketable(v)
    decreases v, 0
  {
    match v
    case Null => "null"
    case Bool(b) => if b then "true" else "false"
    case Int(i) => Scalars.FormatInt(i, o.leadingPlus)
    case Float(f) => Scalars.FormatFloat(f, o.leadingPlus)
    case String(s) => StringText(s, o)
    case Binary(b) => BinaryText(b, o.binaryEncoding)
    case Timestamp(_) => assert false; ""
    case List(items) => if o.indent == [] then CompactList(items, o) else PrettyList(items, o, depth)
    case Map(es) => if o.indent == [] then CompactMap(es, o) else PrettyMap(es, o, depth)
  }

  /** The rendering of every item, in order, at depth 0. */
  function CompactItems(items: seq<Values.Value>, o: Options): (r: seq<string>)
    requires forall i | 0 <= i < |items| :: Bracketable(items[i])
    decreases items, 0
  {
    seq(|items|, i requires 0 <= i < |items| => Render(items[i], o, 0))
  }

  /** `format_list_compact`. */
  function CompactList(items: seq<Values.Value>, o: Options): string
    requires forall i | 0 <= i < |items| :: Bracketable(items[i])
    decreases items, 1
  {
    if items == [] then "[]" else "[" + Text.Join(CompactItems(items, o), ",") + "]"
  }

  /** One `key:value` member of a compact map. */
  function CompactEntry(e: Values.Entry, o: Options): string
    requires Bracketable(e.value)
    decreases e
  {
    KeyText(e.key, o) + ":" + Render(e.value, o, 0)
  }

  /** The members of a compact map, in walk order. */
  function CompactEntries(es: seq<Values.Entry>, o: Options): (r: seq<string>)
    requires forall j | 0 <= j < |es| :: Bracketable(es[j].value)
    decreases es, 1
  {
    var ordered := Values.OrderedEntries(es, o.sortKeys);
    seq(|es|, i requires 0 <= i < |es| => OrderedBracketable(es, o.sortKeys, i); CompactEntry(ordered[i], o))
  }

  /** `format_map_compact`. */
  function CompactMap(es: seq<Values.Entry>, o: Options): string
    requires forall j | 0 <= j < |es| :: Bracketable(es[j].value)
    decreases es, 2
  {
    if es == [] then "{}" else "{" + Text.Join(CompactEntries(es, o), ",") + "}"
  }

  /** The line of item `v`, the `i`th of `n`, in a pretty list: indent, item, comma policy, newline. */
  function ItemLine(v: Values.Value, o: Options, depth: nat, i: nat, n: nat): string
    requires Bracketable(v)
    decreases v, 1
  {
    Text.Repeat(o.indent, depth + 1) + Render(v, o, depth + 1) + Comma(i, n, o.trailingCommas) + "\n"
  }

  /** The lines of the first `n` items of a pretty list. */
  function ItemLines(items: seq<Values.Value>, o: Options, depth: nat, n: nat): string
    requires forall j | 0 <= j < |items| :: Bracketable(items[j])
    requires n <= |items|
    decreases items, n + 1
  {
    if n == 0 then [] else ItemLines(items, o, depth, n - 1) + ItemLine(items[n - 1], o, depth, n - 1, |items|)
  }

  /** `format_list_pretty`. */
  function PrettyList(items: seq<Values.Value>, o: Options, depth: nat): string
    requires forall j | 0 <= j < |items| :: Bracketable(items[j])
    decreases items, |items| + 2
  {
    if items == [] then "[]"
    else "[\n" + ItemLines(items, o, depth, |items|) + Text.Repeat(o.indent, depth) + "]"
  }

  /** The line of entry `e`, the `i`th of `n` in walk order, in a pretty map: indent, `key: value`, comma policy, newline. */
  function EntryLine(e: Values.Entry, o: Options, depth: nat, i: nat, n: nat): string
    requires Bracketable(e.value)
    decreases e
  {
    Text.Repeat(o.indent, depth + 1) + KeyText(e.key, o) + ": " + Render(e.value, o, depth + 1)
      + Comma(i, n, o.trailingCommas) + "\n"
  }

  /** The lines of the first `n` entries (in walk order) of a pretty map. */
  function EntryLines(es: seq<Values.Entry>, o: Options, depth: nat, n: nat): string
    requires forall j | 0 <= j < |es| :: Bracketable(es[j].value)
    requires n <= |es|
    decreases es, n + 1
  {
    if n == 0 then []
    else
      OrderedBracketable(es, o.sortKeys, n - 1);
      EntryLines(es, o, depth, n - 1) + EntryLine(Values.OrderedEntries(es, o.sortKeys)[n - 1], o, depth, n - 1, |es|)
  }

  /** `format_map_pretty`. */
  function PrettyMap(es: seq<Values.Entry>, o: Options, depth: nat): string
    requires forall j | 0 <= j < |es| :: Bracketable(es[j].value)
    decreases es, |es| + 2
  {
    if es == [] then "{}"
    else "{\n" + EntryLines(es, o, depth, |es|) + Text.Repeat(o.indent, depth) + "}"
  }

  /** `to_string`: compact preset at depth 0. */
  function ToString(v: Values.Value): string
    requires Bracketable(v)
  {
    Render(v, JasnOptions.Compact(), 0)
  }

  /** `to_string_pretty`: pretty preset at depth 0. */
  function ToStringPretty(v: Values.Value): string
    requires Bracketable(v)
  {
    Render(v, JasnOptions.Pretty(), 0)
  }

  /** `to_string_opts`: the given options at depth 0. */
  function ToStringOpts(v: Values.Value, o: Options): string
    requires Bracketable(v)
  {
    Render(v, o, 0)
  }

  /** Regrouping of the pushes that build one pretty line. */
  lemma Append4(r: string, a: string, b: string, c: string, d: string)
    ensures r + a + b + c + d == r + (a + b + c + d)
  {
  }

  lemma Append6(r: string, a: string, b: string, c: string, d: string, e: string, f: string)
    ensures r + a + b + c + d + e + f == r + (a + b + c + d + e + f)
  {
  }

  /** The pretty map text grows by one entry line per walked entry. */
  lemma EntryLinesSucc(es: seq<Values.Entry>, o: Options, depth: nat, i: nat, before: string, after: string)
    requires forall j | 0 <= j < |es| :: Bracketable(es[j].value)
    requires i < |es|
    requires before == EntryLines(es, o, depth, i)
    requires Bracketable(Values.OrderedEntries(es, o.sortKeys)[i].value)
    requires after == before + EntryLine(Values.OrderedEntries(es, o.sortKeys)[i], o, depth, i, |es|)
    ensures after == EntryLines(es, o, depth, i + 1)
  {
  }

  // ---------------------------------------------------------------------------
  // Properties
  // ---------------------------------------------------------------------------

  /** Empty collections are `[]` and `{}` in every layout and at every depth. */
  lemma EmptyCollections(o: Options, depth: nat)
    ensures Render(Values.List([]), o, depth) == "[]"
    ensures Render(Values.Map([]), o, depth) == "{}"
  {
  }

  // ---------------------------------------------------------------------------
  // Layout
  // ---------------------------------------------------------------------------

  /** The decimal texts the standard library gives the floats inside `v` hold no newline. */
  predicate FloatTextsOneLine(v: Values.Value)
    decreases v
  {
    match v
    case Float(f) => '\n' !in f.text
    case List(items) => forall i | 0 <= i < |items| :: FloatTextsOneLine(items[i])
    case Map(es) => forall i | 0 <= i < |es| :: FloatTextsOneLine(es[i].value)
    case _ => true
  }

  /** If `v` is a finite float, the decimal text the standard library gives it is non-empty and does not end in a comma. */
  predicate FloatTextEnds(v: Values.Value) {
    v.Float? && !v.f.isNan && !v.f.isInfinite ==> v.f.text != [] && v.f.text[|v.f.text| - 1] != ','
  }

  /** Every line of `s` after the first starts with `prefix` (nothing after a final newline counts as a line). */
  predicate Indented(s: string, prefix: string) {
    forall i | 0 < i < |s| && s[i - 1] == '\n' :: Text.StartsWith(s[i..], prefix)
  }

  /** A scalar is written on one line. */
  lemma ScalarOneLine(v: Values.Value, o: Options, depth: nat)
    requires Bracketable(v) && FloatTextsOneLine(v) && !v.List? && !v.Map?
    ensures '\n' !in Render(v, o, depth)
  {
    match v
    case Null =>
    case Bool(b) =>
    case Int(i) => Scalars.FormatIntOneLine(i, o.leadingPlus);
    case Float(f) =>
    case String(s) => Scalars.QuotedNoNewline(s, Scalars.ChooseQuote(o.quoteStyle, s), o.escapeUnicode);
    case Binary(b) =>
      Scalars.Base64NoNewline(b.bytes);
      assert '\n' !in Scalars.HexText(b.bytes);
  }

  /** What is written does not end in a newline. */
  lemma RenderEndsLine(v: Values.Value, o: Options, depth: nat)
    requires Bracketable(v) && FloatTextsOneLine(v)
    ensures Render(v, o, depth) == [] || Render(v, o, depth)[|Render(v, o, depth)| - 1] != '\n'
  {
    if !v.List? && !v.Map? {
      ScalarOneLine(v, o, depth);
    }
  }

  /** What is written is non-empty and does not end in a comma: a scalar, or a closing bracket. */
  lemma RenderLastChar(v: Values.Value, o: Options, depth: nat)
    requires Bracketable(v) && FloatTextEnds(v)
    ensures Render(v, o, depth) != [] && Render(v, o, depth)[|Render(v, o, depth)| - 1] != ','
  {
    match v
    case Int(i) => Scalars.FormatIntOneLine(i, o.leadingPlus);
    case _ =>
  }

  /**
   * With an empty indent string the whole value, however deeply nested, is
   * written on one line.
   */
  lemma {:induction false} CompactOneLine(v: Values.Value, o: Options, depth: nat)
    requires Bracketable(v) && FloatTextsOneLine(v) && o.indent == []
    ensures '\n' !in Render(v, o, depth)
    decreases v
  {
    match v
    case List(items) =>
      if items != [] {
        forall i | 0 <= i < |items|
          ensures '\n' !in CompactItems(items, o)[i]
        {
          CompactOneLine(items[i], o, 0);
        }
        Text.JoinAvoids(CompactItems(items, o), ",", '\n');
      }
    case Map(es) =>
      if es != [] {
        var ordered := Values.OrderedEntries(es, o.sortKeys);
        forall i | 0 <= i < |es|
          ensures '\n' !in CompactEntries(es, o)[i]
        {
          OrderedBracketable(es, o.sortKeys, i);
          var j :| 0 <= j < |es| && es[j] == ordered[i];
          CompactOneLine(es[j].value, o, 0);
          Scalars.KeyOneLine(es[j].key, o.unquotedKeys, o.quoteStyle, o.escapeUnicode);
          assert CompactEntries(es, o)[i] == CompactEntry(es[j], o);
        }
        Text.JoinAvoids(CompactEntries(es, o), ",", '\n');
      }
    case _ => ScalarOneLine(v, o, depth);
  }

  /**
   * In the multi-line layout every line after the first of what is written
   * at `depth` starts with `depth` copies of the indent string. A non-empty
   * list or map is its opening bracket and a newline, then its member lines,
   * each starting with `depth + 1` copies and keeping every later line of the
   * member at that level, then `depth` copies and the closing bracket.
   */
  lemma {:induction false} PrettyIndented(v: Values.Value, o: Options, depth: nat)
    requires Bracketable(v) && FloatTextsOneLine(v) && '\n' !in o.indent
    ensures Indented(Render(v, o, depth), Text.Repeat(o.indent, depth))
    ensures v.List? && v.items != [] && o.indent != [] ==>
              var lines := ItemLines(v.items, o, depth, |v.items|);
              Render(v, o, depth) == "[\n" + lines + Text.Repeat(o.indent, depth) + "]"
              && Indented(lines, Text.Repeat(o.indent, depth + 1))
              && Text.StartsWith(lines, Text.Repeat(o.indent, depth + 1))
    ensures v.Map? && v.entries != [] && o.indent != [] ==>
              var lines := EntryLines(v.entries, o, depth, |v.entries|);
              Render(v, o, depth) == "{\n" + lines + Text.Repeat(o.indent, depth) + "}"
              && Indented(lines, Text.Repeat(o.indent, depth + 1))
              && Text.StartsWith(lines, Text.Repeat(o.indent, depth + 1))
    decreases v, 1
  {
    var p := Text.Repeat(o.indent, depth);
    if o.indent != [] {
      Text.RepeatAvoids(o.indent, depth, '\n');
      match v
      case List(items) =>
        if items != [] {
          ItemLinesIndented(items, o, depth, |items|);
          MembersAtDepth(ItemLines(items, o, depth, |items|), o.indent, depth);
          BracketIndented("[\n", ItemLines(items, o, depth, |items|), p, "]");
        }
      case Map(es) =>
        if es != [] {
          EntryLinesIndented(es, o, depth, |es|);
          MembersAtDepth(EntryLines(es, o, depth, |es|), o.indent, depth);
          BracketIndented("{\n", EntryLines(es, o, depth, |es|), p, "}");
        }
      case _ => ScalarOneLine(v, o, depth);
    }
  }

  /** Member lines one level in are also indented, and start, at the collection's own level. */
  lemma MembersAtDepth(lines: string, indent: string, depth: nat)
    requires Indented(lines, Text.Repeat(indent, depth + 1)) && Text.StartsWith(lines, Text.Repeat(indent, depth + 1))
    ensures Indented(lines, Text.Repeat(indent, depth)) && Text.StartsWith(lines, Text.Repeat(indent, depth))
  {
    IndentedDeeper(lines, indent, depth);
    Text.RepeatPrefix(indent, depth);
    Text.StartsWithTransitive(lines, Text.Repeat(indent, depth + 1), Text.Repeat(indent, depth));
  }

  lemma {:induction false} ItemLinesIndented(items: seq<Values.Value>, o: Options, depth: nat, n: nat)
    requires forall j | 0 <= j < |items| :: Bracketable(items[j]) && FloatTextsOneLine(items[j])
    requires '\n' !in o.indent && n <= |items|
    ensures Indented(ItemLines(items, o, depth, n), Text.Repeat(o.indent, depth + 1))
    ensures n > 0 ==> Text.StartsWith(ItemLines(items, o, depth, n), Text.Repeat(o.indent, depth + 1))
    decreases items, n
  {
    if n > 0 {
      ItemLinesIndented(items, o, depth, n - 1);
      ItemLineIndented(items[n - 1], o, depth, n - 1, |items|);
      LinesIndentedStep(ItemLines(items, o, depth, n - 1), ItemLine(items[n - 1], o, depth, n - 1, |items|),
                        Text.Repeat(o.indent, depth + 1), n - 1);
    }
  }

  /** One item's line starts one level in and keeps the item's own later lines at that level. */
  lemma {:induction false} ItemLineIndented(v: Values.Value, o: Options, depth: nat, i: nat, n: nat)
    requires Bracketable(v) && FloatTextsOneLine(v) && '\n' !in o.indent
    ensures Indented(ItemLine(v, o, depth, i, n), Text.Repeat(o.indent, depth + 1))
    ensures Text.StartsWith(ItemLine(v, o, depth, i, n), Text.Repeat(o.indent, depth + 1))
    decreases v, 2
  {
    var ind := Text.Repeat(o.indent, depth + 1);
    PrettyIndented(v, o, depth + 1);
    RenderEndsLine(v, o, depth + 1);
    Text.RepeatAvoids(o.indent, depth + 1, '\n');
    LineIndented(ind, Render(v, o, depth + 1), Comma(i, n, o.trailingCommas), ind);
  }

  lemma {:induction false} EntryLinesIndented(es: seq<Values.Entry>, o: Options, depth: nat, n: nat)
    requires forall j | 0 <= j < |es| :: Bracketable(es[j].value) && FloatTextsOneLine(es[j].value)
    requires '\n' !in o.indent && n <= |es|
    ensures Indented(EntryLines(es, o, depth, n), Text.Repeat(o.indent, depth + 1))
    ensures n > 0 ==> Text.StartsWith(EntryLines(es, o, depth, n), Text.Repeat(o.indent, depth + 1))
    decreases es, n
  {
    if n > 0 {
      EntryLinesIndented(es, o, depth, n - 1);
      EntryLinesIndentedStep(es, o, depth, n);
    }
  }

  /** One step of the above: indented first `n - 1` lines extend to indented first `n` lines. */
  lemma EntryLinesIndentedStep(es: seq<Values.Entry>, o: Options, depth: nat, n: nat)
    requires forall j | 0 <= j < |es| :: Bracketable(es[j].value) && FloatTextsOneLine(es[j].value)
    requires '\n' !in o.indent && 0 < n <= |es|
    requires Indented(EntryLines(es, o, depth, n - 1), Text.Repeat(o.indent, depth + 1))
    requires n > 1 ==> Text.StartsWith(EntryLines(es, o, depth, n - 1), Text.Repeat(o.indent, depth + 1))
    ensures Indented(EntryLines(es, o, depth, n), Text.Repeat(o.indent, depth + 1))
    ensures Text.StartsWith(EntryLines(es, o, depth, n), Text.Repeat(o.indent, depth + 1))
    decreases es, n - 1
  {
    var p := Text.Repeat(o.indent, depth + 1);
    OrderedBracketable(es, o.sortKeys, n - 1);
    var e := Values.OrderedEntries(es, o.sortKeys)[n - 1];
    var j :| 0 <= j < |es| && es[j] == e;
    var before := EntryLines(es, o, depth, n - 1);
    var line := EntryLine(e, o, depth, n - 1, |es|);
    EntryLineIndented(e, o, depth, n - 1, |es|);
    EntryLinesSucc(es, o, depth, n - 1, before, before + line);
    LinesIndentedStep(before, line, p, n - 1);
  }

  /** The first `k` lines of a collection, then one more line: both indented, so the whole is. */
  lemma LinesIndentedStep(before: string, line: string, p: string, k: nat)
    requires Indented(before, p) && (k > 0 ==> Text.StartsWith(before, p))
    requires Indented(line, p) && Text.StartsWith(line, p) && (k == 0 ==> before == [])
    ensures Indented(before + line, p) && Text.StartsWith(before + line, p)
  {
    IndentedAppend(before, line, p);
    if k > 0 {
      Text.StartsWithAppend(before, line, p);
    } else {
      assert before + line == line;
    }
  }

  /** One entry's line starts one level in and keeps the value's own later lines at that level. */
  lemma {:induction false} EntryLineIndented(e: Values.Entry, o: Options, depth: nat, i: nat, n: nat)
    requires Bracketable(e.value) && FloatTextsOneLine(e.value) && '\n' !in o.indent
    ensures Indented(EntryLine(e, o, depth, i, n), Text.Repeat(o.indent, depth + 1))
    ensures Text.StartsWith(EntryLine(e, o, depth, i, n), Text.Repeat(o.indent, depth + 1))
    decreases e
  {
    var ind := Text.Repeat(o.indent, depth + 1);
    PrettyIndented(e.value, o, depth + 1);
    RenderEndsLine(e.value, o, depth + 1);
    Text.RepeatAvoids(o.indent, depth + 1, '\n');
    var key := KeyText(e.key, o);
    Scalars.KeyOneLine(e.key, o.unquotedKeys, o.quoteStyle, o.escapeUnicode);
    EntryHeadIndented(ind, key, ind);
    LineIndented(ind + key + ": ", Render(e.value, o, depth + 1), Comma(i, n, o.trailingCommas), ind);
  }

  /** The indent, key and `: ` that open an entry's line. */
  lemma EntryHeadIndented(ind: string, key: string, p: string)
    requires '\n' !in ind && '\n' !in key && Text.StartsWith(ind, p)
    ensures '\n' !in ind + key + ": " && Text.StartsWith(ind + key + ": ", p)
  {
    Text.StartsWithAppend(ind, key, p);
    Text.StartsWithAppend(ind + key, ": ", p);
  }

  /**
   * A member's line: a newline-free head that starts with the member indent
   * `p`, the member's text with its later lines at `p`, the comma, the newline.
   */
  lemma LineIndented(head: string, r: string, comma: string, p: string)
    requires '\n' !in head && Text.StartsWith(head, p)
    requires Indented(r, p) && (r == [] || r[|r| - 1] != '\n')
    requires '\n' !in comma
    ensures Indented(head + r + comma + "\n", p)
    ensures Text.StartsWith(head + r + comma + "\n", p)
  {
    IndentedPrepend(head, r, p);
    if r == [] {
      assert head + r == head;
      assert head == [] || head[|head| - 1] in head;
    }
    IndentedAppendLine(head + r, comma, p);
    Text.StartsWithAppend(head, r, p);
    Text.StartsWithAppend(head + r, comma, p);
    Text.StartsWithAppend(head + r + comma, "\n", p);
  }

  /** Indented text stays indented when indented text that starts with the prefix follows it. */
  lemma IndentedAppend(a: string, b: string, p: string)
    requires Indented(a, p) && Indented(b, p) && Text.StartsWith(b, p)
    ensures Indented(a + b, p)
  {
    var s := a + b;
    forall i | 0 < i < |s| && s[i - 1] == '\n'
      ensures Text.StartsWith(s[i..], p)
    {
      if i < |a| {
        assert a[i - 1] == '\n';
        assert s[i..] == a[i..] + b;
        Text.StartsWithAppend(a[i..], b, p);
      } else if i > |a| {
        assert b[i - |a| - 1] == '\n';
        assert s[i..] == b[i - |a|..];
      } else {
        assert s[i..] == b;
      }
    }
  }

  /** A newline-free head does not change which lines follow newlines. */
  lemma IndentedPrepend(head: string, m: string, p: string)
    requires '\n' !in head && Indented(m, p)
    ensures Indented(head + m, p)
    ensures m != [] ==> (head + m)[|head + m| - 1] == m[|m| - 1]
  {
    var s := head + m;
    forall i | 0 < i < |s| && s[i - 1] == '\n'
      ensures Text.StartsWith(s[i..], p)
    {
      assert m[i - |head| - 1] == '\n';
      assert s[i..] == m[i - |head|..];
    }
  }

  /** Indented text that does not end its line, then newline-free text and the newline that ends the line. */
  lemma IndentedAppendLine(m: string, t: string, p: string)
    requires Indented(m, p) && (m == [] || m[|m| - 1] != '\n') && '\n' !in t
    ensures Indented(m + t + "\n", p)
  {
    var s := m + t + "\n";
    forall i | 0 < i < |s| && s[i - 1] == '\n'
      ensures Text.StartsWith(s[i..], p)
    {
      assert m[i - 1] == '\n';
      assert s[i..] == m[i..] + (t + "\n");
      Text.StartsWithAppend(m[i..], t + "\n", p);
    }
  }

  /** Text indented one level deeper is indented at this level too. */
  lemma IndentedDeeper(s: string, indent: string, depth: nat)
    requires Indented(s, Text.Repeat(indent, depth + 1))
    ensures Indented(s, Text.Repeat(indent, depth))
  {
    Text.RepeatPrefix(indent, depth);
    forall i | 0 < i < |s| && s[i - 1] == '\n'
      ensures Text.StartsWith(s[i..], Text.Repeat(indent, depth))
    {
      Text.StartsWithTransitive(s[i..], Text.Repeat(indent, depth + 1), Text.Repeat(indent, depth));
    }
  }

  /** A bracket and newline, indented lines, then the closing bracket at the block's own indent. */
  lemma BracketIndented(open: string, lines: string, p: string, close: string)
    requires open == "[\n" || open == "{\n"
    requires Indented(lines, p) && Text.StartsWith(lines, p)
    requires '\n' !in p && '\n' !in close
    ensures Indented(open + lines + p + close, p)
  {
    assert Indented(open, p);
    IndentedAppend(open, lines, p);
    Text.StartsWithAppend(p, close, p);
    IndentedAppend(open + lines, p + close, p);
    Text.AppendAssoc(open + lines, p, close);
  }

  /**
   * The text of the first `i + 1` items of a multi-line list ends in `,\n`
   * exactly when item `i` is not the last or trailing commas are on.
   */
  lemma ItemLineCommas(items: seq<Values.Value>, o: Options, depth: nat, i: nat)
    requires forall j | 0 <= j < |items| :: Bracketable(items[j])
    requires i < |items| && FloatTextEnds(items[i])
    ensures Text.EndsWith(ItemLines(items, o, depth, i + 1), ",\n") <==> i < |items| - 1 || o.trailingCommas
  {
    var r := Render(items[i], o, depth + 1);
    RenderLastChar(items[i], o, depth + 1);
    LineCommas(ItemLines(items, o, depth, i), Text.Repeat(o.indent, depth + 1) + r, Comma(i, |items|, o.trailingCommas));
  }

  /**
   * The text of the first `i + 1` entries of a multi-line map ends in `,\n`
   * exactly when entry `i` is not the last or trailing commas are on.
   */
  lemma EntryLineCommas(es: seq<Values.Entry>, o: Options, depth: nat, i: nat)
    requires forall j | 0 <= j < |es| :: Bracketable(es[j].value)
    requires i < |es| && FloatTextEnds(Values.OrderedEntries(es, o.sortKeys)[i].value)
    ensures Text.EndsWith(EntryLines(es, o, depth, i + 1), ",\n") <==> i < |es| - 1 || o.trailingCommas
  {
    OrderedBracketable(es, o.sortKeys, i);
    var e := Values.OrderedEntries(es, o.sortKeys)[i];
    var j :| 0 <= j < |es| && es[j] == e;
    var r := Render(e.value, o, depth + 1);
    RenderLastChar(e.value, o, depth + 1);
    var before := EntryLines(es, o, depth, i);
    var head := Text.Repeat(o.indent, depth + 1) + KeyText(e.key, o) + ": ";
    var comma := Comma(i, |es|, o.trailingCommas);
    EntryLinesSucc(es, o, depth, i, before, before + (head + r + comma + "\n"));
    LineCommas(before, head + r, comma);
  }

  /** A line whose text does not end in a comma ends in `,\n` exactly when the comma is written. */
  lemma LineCommas(before: string, text: string, comma: string)
    requires text != [] && text[|text| - 1] != ','
    requires comma == "," || comma == ""
    ensures Text.EndsWith(before + (text + comma + "\n"), ",\n") <==> comma == ","
  {
    var s := before + (text + comma + "\n");
    assert s[|s| - 1] == '\n';
    assert s[|s| - 2] == if comma == "," then ',' else text[|text| - 1];
  }

  /**
   * On a well-formed value (every map a `BTreeMap`, already in key order)
   * `sort_keys` changes nothing in the output.
   */
  lemma {:induction false} RenderIgnoresSortKeys(v: Values.Value, o1: Options, o2: Options, depth: nat)
    requires Bracketable(v) && Values.InWalkOrder(v)
    requires o1.(sortKeys := o2.sortKeys) == o2
    ensures Render(v, o1, depth) == Render(v, o2, depth)
    decreases v, 1
  {
    match v
    case List(items) =>
      if o1.indent == [] {
        CompactListIgnoresSortKeys(items, o1, o2);
      } else {
        PrettyListIgnoresSortKeys(items, o1, o2, depth);
      }
    case Map(es) =>
      if o1.indent == [] {
        CompactMapIgnoresSortKeys(es, o1, o2);
      } else {
        PrettyMapIgnoresSortKeys(es, o1, o2, depth);
      }
    case _ =>
  }

  /** For a valid value, flipping `sort_keys` changes nothing in the output. */
  lemma SortKeysInvisible(v: Values.Value, o: Options)
    requires Bracketable(v) && Values.WellFormed(v)
    ensures ToStringOpts(v, o) == ToStringOpts(v, o.(sortKeys := !o.sortKeys))
  {
    Values.WellFormedInWalkOrder(v);
    RenderIgnoresSortKeys(v, o, o.(sortKeys := !o.sortKeys), 0);
  }

  lemma {:induction false} CompactListIgnoresSortKeys(items: seq<Values.Value>, o1: Options, o2: Options)
    requires forall j | 0 <= j < |items| :: Bracketable(items[j]) && Values.InWalkOrder(items[j])
    requires o1.(sortKeys := o2.sortKeys) == o2
    ensures CompactList(items, o1) == CompactList(items, o2)
    decreases items, 0
  {
    forall i | 0 <= i < |items|
      ensures CompactItems(items, o1)[i] == CompactItems(items, o2)[i]
    {
      RenderIgnoresSortKeys(items[i], o1, o2, 0);
    }
    assert CompactItems(items, o1) == CompactItems(items, o2);
  }

  lemma PrettyListIgnoresSortKeys(items: seq<Values.Value>, o1: Options, o2: Options, depth: nat)
    requires forall j | 0 <= j < |items| :: Bracketable(items[j]) && Values.InWalkOrder(items[j])
    requires o1.(sortKeys := o2.sortKeys) == o2
    ensures PrettyList(items, o1, depth) == PrettyList(items, o2, depth)
    decreases items, |items| + 1
  {
    ItemLinesIgnoreSortKeys(items, o1, o2, depth, |items|);
  }

  lemma PrettyMapIgnoresSortKeys(es: seq<Values.Entry>, o1: Options, o2: Options, depth: nat)
    requires forall j | 0 <= j < |es| :: Bracketable(es[j].value) && Values.InWalkOrder(es[j].value)
    requires Values.SortByKey(es) == es
    requires o1.(sortKeys := o2.sortKeys) == o2
    ensures PrettyMap(es, o1, depth) == PrettyMap(es, o2, depth)
    decreases es, |es| + 1
  {
    EntryLinesIgnoreSortKeys(es, o1, o2, depth, |es|);
  }

  lemma {:induction false} CompactMapIgnoresSortKeys(es: seq<Values.Entry>, o1: Options, o2: Options)
    requires forall j | 0 <= j < |es| :: Bracketable(es[j].value) && Values.InWalkOrder(es[j].value)
    requires Values.SortByKey(es) == es
    requires o1.(sortKeys := o2.sortKeys) == o2
    ensures CompactMap(es, o1) == CompactMap(es, o2)
    decreases es, 0
  {
    forall i | 0 <= i < |es|
      ensures CompactEntries(es, o1)[i] == CompactEntries(es, o2)[i]
    {
      RenderIgnoresSortKeys(es[i].value, o1, o2, 0);
      assert KeyText(es[i].key, o1) == KeyText(es[i].key, o2);
      assert CompactEntries(es, o1)[i] == CompactEntry(es[i], o1);
      assert CompactEntries(es, o2)[i] == CompactEntry(es[i], o2);
    }
    assert CompactEntries(es, o1) == CompactEntries(es, o2);
  }

  lemma {:induction false} ItemLinesIgnoreSortKeys(items: seq<Values.Value>, o1: Options, o2: Options, depth: nat, n: nat)
    requires forall j | 0 <= j < |items| :: Bracketable(items[j]) && Values.InWalkOrder(items[j])
    requires o1.(sortKeys := o2.sortKeys) == o2
    requires n <= |items|
    ensures ItemLines(items, o1, depth, n) == ItemLines(items, o2, depth, n)
    decreases items, n
  {
    if n > 0 {
      ItemLinesIgnoreSortKeys(items, o1, o2, depth, n - 1);
      RenderIgnoresSortKeys(items[n - 1], o1, o2, depth + 1);
    }
  }

  lemma {:induction false} EntryLinesIgnoreSortKeys(es: seq<Values.Entry>, o1: Options, o2: Options, depth: nat, n: nat)
    requires forall j | 0 <= j < |es| :: Bracketable(es[j].value) && Values.InWalkOrder(es[j].value)
    requires Values.SortByKey(es) == es
    requires o1.(sortKeys := o2.sortKeys) == o2
    requires n <= |es|
    ensures EntryLines(es, o1, depth, n) == EntryLines(es, o2, depth, n)
    decreases es, n
  {
    if n > 0 {
      EntryLinesIgnoreSortKeys(es, o1, o2, depth, n - 1);
      EntryLinesStepIgnoresSortKeys(es, o1, o2, depth, n);
    }
  }

  /** One step of the above: equal first `n - 1` lines extend to equal first `n` lines. */
  lemma EntryLinesStepIgnoresSortKeys(es: seq<Values.Entry>, o1: Options, o2: Options, depth: nat, n: nat)
    requires forall j | 0 <= j < |es| :: Bracketable(es[j].value) && Values.InWalkOrder(es[j].value)
    requires Values.SortByKey(es) == es
    requires o1.(sortKeys := o2.sortKeys) == o2
    requires 0 < n <= |es|
    requires EntryLines(es, o1, depth, n - 1) == EntryLines(es, o2, depth, n - 1)
    ensures EntryLines(es, o1, depth, n) == EntryLines(es, o2, depth, n)
    decreases es, n - 1
  {
    var i := n - 1;
    var before := EntryLines(es, o1, depth, i);
    var e := es[i];
    assert Values.OrderedEntries(es, o1.sortKeys) == es;
    assert Values.OrderedEntries(es, o2.sortKeys) == es;
    EntryLineIgnoresSortKeys(e, o1, o2, depth, i, |es|);
    var line := EntryLine(e, o2, depth, i, |es|);
    EntryLinesSucc(es, o1, depth, i, before, before + line);
    EntryLinesSucc(es, o2, depth, i, before, before + line);
  }

  lemma EntryLineIgnoresSortKeys(e: Values.Entry, o1: Options, o2: Options, depth: nat, i: nat, n: nat)
    requires Bracketable(e.value) && Values.InWalkOrder(e.value)
    requires o1.(sortKeys := o2.sortKeys) == o2
    ensures EntryLine(e, o1, depth, i, n) == EntryLine(e, o2, depth, i, n)
    decreases e
  {
    RenderIgnoresSortKeys(e.value, o1, o2, depth + 1);
    assert KeyText(e.key, o1) == KeyText(e.key, o2);
  }

  /** The primitives of the source's unit tests, compact preset. */
  lemma PrimitiveExamples()
    ensures ToString(Values.Null) == "null"
    ensures ToString(Values.Bool(true)) == "true" && ToString(Values.Bool(false)) == "false"
    ensures ToString(Values.Int(42)) == "42" && ToString(Values.Int(-123)) == "-123"
  {
    Scalars.FormatIntExamples();
  }

  /** `[1,2,3]` and `[]`, compact preset. */
  lemma CompactListExample()
    ensures ToString(Values.List([Values.Int(1), Values.Int(2), Values.Int(3)])) == "[1,2,3]"
  {
    var o := JasnOptions.Compact();
    var items := [Values.Int(1), Values.Int(2), Values.Int(3)];
    assert CompactItems(items, o) == ["1", "2", "3"];
  }

  /** The map of the `sort_keys` example, as a `BTreeMap` holds it. */
  function FruitMap(): seq<Values.Entry> {
    [Values.Entry("apple", Values.Int(2)), Values.Entry("banana", Values.Int(3)), Values.Entry("zebra", Values.Int(1))]
  }

  lemma FruitMapSorted()
    ensures Values.SortedKeys(FruitMap())
  {
    assert Values.KeyLess("apple", "banana");
    assert Values.KeyLess("banana", "zebra");
    Values.KeyLessTransitive("apple", "banana", "zebra");
  }

  lemma FruitMapBracketable()
    ensures Bracketable(Values.Map(FruitMap()))
  {
    var es := FruitMap();
    assert Bracketable(es[0].value) && Bracketable(es[1].value) && Bracketable(es[2].value);
  }

  lemma FruitKeysBare()
    ensures Scalars.CanBeUnquoted("apple") && Scalars.CanBeUnquoted("banana") && Scalars.CanBeUnquoted("zebra")
  {
    BareKey("apple");
    BareKey("banana");
    BareKey("zebra");
  }

  lemma FruitText(xs: seq<string>)
    requires |xs| == 3 && xs[0] == "apple" + ":" + "2" && xs[1] == "banana" + ":" + "3" && xs[2] == "zebra" + ":" + "1"
    ensures "{" + Text.Join(xs, ",") + "}" == "{apple:2,banana:3,zebra:1}"
  {
    assert xs[1..][1..] == [xs[2]];
  }

  /** The entries of the `sort_keys` example, each written `key:value` with a bare key. */
  lemma FruitEntries(es: seq<Values.Entry>, o: Options)
    requires |es| == 3
    requires es[0] == Values.Entry("apple", Values.Int(2)) && es[1] == Values.Entry("banana", Values.Int(3))
    requires es[2] == Values.Entry("zebra", Values.Int(1))
    requires o.unquotedKeys && !o.leadingPlus && !o.sortKeys
    ensures |CompactEntries(es, o)| == 3
    ensures CompactEntries(es, o)[0] == "apple" + ":" + "2" && CompactEntries(es, o)[1] == "banana" + ":" + "3"
    ensures CompactEntries(es, o)[2] == "zebra" + ":" + "1"
  {
    assert forall j | 0 <= j < |es| :: Bracketable(es[j].value) by {
      forall j | 0 <= j < |es|
        ensures Bracketable(es[j].value)
      {
        assert j == 0 || j == 1 || j == 2;
      }
    }
    FruitKeysBare();
    assert Values.OrderedEntries(es, o.sortKeys) == es;
    assert CompactEntries(es, o)[0] == CompactEntry(es[0], o) == "apple" + ":" + "2";
    assert CompactEntries(es, o)[1] == CompactEntry(es[1], o) == "banana" + ":" + "3";
    assert CompactEntries(es, o)[2] == CompactEntry(es[2], o) == "zebra" + ":" + "1";
  }

  /** The `sort_keys` example: keys in ascending order, written bare, with or without sorting. */
  lemma SortedMapExample(es: seq<Values.Entry>)
    requires es == FruitMap()
    ensures ToStringOpts(Values.Map(es), JasnOptions.Compact()) == "{apple:2,banana:3,zebra:1}"
    ensures ToStringOpts(Values.Map(es), JasnOptions.WithSortKeys(JasnOptions.Compact(), true))
            == "{apple:2,banana:3,zebra:1}"
  {
    var o := JasnOptions.Compact();
    FruitMapBracketable();
    FruitEntries(es, o);
    FruitText(CompactEntries(es, o));
    FruitMapSorted();
    Values.WellFormedInWalkOrder(Values.Map(es));
    RenderIgnoresSortKeys(Values.Map(es), o, JasnOptions.WithSortKeys(o, true), 0);
  }

  /** A lower-case word of five or more letters is written bare. */
  lemma BareKey(k: string)
    requires |k| >= 6 || (|k| == 5 && k != "false")
    requires forall j | 0 <= j < |k| :: 'a' <= k[j] <= 'z'
    ensures Scalars.CanBeUnquoted(k)
  {
    assert k !in Scalars.ReservedWords;
  }

  /** The map of the source's pretty-printing test, `{name: "Alice", age: 30}`, in key order. */
  function PersonMap(): seq<Values.Entry> {
    [Values.Entry("age", Values.Int(30)), Values.Entry("name", Values.String("Alice"))]
  }

  lemma PersonMapWalk(sortKeys: bool)
    ensures Values.OrderedEntries(PersonMap(), sortKeys) == PersonMap()
  {
    assert Values.KeyLess("age", "name");
    Values.OrderedEntriesOfBTreeMap(PersonMap(), sortKeys);
  }

  /** With bare keys on, `age` and `name` are written bare. */
  lemma PersonKeys(o: Options)
    requires o.unquotedKeys
    ensures KeyText("age", o) == "age" && KeyText("name", o) == "name"
  {
    assert Scalars.CanBeUnquoted("age") && Scalars.CanBeUnquoted("name");
  }

  lemma ThirtyText(o: Options, depth: nat)
    requires !o.leadingPlus
    ensures Render(Values.Int(30), o, depth) == "30"
  {
    assert Scalars.NatText(30) == "30";
  }

  /** With double quotes, `Alice` is written `"Alice"` whether or not non-ASCII is escaped. */
  lemma AliceText(o: Options, depth: nat)
    requires o.quoteStyle == Scalars.Double
    ensures Render(Values.String("Alice"), o, depth) == "\"Alice\""
  {
    Scalars.EscapeBodyVerbatim("Alice", '"', o.escapeUnicode);
  }

  lemma AgeLine(e: Values.Entry, o: Options)
    requires e == Values.Entry("age", Values.Int(30))
    requires o.indent == "  " && o.trailingCommas && o.unquotedKeys && !o.leadingPlus
    ensures EntryLine(e, o, 0, 0, 2) == "  " + "age" + ": " + "30" + ",\n"
  {
    PersonKeys(o);
    ThirtyText(o, 1);
    TopEntryLine(e, o, 0, 2, "age", "30");
  }

  lemma NameLine(e: Values.Entry, o: Options)
    requires e == Values.Entry("name", Values.String("Alice"))
    requires o.indent == "  " && o.trailingCommas && o.unquotedKeys && o.quoteStyle == Scalars.Double
    ensures EntryLine(e, o, 0, 1, 2) == "  " + "name" + ": " + "\"Alice\"" + ",\n"
  {
    PersonKeys(o);
    AliceText(o, 1);
    TopEntryLine(e, o, 1, 2, "name", "\"Alice\"");
  }

  /** An entry line at depth 0 with a two-space indent and a comma, given the texts of its key and value. */
  lemma TopEntryLine(e: Values.Entry, o: Options, i: nat, n: nat, key: string, value: string)
    requires Bracketable(e.value) && o.indent == "  " && (i < n - 1 || o.trailingCommas)
    requires KeyText(e.key, o) == key && Render(e.value, o, 1) == value
    ensures EntryLine(e, o, 0, i, n) == "  " + key + ": " + value + ",\n"
  {
    assert Text.Repeat(o.indent, 1) == "  ";
  }

  lemma PersonLines(es: seq<Values.Entry>, o: Options, lines: string)
    requires es == PersonMap() && o == JasnOptions.Pretty()
    requires lines == EntryLines(es, o, 0, |es|)
    ensures lines == ("  " + "age" + ": " + "30" + ",\n") + ("  " + "name" + ": " + "\"Alice\"" + ",\n")
  {
    PersonMapWalk(o.sortKeys);
    assert forall j | 0 <= j < |es| :: Bracketable(es[j].value);
    AgeLine(es[0], o);
    NameLine(es[1], o);
    EntryLinesSucc(es, o, 0, 0, [], "  " + "age" + ": " + "30" + ",\n");
    EntryLinesSucc(es, o, 0, 1, "  " + "age" + ": " + "30" + ",\n", ("  " + "age" + ": " + "30" + ",\n") + ("  " + "name" + ": " + "\"Alice\"" + ",\n"));
  }

  lemma PersonAssembly(x: string, lines: string, closing: string)
    requires lines == ("  " + "age" + ": " + "30" + ",\n") + ("  " + "name" + ": " + "\"Alice\"" + ",\n") && closing == []
    requires x == "{\n" + lines + closing + "}"
    ensures x == "{\n  age: 30,\n  name: \"Alice\",\n}"
    ensures '\n' in x && x[2..4] == "  "
  {
    assert x[1] == '\n';
  }

  lemma PersonMapBracketable()
    ensures Bracketable(Values.Map(PersonMap()))
  {
    var es := PersonMap();
    assert Bracketable(es[0].value) && Bracketable(es[1].value);
  }

  /** A non-empty map under the pretty preset: its entry lines between braces, the closing one unindented. */
  lemma PrettyMapText(es: seq<Values.Entry>)
    requires es != [] && Bracketable(Values.Map(es))
    ensures ToStringPretty(Values.Map(es)) == "{\n" + EntryLines(es, JasnOptions.Pretty(), 0, |es|) + [] + "}"
  {
    var o := JasnOptions.Pretty();
    PrettyMapRenders(es, o, 0);
    assert Text.Repeat(o.indent, 0) == [];
  }

  lemma PrettyMapRenders(es: seq<Values.Entry>, o: Options, depth: nat)
    requires o.indent != [] && Bracketable(Values.Map(es))
    ensures Render(Values.Map(es), o, depth) == PrettyMap(es, o, depth)
  {
  }

  /**
   * The source's pretty-printing test: the pretty preset writes each entry
   * on its own line, two spaces in, keys bare and in order, every line with a
   * comma, and the closing brace on a line of its own.
   */
  lemma PrettyMapExample()
    ensures Bracketable(Values.Map(PersonMap()))
    ensures ToStringPretty(Values.Map(PersonMap())) == "{\n  age: 30,\n  name: \"Alice\",\n}"
    ensures '\n' in ToStringPretty(Values.Map(PersonMap()))
    ensures ToStringPretty(Values.Map(PersonMap()))[2..4] == "  "
  {
    var es := PersonMap();
    PersonMapBracketable();
    var lines := EntryLines(es, JasnOptions.Pretty(), 0, |es|);
    PersonLines(es, JasnOptions.Pretty(), lines);
    PrettyMapText(es);
    PersonAssembly(ToStringPretty(Values.Map(es)), lines, []);
  }

  /** A string renders as `format_string` with the quote the style picks. */
  lemma StringRenders(s: string, o: Options)
    ensures Render(Values.String(s), o, 0) == StringText(s, o)
  {
  }

  /** A newline inside a string is written `\n`. */
  lemma NewlineEscapeExample()
    ensures ToString(Values.String("a\nb")) == "\"a\\nb\""
  {
    StringRenders("a\nb", JasnOptions.Compact());
    Scalars.NewlineEscapes();
  }

  /** `é` is written `\u00e9` when non-ASCII is escaped. */
  lemma LatinEscapeExample()
    ensures ToString(Values.String("\U{00E9}")) == "\"\\u00e9\""
  {
    StringRenders("\U{00E9}", JasnOptions.Compact());
    Scalars.LatinEscapes();
  }

  /** U+1F600 is written as the surrogate pair `\ud83d\ude00`. */
  lemma SurrogateEscapeExample()
    ensures ToString(Values.String("\U{1F600}")) == "\"\\ud83d\\ude00\""
  {
    StringRenders("\U{1F600}", JasnOptions.Compact());
    Scalars.SurrogateEscapes();
  }

  /** The base64 example: `Hello` is `b64"SGVsbG8="`. */
  lemma BinaryExample()
    ensures ToString(Values.Binary(Bytes.Binary([72, 101, 108, 108, 111]))) == "b64\"SGVsbG8=\""
  {
    Scalars.Base64Example();
  }

  // ---------------------------------------------------------------------------
  // The source's procedures
  // ---------------------------------------------------------------------------

  /** `format_with_opts`: dispatches on the variant, formatting strings and collections by their loops. */
  method FormatWithOpts(v: Values.Value, o: Options, depth: nat) returns (r: string)
    requires Bracketable(v)
    ensures r == Render(v, o, depth)
    decreases v, 0
  {
    match v {
      case Null => r := "null";
      case Bool(b) => r := if b then "true" else "false";
      case Int(i) => r := Scalars.FormatInt(i, o.leadingPlus);
      case Float(f) => r := Scalars.FormatFloat(f, o.leadingPlus);
      case String(s) =>
        var quote := Scalars.ChooseQuote(o.quoteStyle, s);
        r := Scalars.FormatString(s, quote, o.escapeUnicode);
      case Binary(b) => r := BinaryText(b, o.binaryEncoding);
      case List(items) =>
        if o.indent == [] {
          r := CompactList(items, o);
        } else {
          r := FormatListPretty(items, o, depth);
        }
      case Map(es) =>
        if o.indent == [] {
          r := CompactMap(es, o);
        } else {
          r := FormatMapPretty(es, o, depth);
        }
    }
  }

  /** A map key as the map formatters write it. */
  method FormatKey(key: string, o: Options) returns (r: string)
    ensures r == KeyText(key, o)
  {
    if o.unquotedKeys && Scalars.CanBeUnquoted(key) {
      r := key;
    } else {
      var quote := Scalars.ChooseQuote(o.quoteStyle, key);
      r := Scalars.FormatString(key, quote, o.escapeUnicode);
    }
  }

  /** `format_list_pretty`: one indented line per item, then the closing bracket at the parent's indent. */
  method FormatListPretty(items: seq<Values.Value>, o: Options, depth: nat) returns (r: string)
    requires forall i | 0 <= i < |items| :: Bracketable(items[i])
    ensures r == PrettyList(items, o, depth)
    decreases items
  {
    if |items| == 0 {
      return "[]";
    }
    var indent := Text.Repeat(o.indent, depth);
    var lines := "";
    for i := 0 to |items|
      invariant lines == ItemLines(items, o, depth, i)
    {
      lines := PushItemLine(lines, items[i], o, depth, i, |items|);
    }
    r := "[\n" + lines;
    r := r + indent + "]";
  }

  /** `format_map_pretty`: one indented `key: value` line per entry, then the closing brace. */
  method FormatMapPretty(es: seq<Values.Entry>, o: Options, depth: nat) returns (r: string)
    requires forall j | 0 <= j < |es| :: Bracketable(es[j].value)
    ensures r == PrettyMap(es, o, depth)
    decreases es
  {
    if |es| == 0 {
      return "{}";
    }
    var indent := Text.Repeat(o.indent, depth);
    var lines := "";
    for i := 0 to |es|
      invariant lines == EntryLines(es, o, depth, i)
    {
      var e := Values.OrderedEntries(es, o.sortKeys)[i];
      OrderedBracketable(es, o.sortKeys, i);
      ghost var before := lines;
      lines := PushEntryLine(lines, e, o, depth, i, |es|);
      EntryLinesSucc(es, o, depth, i, before, lines);
    }
    r := "{\n" + lines;
    r := r + indent + "}";
  }

  /** The body of `format_list_pretty`'s loop: pushes item `i`'s indented line onto `r`. */
  method PushItemLine(r0: string, v: Values.Value, o: Options, depth: nat, i: nat, n: nat) returns (r: string)
    requires Bracketable(v)
    ensures r == r0 + ItemLine(v, o, depth, i, n)
    decreases v, 1
  {
    var itemIndent := Text.Repeat(o.indent, depth + 1);
    r := r0 + itemIndent;
    var value := FormatWithOpts(v, o, depth + 1);
    r := r + value;
    var comma := "";
    if i < n - 1 || o.trailingCommas {
      comma := ",";
    }
    r := r + comma;
    r := r + "\n";
    Append4(r0, itemIndent, value, comma, "\n");
  }

  /** The body of `format_map_pretty`'s loop: pushes entry `i`'s indented `key: value` line onto `r`. */
  method PushEntryLine(r0: string, e: Values.Entry, o: Options, depth: nat, i: nat, n: nat) returns (r: string)
    requires Bracketable(e.value)
    ensures r == r0 + EntryLine(e, o, depth, i, n)
    decreases e
  {
    var itemIndent := Text.Repeat(o.indent, depth + 1);
    r := r0 + itemIndent;
    var key := FormatKey(e.key, o);
    r := r + key;
    r := r + ": ";
    var value := FormatWithOpts(e.value, o, depth + 1);
    r := r + value;
    var comma := "";
    if i < n - 1 || o.trailingCommas {
      comma := ",";
    }
    r := r + comma;
    r := r + "\n";
    Append6(r0, itemIndent, key, ": ", value, comma, "\n");
  }
}
