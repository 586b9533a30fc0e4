/**
 * Options of the bracketed-syntax formatter: the `compact` and `pretty`
 * presets and the by-value `with_*` builder setters, each of which replaces
 * one field of the record.
 */
module JasnOptions {
  import Scalars

  datatype Options = Options(
    indent: string,             // empty means compact output
    trailingCommas: bool,
    quoteStyle: Scalars.QuoteStyle,
    binaryEncoding: Scalars.BinaryEncoding,
    unquotedKeys: bool,
    leadingPlus: bool,
    sortKeys: bool,
    escapeUnicode: bool)

  /** `Options::compact`: one line, no trailing commas, unsorted keys, non-ASCII escaped. */
  function Compact(): (o: Options)
    ensures o.indent == [] && !o.trailingCommas && o.unquotedKeys && !o.leadingPlus
    ensures !o.sortKeys && o.escapeUnicode
    ensures o.quoteStyle == Scalars.Double && o.binaryEncoding == Scalars.Base64
  {
    Options("", false, Scalars.Double, Scalars.Base64, true, false, false, true)
  }

  /** `Options::pretty`: two-space indent, trailing commas, sorted keys, Unicode kept literal. */
  function Pretty(): (o: Options)
    ensures o.indent == "  " && o.trailingCommas && o.unquotedKeys && !o.leadingPlus
    ensures o.sortKeys && !o.escapeUnicode
    ensures o.quoteStyle == Scalars.Double && o.binaryEncoding == Scalars.Base64
  {
    Options("  ", true, Scalars.Double, Scalars.Base64, true, false, true, false)
  }

  /** `Default` is the pretty preset. */
  function Default(): (o: Options)
    ensures o == Pretty()
    ensures o != Compact()
  {
    Pretty()
  }

  function WithIndent(o: Options, indent: string): (r: Options)
    ensures r.indent == indent && r.(indent := o.indent) == o
  {
    o.(indent := indent)
  }

  function WithTrailingCommas(o: Options, enable: bool): (r: Options)
    ensures r.trailingCommas == enable && r.(trailingCommas := o.trailingCommas) == o
  {
    o.(trailingCommas := enable)
  }

  function WithQuoteStyle(o: Options, style: Scalars.QuoteStyle): (r: Options)
    ensures r.quoteStyle == style && r.(quoteStyle := o.quoteStyle) == o
  {
    o.(quoteStyle := style)
  }

  function WithBinaryEncoding(o: Options, encoding: Scalars.BinaryEncoding): (r: Options)
    ensures r.binaryEncoding == encoding && r.(binaryEncoding := o.binaryEncoding) == o
  {
    o.(binaryEncoding := encoding)
  }

  function WithUnquotedKeys(o: Options, enable: bool): (r: Options)
    ensures r.unquotedKeys == enable && r.(unquotedKeys := o.unquotedKeys) == o
  {
    o.(unquotedKeys := enable)
  }

  function WithLeadingPlus(o: Options, enable: bool): (r: Options)
    ensures r.leadingPlus == enable && r.(leadingPlus := o.leadingPlus) == o
  {
    o.(leadingPlus := enable)
  }

  function WithSortKeys(o: Options, enable: bool): (r: Options)
    ensures r.sortKeys == enable && r.(sortKeys := o.sortKeys) == o
  {
    o.(sortKeys := enable)
  }

  function WithEscapeUnicode(o: Options, enable: bool): (r: Options)
    ensures r.escapeUnicode == enable && r.(escapeUnicode := o.escapeUnicode) == o
  {
    o.(escapeUnicode := enable)
  }

  /** One builder call, named by the field it sets. */
  datatype Setting =
    | Indent(indent: string)
    | TrailingCommas(trailingCommas: bool)
    | Quote(quoteStyle: Scalars.QuoteStyle)
    | Encoding(binaryEncoding: Scalars.BinaryEncoding)
    | UnquotedKeys(unquotedKeys: bool)
    | LeadingPlus(leadingPlus: bool)
    | SortKeys(sortKeys: bool)
    | EscapeUnicode(escapeUnicode: bool)

  function Apply(o: Options, s: Setting): Options {
    match s
    case Indent(x) => WithIndent(o, x)
    case TrailingCommas(x) => WithTrailingCommas(o, x)
    case Quote(x) => WithQuoteStyle(o, x)
    case Encoding(x) => WithBinaryEncoding(o, x)
    case UnquotedKeys(x) => WithUnquotedKeys(o, x)
    case LeadingPlus(x) => WithLeadingPlus(o, x)
    case SortKeys(x) => WithSortKeys(o, x)
    case EscapeUnicode(x) => WithEscapeUnicode(o, x)
  }

  /** Two settings of the same field: the later one wins. */
  lemma LastWins(o: Options, a: Setting, b: Setting)
    requires a.Indent? == b.Indent? && a.TrailingCommas? == b.TrailingCommas? && a.Quote? == b.Quote?
    requires a.Encoding? == b.Encoding? && a.UnquotedKeys? == b.UnquotedKeys? && a.LeadingPlus? == b.LeadingPlus?
    requires a.SortKeys? == b.SortKeys? && a.EscapeUnicode? == b.EscapeUnicode?
    ensures Apply(Apply(o, a), b) == Apply(o, b)
  {
  }

  /** Settings of different fields can be applied in either order. */
  lemma SettersCommute(o: Options, a: Setting, b: Setting)
    requires !(a.Indent? && b.Indent?) && !(a.TrailingCommas? && b.TrailingCommas?) && !(a.Quote? && b.Quote?)
    requires !(a.Encoding? && b.Encoding?) && !(a.UnquotedKeys? && b.UnquotedKeys?)
    requires !(a.LeadingPlus? && b.LeadingPlus?) && !(a.SortKeys? && b.SortKeys?)
    requires !(a.EscapeUnicode? && b.EscapeUnicode?)
    ensures Apply(Apply(o, a), b) == Apply(Apply(o, b), a)
  {
  }

  /** The builder chain of the source's unit test: exactly the chained fields differ from the preset. */
  lemma BuilderExample()
    ensures var o := WithQuoteStyle(WithTrailingCommas(WithIndent(Compact(), "\t"), true), Scalars.Single);
            o.indent == "\t" && o.trailingCommas && o.quoteStyle == Scalars.Single
            && o == Compact().(indent := "\t", trailingCommas := true, quoteStyle := Scalars.Single)
  {
  }
}
