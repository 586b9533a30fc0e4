/**
 * Options of the block-syntax formatter: the default record and the
 * by-value `with_*` builder setters, each of which replaces one field.
 */
module JamlOptions {
  import Scalars

  /** Precision for timestamp fractional seconds. */
  datatype TimestampPrecision = Auto | Seconds | Milliseconds | Microseconds | Nanoseconds

  datatype Options = Options(
    quoteStyle: Scalars.QuoteStyle,
    binaryEncoding: Scalars.BinaryEncoding,
    unquotedKeys: bool,
    leadingPlus: bool,
    sortKeys: bool,
    escapeUnicode: bool,
    useZulu: bool,
    timestampPrecision: TimestampPrecision)

  /** `Options::default`. */
  function Default(): (o: Options)
    ensures o.quoteStyle == Scalars.Double && o.binaryEncoding == Scalars.Base64
    ensures o.unquotedKeys && !o.leadingPlus && o.sortKeys && !o.escapeUnicode
    ensures o.useZulu && o.timestampPrecision == Auto
  {
    Options(Scalars.Double, Scalars.Base64, true, false, true, false, true, Auto)
  }

  /** `Options::new` is the default. */
  function New(): (o: Options)
    ensures o == Default()
  {
    Default()
  }

  function WithQuoteStyle(o: Options, style: Scalars.QuoteStyle): (r: Options)
    ensures r.quoteStyle == style && r.(quoteStyle := o.quoteStyle) == o
  {
    o.(quoteStyle := style)
  }

  function WithBinaryEncoding(o: Options, encoding: Scalars.BinaryEncoding): (r: Options)
    ensures r.binaryEncoding == encoding && r.(binaryEncoding := o.binaryEncoding) == o
  {
    o.(binaryEncoding := encoding)
  }

  function WithUnquotedKeys(o: Options, enable: bool): (r: Options)
    ensures r.unquotedKeys == enable && r.(unquotedKeys := o.unquotedKeys) == o
  {
    o.(unquotedKeys := enable)
  }

  function WithLeadingPlus(o: Options, enable: bool): (r: Options)
    ensures r.leadingPlus == enable && r.(leadingPlus := o.leadingPlus) == o
  {
    o.(leadingPlus := enable)
  }

  function WithSortKeys(o: Options, enable: bool): (r: Options)
    ensures r.sortKeys == enable && r.(sortKeys := o.sortKeys) == o
  {
    o.(sortKeys := enable)
  }

  function WithEscapeUnicode(o: Options, enable: bool): (r: Options)
    ensures r.escapeUnicode == enable && r.(escapeUnicode := o.escapeUnicode) == o
  {
    o.(escapeUnicode := enable)
  }

  function WithUseZulu(o: Options, enable: bool): (r: Options)
    ensures r.useZulu == enable && r.(useZulu := o.useZulu) == o
  {
    o.(useZulu := enable)
  }

  function WithTimestampPrecision(o: Options, precision: TimestampPrecision): (r: Options)
    ensures r.timestampPrecision == precision && r.(timestampPrecision := o.timestampPrecision) == o
  {
    o.(timestampPrecision := precision)
  }

  /** One builder call, named by the field it sets. */
  datatype Setting =
    | Quote(quoteStyle: Scalars.QuoteStyle)
    | Encoding(binaryEncoding: Scalars.BinaryEncoding)
    | UnquotedKeys(unquotedKeys: bool)
    | LeadingPlus(leadingPlus: bool)
    | SortKeys(sortKeys: bool)
    | EscapeUnicode(escapeUnicode: bool)
    | UseZulu(useZulu: bool)
    | Precision(precision: TimestampPrecision)

  function Apply(o: Options, s: Setting): Options {
    match s
    case Quote(x) => WithQuoteStyle(o, x)
    case Encoding(x) => WithBinaryEncoding(o, x)
    case UnquotedKeys(x) => WithUnquotedKeys(o, x)
    case LeadingPlus(x) => WithLeadingPlus(o, x)
    case SortKeys(x) => WithSortKeys(o, x)
    case EscapeUnicode(x) => WithEscapeUnicode(o, x)
    case UseZulu(x) => WithUseZulu(o, x)
    case Precision(x) => WithTimestampPrecision(o, x)
  }

  /** Two settings of the same field: the later one wins. */
  lemma LastWins(o: Options, a: Setting, b: Setting)
    requires a.Quote? == b.Quote? && a.Encoding? == b.Encoding? && a.UnquotedKeys? == b.UnquotedKeys?
    requires a.LeadingPlus? == b.LeadingPlus? && a.SortKeys? == b.SortKeys? && a.EscapeUnicode? == b.EscapeUnicode?
    requires a.UseZulu? == b.UseZulu? && a.Precision? == b.Precision?
    ensures Apply(Apply(o, a), b) == Apply(o, b)
  {
  }

  /** Settings of different fields can be applied in either order. */
  lemma SettersCommute(o: Options, a: Setting, b: Setting)
    requires !(a.Quote? && b.Quote?) && !(a.Encoding? && b.Encoding?) && !(a.UnquotedKeys? && b.UnquotedKeys?)
    requires !(a.LeadingPlus? && b.LeadingPlus?) && !(a.SortKeys? && b.SortKeys?)
    requires !(a.EscapeUnicode? && b.EscapeUnicode?) && !(a.UseZulu? && b.UseZulu?)
    requires !(a.Precision? && b.Precision?)
    ensures Apply(Apply(o, a), b) == Apply(Apply(o, b), a)
  {
  }

  /** The builder chain of the source's unit test: exactly the chained fields differ from the preset. */
  lemma BuilderExample()
    ensures var o := WithSortKeys(WithUnquotedKeys(WithBinaryEncoding(WithQuoteStyle(New(), Scalars.Single), Scalars.Hex), false), false);
            o.quoteStyle == Scalars.Single && o.binaryEncoding == Scalars.Hex && !o.unquotedKeys && !o.sortKeys
            && o == Default().(quoteStyle := Scalars.Single, binaryEncoding := Scalars.Hex,
                               unquotedKeys := false, sortKeys := false)
  {
  }
}
