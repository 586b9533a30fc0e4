# jasn-rs formatting core in Dafny

This project models the formatting core of jasn-rs. JASN is a JSON-like text
format with separate integer and binary types. JAML is its indentation-based,
YAML-like sibling. The modelled parts are:

- **Values** (`src/value.rs`, `src/binary.rs`). `Value` is a closed variant
  type with narrowing accessors and `From` conversions. `Binary` is a byte
  vector newtype with its conversions and views. A `BTreeMap<String, Value>`
  is modelled as its entries in ascending key order.
- **Formatter options** (`src/formatter/options.rs`,
  `jaml/src/formatter/options.rs`). These are the presets and the by-value
  `with_*` builders. Each builder is a functional record update.
- **Shared scalar text** (module `Scalars`). This is the logic both
  formatters share: quote choice, the `format_string` escape table with
  `\uXXXX` and UTF-16 surrogate pairs, integers with an optional `+`, the
  identifier test for bare keys, hex and base64. Base64 follows section 4 of
  RFC 4648.
- **The bracketed formatter** (`src/formatter.rs`). It has a compact layout,
  chosen by an empty indent string, and a pretty layout with a trailing-comma
  policy. Its hex binary prefix is `h"`, while the block formatter writes
  `hex"`; each file is followed as written.
- **The block formatter** (`jaml/src/formatter.rs`). It writes one `- item`
  or `key: value` line per member, two spaces per nesting level. A nested
  block starts on the next line. An empty list or map is written as nothing.
- **The indentation tracker** (`jaml/src/parser/indent.rs`). It is a class
  whose `style` field is unset until the first non-empty indent fixes it.

Each formatter is specified by pure functions (`Render` and its helpers). The
source's loops become methods (`FormatString`, `FormatListPretty`,
`FormatMapPretty`, `FormatList`, `FormatMap`). Each method is proved to
produce exactly what the specification function describes.

The specification is checked against independent partners:

- Module `Readers` holds reference decoders for the escape table, integers,
  hex and base64. The round-trip lemmas prove that each written form reads
  back to its input.
- The layout lemmas prove that every line of a block starts with its indent.
- The sort-keys lemmas prove that `sort_keys` is invisible on well-formed maps.
- Literal lemmas reproduce the outputs the repository's tests expect.

## Model

| member | source | states |
|---|---|---|
| Indent.TabFromStr | jaml/src/parser/indent.rs:18-28 | all-tab text is `Hard`, all-space text is `Soft`, and text that is empty or mixes both is `None` (each an if-and-only-if) |
| Indent.TabFromRun | jaml/src/parser/indent.rs:18-28 | a non-empty run of one indent character is classified as that character's kind |
| Indent.Measure | jaml/src/parser/indent.rs:69-98 | empty indent gives level 0 with the style untouched; a mixed indent fails with `MixedIndent` carrying the text, and only then; an error never changes the style; an established style is never replaced; an accepted indent's level times the unit width is its length |
| Indent.FirstIndentEstablishes | jaml/src/parser/indent.rs:79-84 | the first non-empty indent of one kind gives level 1 and fixes the style to (its length, its kind) |
| Indent.EstablishedMeasure | jaml/src/parser/indent.rs:85-97 | once established: the same kind with a multiple of the unit gives length / unit; the other kind fails with `InconsistentIndentTab(established, found)`; a non-multiple fails with `InvalidIndentCount(unit, length)` |
| Indent.Tracker.constructor | jaml/src/parser/indent.rs:60-64 | a new tracker has no style |
| Indent.Tracker.Validate | jaml/src/parser/indent.rs:69-98 | the result and the new `style` field are exactly what `Measure` gives for the old style, and the unit width stays positive |
| Indent.TrackedLevels | jaml/src/parser/indent.rs:78-98 | over a document's lines, an established style never changes; when every line is accepted, each line's level times the final unit width equals its indent length, and empty indents are level 0 |
| Bytes.FromSlice | src/binary.rs:19-23 | the binary holds exactly the slice's bytes, in order |
| Bytes.FromArray | src/binary.rs:25-29 | the binary holds exactly the fixed array's bytes, in order |
| Bytes.SetByte | src/binary.rs:37-55 | a write through `as_mut` / `deref_mut` sets that one byte and leaves the length and every other byte unchanged |
| Bytes.VecRoundTrip | src/binary.rs:7-17 | `Vec<u8>` to `Binary` and back is the identity in both directions |
| Bytes.AsRefExposesBytes | src/binary.rs:31-49 | `as_ref` / deref expose exactly the wrapped bytes, with their length |
| Bytes.SetByteObserved | src/binary.rs:93-101 | after a one-index write, the exposed bytes are the old ones with that index updated |
| Bytes.SetByteExample | src/binary.rs:92-101 | the test's writes give `[99, 2, 3]` and `[4, 88, 6]` |
| Values.AsBool | src/value.rs:21-27 | `Some(b)` exactly when the value is `Bool(b)`, `None` otherwise |
| Values.AsInt | src/value.rs:29-35 | `Some(i)` exactly when the value is `Int(i)` |
| Values.AsFloat | src/value.rs:37-43 | `Some(f)` exactly when the value is `Float(f)` |
| Values.AsString | src/value.rs:45-51 | `Some(s)` exactly when the value is `String(s)` |
| Values.AsBinary | src/value.rs:53-59 | `Some(b)` exactly when the value is `Binary(b)` |
| Values.AsList | src/value.rs:61-67 | the items exactly when the value is a list |
| Values.AsMap | src/value.rs:69-75 | the entries exactly when the value is a map |
| Values.AtMostOneAccessor | src/value.rs:20-76 | at most one accessor answers `Some` for any value, and none does for `Null` |
| Values.FromVec | src/value.rs:120-127 | a vector becomes a list of the same length whose items are the converted elements, in order |
| Values.ScalarConversions | src/value.rs:78-118 | `()` becomes `Null`; `&str` / `String` become a `String` with the same text; each scalar conversion is read back by its accessor |
| Values.KeyLessTotal | src/formatter.rs:187-193 | the key order used for sorting is total; it is also irreflexive and transitive (`KeyLessIrreflexive`, `KeyLessTransitive`) |
| Values.SortByKeyPermutes | src/formatter.rs:187-193 | sorting by key keeps exactly the same entries (a permutation) |
| Values.SortByKeySorted | src/formatter.rs:187-193 | sorting by key leaves the keys in nondecreasing order |
| Values.OrderedEntriesPermutes | src/formatter.rs:187-193 | the walk order is a permutation of the map's entries, sorted by key when `sort_keys` is on |
| Values.SortByKeyOfSorted | src/value.rs:17 | re-sorting entries whose keys already ascend changes nothing |
| Values.OrderedEntriesOfBTreeMap | src/value.rs:17 | a `BTreeMap` is walked in its own key order whether `sort_keys` is on or off |
| Values.WellFormedInWalkOrder | src/value.rs:17 | in a value whose every map has strictly ascending keys, every nested map is already in walk order |
| Scalars.ChooseQuote | src/formatter.rs:29-39 | the quote is `"` or `'`, and it is `'` exactly for `Single`, or for `PreferDouble` on text with `"` and no `'` |
| Scalars.HexDigit | src/formatter.rs:107-110 | a digit below 16 becomes one lowercase hex character |
| Scalars.UnicodeEscape | src/formatter.rs:107-116 | a code unit below 0x10000 becomes a six-character `\uXXXX` escape |
| Scalars.HighSurrogate | src/formatter.rs:119-120 | a non-BMP code point's high half lies in D800-DBFF |
| Scalars.LowSurrogate | src/formatter.rs:119-121 | a non-BMP code point's low half lies in DC00-DFFF |
| Scalars.SurrogatePairRecombines | src/formatter.rs:117-123 | the two halves recombine into the original code point |
| Scalars.EscapeBodyConcat | src/formatter.rs:96-127 | escaping is character by character: the escape of a concatenation is the concatenation of the escapes |
| Scalars.EscapePiece | src/formatter.rs:97-126 | one character's piece is its entry in the escape table |
| Scalars.FormatString | src/formatter.rs:92-131 | the loop's output is the quote, the escaped characters in order, and the quote |
| Scalars.QuotedAscii | src/formatter.rs:111-124 | with `escape_unicode` on and an ASCII quote, the whole output is ASCII |
| Scalars.EscapeCharVerbatim | src/formatter.rs:97-126 | a character is copied unchanged exactly when it is neither the active quote, a backslash, `/`, a control character, nor (when escaping) non-ASCII |
| Scalars.EscapeBodyVerbatim | src/formatter.rs:96-127 | text made only of such characters is copied unchanged |
| Scalars.QuotedNoNewline | src/formatter.rs:102 | a quoted string never contains a raw newline |
| Scalars.KeyOneLine | src/formatter.rs:240-255 | a map key, bare or quoted, never contains a raw newline; both formatters write keys through this one definition (jaml/src/formatter.rs:268-283 is the same logic) |
| Scalars.NatText | src/formatter.rs:60-66 | decimal text is non-empty and all digits |
| Scalars.FormatInt | src/formatter.rs:60-66 | the text starts with `+` exactly when `leading_plus` is on and i >= 0, with `-` exactly when i < 0, and is digits after that |
| Scalars.FormatFloat | src/formatter.rs:68-90 | NaN is `nan` and never gets a `+`; infinities are `inf` / `-inf`, with `+inf` under `leading_plus`; a finite value is the library text, with a `+` exactly when `leading_plus` is on and the text has no leading `-` |
| Scalars.HexText | src/formatter.rs:140-143 | two lowercase hex characters per byte |
| Scalars.Base64Char | src/formatter.rs:135-139 | each sextet becomes a character of the standard alphabet |
| Scalars.Base64Encode | src/formatter.rs:135-139 | the output is four characters per started group of three bytes (padded) |
| Scalars.Base64Example | src/formatter.rs:330-333 | `Hello` encodes as `SGVsbG8=` |
| Scalars.Base64NoNewline | jaml/src/formatter.rs:199-203 | base64 text never contains a newline |
| Scalars.AllIdentContinue | src/formatter.rs:289-290 | true exactly when every character is an ASCII letter, digit or `_` |
| Scalars.CanBeUnquoted | src/formatter.rs:271-291 | true exactly when the key is non-empty, not `null`/`true`/`false`/`inf`/`nan`, starts with an ASCII letter or `_`, and continues with ASCII letters, digits or `_` |
| Scalars.CanBeUnquotedRejects | src/formatter.rs:406-411 | `""`, `123`, `null`, `true`, `false` and `kebab-case` must be quoted |
| Scalars.CanBeUnquotedHello | src/formatter.rs:401 | `hello` may be bare (likewise `CanBeUnquotedPrivate`, `CanBeUnquotedDigits`, `CanBeUnquotedUnderscore` for lines 402-404) |
| Scalars.FormatIntExamples | src/formatter.rs:415-447 | `+42`, `+0`, `-42` with a leading plus; `42`, `-123` without |
| Scalars.SurrogateEscapes | src/formatter.rs:505-506 | U+1F600 is escaped as the surrogate pair `\ud83d\ude00` |
| Scalars.LatinEscapes | src/formatter.rs:482-484 | U+00E9 is escaped as `\u00e9` |
| Readers.Hex4Reads | src/formatter.rs:107-110 | four hex digits read back to the code unit they encode |
| Readers.UnicodeEscapeReads | src/formatter.rs:107-116 | a `\uXXXX` escape of a non-surrogate reads back to that character |
| Readers.SurrogatePairReads | src/formatter.rs:117-123 | a surrogate-pair escape reads back to the original non-BMP character |
| Readers.EscapeCharReads | src/formatter.rs:97-126 | every table entry is non-empty, never starts with the active quote, and reads back to its character |
| Readers.EscapeBodyReads | src/formatter.rs:96-129 | an escaped body followed by the closing quote reads back to the original text, leaving what follows |
| Readers.QuotedReads | src/formatter.rs:535-552 | `format_string` output, followed by anything, reads back to the original string for every quote and escape setting |
| Readers.QuotedConsumesAll | src/formatter.rs:535-552 | reading a quoted string consumes exactly its text |
| Readers.FormatIntReads | src/formatter.rs:60-66 | integer text, with or without `+`, reads back to the integer |
| Readers.FormatIntInjective | src/formatter.rs:60-66 | distinct integers never share a text |
| Readers.HexTextReads | src/formatter.rs:140-143 | hex text reads back to the bytes |
| Readers.Base64Reads | src/formatter.rs:135-139 | base64 text decodes back to the bytes |
| JasnOptions.Compact | src/formatter/options.rs:37-48 | empty indent, no trailing commas, bare keys on, no `+`, `sort_keys` off, `escape_unicode` on, double quotes, base64 |
| JasnOptions.Pretty | src/formatter/options.rs:51-62 | indent of two spaces, trailing commas on, bare keys on, no `+`, `sort_keys` on, `escape_unicode` off, double quotes, base64 |
| JasnOptions.Default | src/formatter/options.rs:29-33 | the default is the pretty preset, which differs from the compact one |
| JasnOptions.WithIndent | src/formatter/options.rs:65-68 | sets the indent and leaves every other field as it was |
| JasnOptions.WithTrailingCommas | src/formatter/options.rs:71-74 | sets `trailing_commas` only |
| JasnOptions.WithQuoteStyle | src/formatter/options.rs:77-80 | sets `quote_style` only |
| JasnOptions.WithBinaryEncoding | src/formatter/options.rs:83-86 | sets `binary_encoding` only |
| JasnOptions.WithUnquotedKeys | src/formatter/options.rs:89-92 | sets `unquoted_keys` only |
| JasnOptions.WithLeadingPlus | src/formatter/options.rs:95-98 | sets `leading_plus` only |
| JasnOptions.WithSortKeys | src/formatter/options.rs:101-104 | sets `sort_keys` only |
| JasnOptions.WithEscapeUnicode | src/formatter/options.rs:107-110 | sets `escape_unicode` only |
| JasnOptions.LastWins | src/formatter/options.rs:65-110 | setting the same field twice keeps the last value |
| JasnOptions.SettersCommute | src/formatter/options.rs:65-110 | setters of different fields commute |
| JasnOptions.BuilderExample | src/formatter/options.rs:157-165 | the test's chain (tab indent, trailing commas, single quotes) yields the compact preset with exactly indent, trailing commas and quote style changed |
| JamlOptions.Default | jaml/src/formatter/options.rs:29-42 | double quotes, base64, bare keys on, no `+`, `sort_keys` on, `escape_unicode` off, `use_zulu` on, `Auto` precision |
| JamlOptions.New | jaml/src/formatter/options.rs:46-48 | `new()` is the default |
| JamlOptions.WithQuoteStyle | jaml/src/formatter/options.rs:51-54 | sets `quote_style` only |
| JamlOptions.WithBinaryEncoding | jaml/src/formatter/options.rs:57-60 | sets `binary_encoding` only |
| JamlOptions.WithUnquotedKeys | jaml/src/formatter/options.rs:63-66 | sets `unquoted_keys` only |
| JamlOptions.WithLeadingPlus | jaml/src/formatter/options.rs:69-72 | sets `leading_plus` only |
| JamlOptions.WithSortKeys | jaml/src/formatter/options.rs:75-78 | sets `sort_keys` only |
| JamlOptions.WithEscapeUnicode | jaml/src/formatter/options.rs:81-84 | sets `escape_unicode` only |
| JamlOptions.WithUseZulu | jaml/src/formatter/options.rs:87-90 | sets `use_zulu` only |
| JamlOptions.WithTimestampPrecision | jaml/src/formatter/options.rs:93-96 | sets `timestamp_precision` only |
| JamlOptions.LastWins | jaml/src/formatter/options.rs:51-96 | setting the same field twice keeps the last value |
| JamlOptions.SettersCommute | jaml/src/formatter/options.rs:51-96 | setters of different fields commute |
| JamlOptions.BuilderExample | jaml/src/formatter/options.rs:159-169 | the test's chain yields the default options with exactly quote style (single), binary encoding (hex), unquoted keys (off) and sort keys (off) changed |
| JasnFormatter.FormatWithOpts | src/formatter.rs:22-58 | the dispatch returns exactly the specified rendering of any value of this formatter's domain |
| JasnFormatter.FormatKey | src/formatter.rs:240-255 | a key is written bare when `unquoted_keys` is on and it is a plain identifier, quoted with the style's quote otherwise |
| JasnFormatter.FormatListPretty | src/formatter.rs:159-180 | the loop writes `[`, newline, one indented line per item, the closing indent and `]`; an empty list is `[]` |
| JasnFormatter.PushItemLine | src/formatter.rs:168-175 | one loop pass appends the item indent, the item at depth + 1, the comma the policy asks for and a newline |
| JasnFormatter.FormatMapPretty | src/formatter.rs:220-269 | the loop writes one `key: value` line per entry in walk order between `{` and `}`; an empty map is `{}` |
| JasnFormatter.PushEntryLine | src/formatter.rs:236-264 | one loop pass appends indent, key, `: `, the value at depth + 1, the comma the policy asks for and a newline |
| JasnFormatter.EmptyCollections | src/formatter.rs:147-223 | empty lists and maps are `[]` and `{}` in both layouts and at every depth |
| JasnFormatter.ScalarOneLine | src/formatter.rs:22-42 | null, booleans, integers, floats with one-line library text, strings and binaries are written without a newline |
| JasnFormatter.RenderLastChar | src/formatter.rs:22-58 | whatever is written is non-empty and does not end in a comma (a finite float's library text assumed non-empty and comma-free at its end) |
| JasnFormatter.CompactOneLine | src/formatter.rs:147-218 | with an empty indent string a value, however deeply nested, is written on a single line: compact items and members are joined by `,` with no newline |
| JasnFormatter.PrettyIndented | src/formatter.rs:159-180 | with an indent string holding no newline, every line after the first of a value written at depth d starts with d copies of the indent; a non-empty list is `[`, a newline, its item lines, d copies of the indent and `]` (a map the same with `{` and `}`), and those member lines start with, and keep every later line at, d + 1 copies of the indent |
| JasnFormatter.ItemLinesIndented | src/formatter.rs:164-175 | the item lines of a pretty list at depth d start with d + 1 copies of the indent (`item_indent`), and every later line inside an item starts with them too |
| JasnFormatter.EntryLinesIndented | src/formatter.rs:236-264 | the entry lines of a pretty map at depth d start with d + 1 copies of the indent, and every later line inside a value starts with them too |
| JasnFormatter.ItemLineCommas | src/formatter.rs:171-173 | the first i + 1 lines of a pretty list end in `,\n` exactly when item i is not the last or `trailing_commas` is on |
| JasnFormatter.EntryLineCommas | src/formatter.rs:260-262 | the first i + 1 lines of a pretty map end in `,\n` exactly when entry i (in walk order) is not the last or `trailing_commas` is on |
| JasnFormatter.RenderIgnoresSortKeys | src/formatter.rs:187-193 | on values whose maps are in walk order, the output is the same with `sort_keys` on or off, in both layouts and at any depth |
| JasnFormatter.SortKeysInvisible | src/formatter.rs:452-472 | for well-formed values (`BTreeMap` keys ascending), toggling `sort_keys` never changes the output |
| JasnFormatter.PrimitiveExamples | src/formatter.rs:299-305 | `null`, `true`, `false`, `42`, `-123` |
| JasnFormatter.CompactListExample | src/formatter.rs:336-341 | `[1, 2, 3]` compact is `[1,2,3]` |
| JasnFormatter.SortedMapExample | src/formatter.rs:452-463 | the zebra/apple/banana map is `{apple:2,banana:3,zebra:1}`, with and without `sort_keys` |
| JasnFormatter.NewlineEscapeExample | src/formatter.rs:319-322 | a newline inside a string is written as `\n` |
| JasnFormatter.LatinEscapeExample | src/formatter.rs:482-484 | the string U+00E9 with the compact preset is `"\u00e9"` |
| JasnFormatter.SurrogateEscapeExample | src/formatter.rs:505-506 | the string U+1F600 with the compact preset is `"\ud83d\ude00"` |
| JasnFormatter.BinaryExample | src/formatter.rs:330-333 | the bytes of `Hello` are `b64"SGVsbG8="` |
| JasnFormatter.PrettyMapExample | src/formatter.rs:388-397 | `to_string_pretty` of the name/age map is `{\n  age: 30,\n  name: "Alice",\n}`: it holds a newline and a two-space run |
| JamlFormatter.FormatImpl | jaml/src/formatter.rs:41-66 | the dispatch returns exactly the specified rendering of every value at every depth, inline or not |
| JamlFormatter.SwapSuffix | jaml/src/formatter.rs:126-148 | the result ends with the replacement and agrees with the input up to the removed suffix |
| JamlFormatter.FormatTimestamp | jaml/src/formatter.rs:116-154 | the text is the library text with its UTC suffix rewritten as the options ask, wrapped in `ts"…"` |
| JamlFormatter.SwapSuffixUndo | jaml/src/formatter.rs:126-153 | the `Z` to `+00:00` and `+00:00` to `Z` rewrites undo each other |
| JamlFormatter.TimestampSuffix | jaml/src/formatter.rs:126-153 | with `Auto` and `use_zulu` off no `Z` suffix survives; with a fixed precision and `use_zulu` on no `+00:00` suffix survives; in the other two combinations the library text is kept; any rewrite is undone by the opposite swap |
| JamlFormatter.FormatList | jaml/src/formatter.rs:211-243 | the loop's output is the specified block: nothing for an empty list, one `- ` line per item otherwise |
| JamlFormatter.PushItem | jaml/src/formatter.rs:221-240 | one loop pass appends the indent (dropped for the first inline item), `- ` and the child |
| JamlFormatter.FormatMap | jaml/src/formatter.rs:245-304 | the loop's output is the specified block: nothing for an empty map, one `key:` line per entry in walk order otherwise |
| JamlFormatter.PushEntries | jaml/src/formatter.rs:262-301 | the loop writes the lines of all entries in walk order |
| JamlFormatter.PushEntry | jaml/src/formatter.rs:262-301 | one loop pass extends the lines of the first i walked entries to the first i + 1 |
| JamlFormatter.PushChild | jaml/src/formatter.rs:288-300 | a list or map child goes on the next line as a block one level deeper; a scalar child follows the separator on the same line |
| JamlFormatter.BlockLayout | jaml/src/formatter.rs:211-304 | every line of a non-inline list or map block at depth d starts with 2·d spaces and ends with a newline |
| JamlFormatter.ChildLayout | jaml/src/formatter.rs:229-238 | a newline-free head that starts with the depth's indent, followed by its child, forms lines that all start with that indent |
| JamlFormatter.ScalarOneLine | jaml/src/formatter.rs:43-62 | a scalar renders on one line, given the library texts are one line |
| JamlFormatter.InlineDropsFirstIndent | jaml/src/formatter.rs:211-224 | scalars ignore `inline`; a list or map renders as nothing exactly when it is empty; a non-empty one inline is the same block minus its first indent |
| JamlFormatter.RenderIgnoresSortKeys | jaml/src/formatter.rs:254-260 | on values whose maps are in walk order, `sort_keys` does not change the output |
| JamlFormatter.SortKeysInvisible | jaml/src/formatter.rs:254-260 | for well-formed values, toggling `sort_keys` never changes `format_with_opts` |
| JamlFormatter.KeyReadsBack | jaml/src/formatter.rs:268-283 | a key's text starts with an identifier character exactly when it is written bare, and is then the key itself; otherwise it reads back to the key as a quoted string |
| JamlFormatter.BinaryReadsBack | jaml/src/formatter.rs:197-209 | binary text is `b64"…"` or `hex"…"` around text that decodes back to the bytes |
| JamlFormatter.ListExample | jaml/tests/formatter.rs:14-18 | `[1, 2, 3]` formats as `- 1\n- 2\n- 3\n` |
| JamlFormatter.MapExample | jaml/tests/formatter.rs:21-28 | the age/name map formats as `age: 30\nname: "Alice"\n` |
| JamlFormatter.NestedExample | jaml/tests/formatter.rs:31-43 | the nested config map formats as `config:\n  count: 5\n  enabled: true\n` |

## Left out

- The parsers and the literal lexer are not part of this model. Module
  `Readers` is a reference decoder for the formatters' output, written from
  the escape table and the literal forms. It is not the repository's parser.
- Float text. A finite `f64` is opaque: its IEEE-754 classification plus the
  decimal text the standard library prints. Only the `inf`/`-inf`/`nan` cases
  and the leading-plus rule are modelled.
- Scalars.FormatFloat: for a finite value the text itself (`{:.1}` below 1e15,
  `to_string` otherwise) is taken as given, not computed.
- Timestamp text. The `time` crate's RFC 3339 and fixed-precision outputs are
  opaque strings carried by the value. Only the `Z` / `+00:00` suffix rewrite
  and the `ts"…"` wrapper are modelled. The `unwrap_or_else(to_string)`
  fallback is not modelled, because the crate call is not part of this model.
- Base64 is written per section 4 of RFC 4648 (standard alphabet, padded),
  not as the `base64` crate.
- Scalars.Base64Encode: its contract gives only the length. The content is
  pinned by `Readers.Base64Reads` (decoding gives the bytes back) and
  `Scalars.Base64Example`.
- Indent.Measure: `len()` counts UTF-8 bytes and the model counts
  characters, so the two agree only on ASCII indent text. `Tab::from_str`
  accepts any tab-free text holding a space (a space followed by `é`, say),
  and on such text the source's unit width, later levels and error payloads
  differ from the model's. The caller that cuts the indent string out of a
  line is not part of this model.
- Error enums are modelled only as the `IndentError` datatype. Its payloads
  follow the constructor calls in `jaml/src/parser/indent.rs`, which disagree
  with the variant declarations in `jaml/src/parser/error.rs`.
- One `Value` datatype serves both formatters. In this snapshot,
  `src/value.rs` has no timestamp variant while the block formatter has one.
  The bracketed formatter's functions therefore require a value without
  timestamps (`JasnFormatter.Bracketable`).
- `Tab`'s and `Style`'s `Display` impls are left out. They only print.
- The serde bridge, the CLI binaries, the examples and the file-driven tests
  are left out. They are I/O and adapters over external crates.
- Integers are unbounded in Dafny. `i64` and `u8` are subset types, so no
  arithmetic here can wrap.
- JasnFormatter.CompactOneLine, JasnFormatter.PrettyIndented,
  JasnFormatter.ItemLinesIndented, JasnFormatter.EntryLinesIndented: a float's
  library text is opaque, so they assume it holds no newline
  (`FloatTextsOneLine`). The three layout lemmas also assume an indent string
  without a newline; with one, the property fails.
- JasnFormatter.ItemLineCommas, JasnFormatter.EntryLineCommas: they assume
  that the line's finite float text, if any, is non-empty and does not end
  in a comma (`FloatTextEnds`).
