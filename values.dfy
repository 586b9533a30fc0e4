/**
 * The shared value model: a closed variant type, its narrowing accessors,
 * the `From` conversions, and the key order of a map (a `BTreeMap<String, Value>`
 * is modelled as its entries in ascending key order).
 */
module Values {
  import opened Wrappers
  import Bytes

  /** Rust's `i64`. */
  type i64 = x: int | -0x8000_0000_0000_0000 <= x < 0x8000_0000_0000_0000

  /**
   * An `f64`, kept opaque: the IEEE-754 classification the formatters test
   * and `text`, the decimal text the standard library prints for a finite value
   * (`{:.1}` for whole values below 1e15, `to_string` otherwise).
   */
  datatype F64 = F64(isNan: bool, isInfinite: bool, isSignNegative: bool, text: string)

  /**
   * An `OffsetDateTime`, kept opaque: the text the `time` crate produces for it
   * in RFC 3339 and in each of the four fixed-precision layouts (all with a
   * numeric offset).
   */
  datatype OffsetDateTime = OffsetDateTime(
    rfc3339: string, seconds: string, millis: string, micros: string, nanos: string)

  datatype Value =
    | Null
    | Bool(b: bool)
    | Int(i: i64)
    | Float(f: F64)
    | String(s: string)
    | Binary(bin: Bytes.Binary)
    | Timestamp(t: OffsetDateTime)
    | List(items: seq<Value>)
    | Map(entries: seq<Entry>)

  /** One `(key, value)` pair of a map. */
  datatype Entry = Entry(key: string, value: Value)

  // ---------------------------------------------------------------------------
  // Narrowing accessors
  // ---------------------------------------------------------------------------

  function AsBool(v: Value): (r: Option<bool>)
    ensures r.Some? <==> v.Bool?
    ensures v.Bool? ==> r == Some(v.b)
  {
    if v.Bool? then Some(v.b) else None
  }

  function AsInt(v: Value): (r: Option<i64>)
    ensures r.Some? <==> v.Int?
    ensures v.Int? ==> r == Some(v.i)
  {
    if v.Int? then Some(v.i) else None
  }

  function AsFloat(v: Value): (r: Option<F64>)
    ensures r.Some? <==> v.Float?
    ensures v.Float? ==> r == Some(v.f)
  {
    if v.Float? then Some(v.f) else None
  }

  function AsString(v: Value): (r: Option<string>)
    ensures r.Some? <==> v.String?
    ensures v.String? ==> r == Some(v.s)
  {
    if v.String? then Some(v.s) else None
  }

  function AsBinary(v: Value): (r: Option<Bytes.Binary>)
    ensures r.Some? <==> v.Binary?
    ensures v.Binary? ==> r == Some(v.bin)
  {
    if v.Binary? then Some(v.bin) else None
  }

  function AsList(v: Value): (r: Option<seq<Value>>)
    ensures r.Some? <==> v.List?
    ensures v.List? ==> r == Some(v.items)
  {
    if v.List? then Some(v.items) else None
  }

  function AsMap(v: Value): (r: Option<seq<Entry>>)
    ensures r.Some? <==> v.Map?
    ensures v.Map? ==> r == Some(v.entries)
  {
    if v.Map? then Some(v.entries) else None
  }

  /** The number of accessors that answer `Some` for `v`. */
  function AccessorHits(v: Value): nat {
    (if AsBool(v).Some? then 1 else 0) + (if AsInt(v).Some? then 1 else 0)
    + (if AsFloat(v).Some? then 1 else 0) + (if AsString(v).Some? then 1 else 0)
    + (if AsBinary(v).Some? then 1 else 0) + (if AsList(v).Some? then 1 else 0)
    + (if AsMap(v).Some? then 1 else 0)
  }

  /** At most one accessor answers for any value; for `Null` and `Timestamp`, none does. */
  lemma AtMostOneAccessor(v: Value)
    ensures AccessorHits(v) <= 1
    ensures v.Null? || v.Timestamp? <==> AccessorHits(v) == 0
  {
  }

  // ---------------------------------------------------------------------------
  // `From` conversions
  // ---------------------------------------------------------------------------

  /** `From<()>`. */
  function FromUnit(): Value {
    Null
  }

  /** `From<&str>` and `From<String>`: the text is kept as is. */
  function FromStr(s: string): Value {
    String(s)
  }

  /**
   * `From<Vec<V>>` for any `V: Into<Value>`: each element converted by
   * `into`, in order.
   */
  function FromVec<V>(xs: seq<V>, into: V -> Value): (r: Value)
    ensures r.List? && |r.items| == |xs|
    ensures forall i | 0 <= i < |xs| :: r.items[i] == into(xs[i])
  {
    List(seq(|xs|, i requires 0 <= i < |xs| => into(xs[i])))
  }

  /** The scalar conversions each land in their own variant and the accessor gives the input back. */
  lemma ScalarConversions(b: bool, i: i64, f: F64, s: string, bin: Bytes.Binary)
    ensures FromUnit() == Null && AccessorHits(FromUnit()) == 0
    ensures AsBool(Bool(b)) == Some(b) && AsInt(Int(i)) == Some(i)
    ensures AsFloat(Float(f)) == Some(f) && AsBinary(Binary(bin)) == Some(bin)
    ensures AsString(FromStr(s)) == Some(s)
  {
  }

  // ---------------------------------------------------------------------------
  // Key order
  // ---------------------------------------------------------------------------

  /**
   * Rust's `Ord` for `String`: lexicographic over UTF-8 bytes, which orders
   * exactly as lexicographic comparison of code points.
   */
  predicate KeyLess(a: string, b: string)
    decreases |a|
  {
    if a == [] then b != []
    else if b == [] then false
    else a[0] < b[0] || (a[0] == b[0] && KeyLess(a[1..], b[1..]))
  }

  lemma {:induction false} KeyLessIrreflexive(a: string)
    ensures !KeyLess(a, a)
    decreases |a|
  {
    if a != [] {
      KeyLessIrreflexive(a[1..]);
    }
  }

  lemma {:induction false} KeyLessTransitive(a: string, b: string, c: string)
    requires KeyLess(a, b) && KeyLess(b, c)
    ensures KeyLess(a, c)
    decreases |a|
  {
    if a != [] && a[0] == b[0] && b[0] == c[0] {
      KeyLessTransitive(a[1..], b[1..], c[1..]);
    }
  }

  lemma {:induction false} KeyLessTotal(a: string, b: string)
    ensures a == b || KeyLess(a, b) || KeyLess(b, a)
    decreases |a|
  {
    if a != [] && b != [] && a[0] == b[0] {
      KeyLessTotal(a[1..], b[1..]);
      if a[1..] == b[1..] {
        assert a == [a[0]] + a[1..] && b == [b[0]] + b[1..];
      }
    }
  }

  lemma {:induction false} KeyLessAsymmetric(a: string, b: string)
    requires KeyLess(a, b)
    ensures !KeyLess(b, a)
    decreases |a|
  {
    if a != [] && b != [] && a[0] == b[0] {
      KeyLessAsymmetric(a[1..], b[1..]);
    }
  }

  /** The entries are in strictly ascending key order: the order a `BTreeMap` iterates in. */
  predicate SortedKeys(es: seq<Entry>) {
    forall i, j | 0 <= i < j < |es| :: KeyLess(es[i].key, es[j].key)
  }

  /** The entries are in ascending key order, possibly with repeated keys. */
  predicate NondecreasingKeys(es: seq<Entry>) {
    forall i, j | 0 <= i < j < |es| :: !KeyLess(es[j].key, es[i].key)
  }

  /** Every map inside `v` is a valid `BTreeMap`: keys unique and ascending. */
  predicate WellFormed(v: Value)
    decreases v
  {
    match v
    case List(items) => forall i | 0 <= i < |items| :: WellFormed(items[i])
    case Map(es) => SortedKeys(es) && forall i | 0 <= i < |es| :: WellFormed(es[i].value)
    case _ => true
  }

  /**
   * Inserts `e` after every leading entry whose key is not greater than its
   * own; used by `SortByKey`, which thereby keeps equal keys in their
   * original order.
   */
  function InsertByKey(e: Entry, sorted: seq<Entry>): (r: seq<Entry>)
    ensures |r| == |sorted| + 1
    decreases |sorted|
  {
    if sorted == [] then [e]
    else if KeyLess(e.key, sorted[0].key) then [e] + sorted
    else [sorted[0]] + InsertByKey(e, sorted[1..])
  }

  /** Insertion adds exactly the one entry. */
  lemma {:induction false} InsertByKeyPermutes(e: Entry, sorted: seq<Entry>)
    ensures multiset(InsertByKey(e, sorted)) == multiset(sorted) + multiset{e}
    decreases |sorted|
  {
    if sorted != [] && !KeyLess(e.key, sorted[0].key) {
      InsertByKeyPermutes(e, sorted[1..]);
      assert sorted == [sorted[0]] + sorted[1..];
    }
  }

  /** Insertion into an ordered sequence keeps it ordered. */
  lemma {:induction false} InsertByKeySorted(e: Entry, sorted: seq<Entry>)
    requires NondecreasingKeys(sorted)
    ensures NondecreasingKeys(InsertByKey(e, sorted))
    decreases |sorted|
  {
    if sorted == [] {
    } else if KeyLess(e.key, sorted[0].key) {
      InsertLeadingKeys(e, sorted);
    } else {
      KeyLessTotal(e.key, sorted[0].key);
      assert NondecreasingKeys(sorted[1..]);
      InsertByKeySorted(e, sorted[1..]);
      InsertByKeyPermutes(e, sorted[1..]);
      assert sorted == [sorted[0]] + sorted[1..];
      LeadingKeyBelow(sorted[0], sorted[1..], InsertByKey(e, sorted[1..]), e);
    }
  }

  lemma InsertLeadingKeys(e: Entry, sorted: seq<Entry>)
    requires sorted != [] && NondecreasingKeys(sorted) && KeyLess(e.key, sorted[0].key)
    ensures NondecreasingKeys([e] + sorted)
  {
    var r := [e] + sorted;
    forall i, j | 0 <= i < j < |r|
      ensures !KeyLess(r[j].key, r[i].key)
    {
      if i == 0 {
        if j > 1 {
          KeyLessTotal(sorted[0].key, sorted[j - 1].key);
          if KeyLess(sorted[0].key, sorted[j - 1].key) {
            KeyLessTransitive(e.key, sorted[0].key, sorted[j - 1].key);
          }
          KeyLessAsymmetric(e.key, sorted[j - 1].key);
        } else {
          KeyLessAsymmetric(e.key, sorted[0].key);
        }
      }
    }
  }

  lemma LeadingKeyBelow(first: Entry, tail: seq<Entry>, rest: seq<Entry>, e: Entry)
    requires NondecreasingKeys([first] + tail) && NondecreasingKeys(rest)
    requires multiset(rest) == multiset(tail) + multiset{e}
    requires !KeyLess(e.key, first.key)
    ensures NondecreasingKeys([first] + rest)
  {
    var r := [first] + rest;
    forall i, j | 0 <= i < j < |r|
      ensures !KeyLess(r[j].key, r[i].key)
    {
      if i == 0 {
        var x := r[j];
        assert x in multiset(rest);
        if x == e {
        } else {
          assert x in multiset(tail);
          var k :| 0 <= k < |tail| && tail[k] == x;
          assert ([first] + tail)[k + 1] == x;
          assert ([first] + tail)[0] == first;
        }
      } else {
        assert r[i] == rest[i - 1] && r[j] == rest[j - 1];
      }
    }
  }

  /**
   * `sort_by_key(|(k, _)| *k)`: a stable sort of the entries by key, as the
   * formatters apply when `sort_keys` is on.
   */
  function SortByKey(es: seq<Entry>): (r: seq<Entry>)
    ensures |r| == |es|
    decreases |es|
  {
    if es == [] then [] else InsertByKey(es[|es| - 1], SortByKey(es[..|es| - 1]))
  }

  /** Sorting is a permutation: no entry is lost, duplicated or invented. */
  lemma {:induction false} SortByKeyPermutes(es: seq<Entry>)
    ensures multiset(SortByKey(es)) == multiset(es)
    decreases |es|
  {
    if es != [] {
      var init, last := es[..|es| - 1], es[|es| - 1];
      SortByKeyPermutes(init);
      InsertByKeyPermutes(last, SortByKey(init));
      assert es == init + [last];
      assert multiset(es) == multiset(init) + multiset{last};
    }
  }

  /** Sorting leaves the keys in ascending order. */
  lemma {:induction false} SortByKeySorted(es: seq<Entry>)
    ensures NondecreasingKeys(SortByKey(es))
    decreases |es|
  {
    if es != [] {
      var init, last := es[..|es| - 1], es[|es| - 1];
      SortByKeySorted(init);
      InsertByKeySorted(last, SortByKey(init));
    }
  }

  /** The entries a formatter walks: sorted when `sort_keys` is on, in map order otherwise. */
  function OrderedEntries(es: seq<Entry>, sortKeys: bool): (r: seq<Entry>)
    ensures |r| == |es|
  {
    if sortKeys then SortByKey(es) else es
  }

  /** The walk visits every entry exactly once, in ascending key order when `sort_keys` is on. */
  lemma OrderedEntriesPermutes(es: seq<Entry>, sortKeys: bool)
    ensures multiset(OrderedEntries(es, sortKeys)) == multiset(es)
    ensures sortKeys ==> NondecreasingKeys(OrderedEntries(es, sortKeys))
  {
    SortByKeyPermutes(es);
    SortByKeySorted(es);
  }

  /** Every entry the formatter walks is an entry of the map. */
  lemma OrderedEntryIn(es: seq<Entry>, sortKeys: bool, i: nat)
    requires i < |es|
    ensures OrderedEntries(es, sortKeys)[i] in es
  {
    var r := OrderedEntries(es, sortKeys);
    OrderedEntriesPermutes(es, sortKeys);
    assert r[i] in multiset(r);
  }

  /**
   * On a `BTreeMap`, whose entries are already in ascending key order, sorting
   * changes nothing: `sort_keys` has no visible effect.
   */
  lemma {:induction false} SortByKeyOfSorted(es: seq<Entry>)
    requires SortedKeys(es)
    ensures SortByKey(es) == es
    decreases |es|
  {
    if es != [] {
      var init := es[..|es| - 1];
      var last := es[|es| - 1];
      assert SortedKeys(init);
      SortByKeyOfSorted(init);
      InsertAtEnd(last, init);
      assert es == init + [last];
    }
  }

  /** An entry whose key is above every key already present goes last. */
  lemma {:induction false} InsertAtEnd(e: Entry, sorted: seq<Entry>)
    requires forall i | 0 <= i < |sorted| :: KeyLess(sorted[i].key, e.key)
    ensures InsertByKey(e, sorted) == sorted + [e]
    decreases |sorted|
  {
    if sorted != [] {
      KeyLessAsymmetric(sorted[0].key, e.key);
      InsertAtEnd(e, sorted[1..]);
      assert sorted == [sorted[0]] + sorted[1..];
    }
  }

  /** For a valid map, the walked entries are the map's own, whatever `sort_keys` says. */
  lemma OrderedEntriesOfBTreeMap(es: seq<Entry>, sortKeys: bool)
    requires SortedKeys(es)
    ensures OrderedEntries(es, sortKeys) == es
  {
    SortByKeyOfSorted(es);
  }

  /**
   * Every map inside `v` is walked in its own order whichever way `sort_keys`
   * is set: the property of a valid value the formatters rely on.
   */
  predicate InWalkOrder(v: Value)
    decreases v
  {
    (v.List? ==> forall i | 0 <= i < |v.items| :: InWalkOrder(v.items[i]))
    && (v.Map? ==> SortByKey(v.entries) == v.entries
                   && forall i | 0 <= i < |v.entries| :: InWalkOrder(v.entries[i].value))
  }

  lemma {:induction false} WellFormedInWalkOrder(v: Value)
    requires WellFormed(v)
    ensures InWalkOrder(v)
    decreases v
  {
    match v
    case List(items) =>
      forall i | 0 <= i < |items|
        ensures InWalkOrder(items[i])
      {
        WellFormedInWalkOrder(items[i]);
      }
    case Map(es) =>
      SortByKeyOfSorted(es);
      forall i | 0 <= i < |es|
        ensures InWalkOrder(es[i].value)
      {
        WellFormedInWalkOrder(es[i].value);
      }
    case _ =>
  }
}
