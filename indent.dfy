/**
 * The block syntax's indentation tracker. The first non-empty indent of a
 * document fixes the unit (its length and its character, tab or space); every
 * later indent must use the same character and be a whole number of units,
 * and its nesting level is that number.
 */
module Indent {
  import opened Wrappers
  import Text

  /** The indentation character: `Hard` is a tab, `Soft` a space. */
  datatype Tab = Hard | Soft

  function AsChar(t: Tab): char {
    match t
    case Hard => '\t'
    case Soft => ' '
  }

  /**
   * `Tab::from_str`: the character family of an indent string, or `None` when
   * it mixes tabs and spaces or has neither.
   */
  function TabFromStr(s: string): (r: Option<Tab>)
    ensures r == Some(Hard) <==> '\t' in s && ' ' !in s
    ensures r == Some(Soft) <==> ' ' in s && '\t' !in s
    ensures r == None <==> ('\t' in s <==> ' ' in s)
  {
    if '\t' in s && ' ' in s then None
    else if '\t' in s then Some(Hard)
    else if ' ' in s then Some(Soft)
    else None
  }

  /** A run of `n > 0` copies of one indentation character is classified as that character. */
  lemma TabFromRun(t: Tab, n: nat)
    requires n > 0
    ensures TabFromStr(Text.Repeat([AsChar(t)], n)) == Some(t)
  {
    var s := Text.Repeat([AsChar(t)], n);
    assert s[0] == AsChar(t) by { Text.RepeatChars([AsChar(t)], n, 0); }
    forall i | 0 <= i < |s| ensures s[i] == AsChar(t) {
      Text.RepeatChars([AsChar(t)], n, i);
    }
  }

  /** `Style`: the unit width and character of a document's indentation. */
  datatype Style = Style(count: nat, tab: Tab)

  /** The errors `Tracker::validate` reports. */
  datatype IndentError =
    | MixedIndent(indent: string)
    | InconsistentIndentTab(expected: Tab, foundTab: Tab)
    | InvalidIndentCount(unit: nat, length: nat)

  /** An established style always has a positive width. */
  predicate ValidStyle(style: Option<Style>) {
    style.Some? ==> style.value.count > 0
  }

  /**
   * What `Tracker::validate` returns for `indent` when the tracker holds
   * `style`, paired with the style it holds afterwards.
   */
  function Measure(style: Option<Style>, indent: string): (r: (Result<nat, IndentError>, Option<Style>))
    requires ValidStyle(style)
    ensures ValidStyle(r.1)
    ensures r.0.Err? ==> r.1 == style
    ensures style.Some? ==> r.1 == style
    ensures indent == [] ==> r == (Ok(0), style)
    ensures r.0 == Err(MixedIndent(indent)) <==> indent != [] && TabFromStr(indent) == None
    ensures r.0.Ok? && indent != [] ==> r.1.Some? && r.0.value * r.1.value.count == |indent|
  {
    if indent == [] then (Ok(0), style)
    else match TabFromStr(indent)
      case None => (Err(MixedIndent(indent)), style)
      case Some(tab) =>
        match style
        case None => (Ok(1), Some(Style(|indent|, tab)))
        case Some(st) =>
          if tab != st.tab then (Err(InconsistentIndentTab(st.tab, tab)), style)
          else if |indent| % st.count != 0 then (Err(InvalidIndentCount(st.count, |indent|)), style)
          else (Ok(|indent| / st.count), style)
  }

  /** The first non-empty, unmixed indent establishes the unit and is level 1. */
  lemma FirstIndentEstablishes(indent: string, tab: Tab)
    requires indent != [] && TabFromStr(indent) == Some(tab)
    ensures Measure(None, indent) == (Ok(1), Some(Style(|indent|, tab)))
  {
  }

  /**
   * Once established, an indent is accepted exactly when it uses the
   * established character and is a whole number of units; the level is that
   * number, and each rejection names what was expected and what was found.
   */
  lemma EstablishedMeasure(st: Style, indent: string, found: Tab)
    requires st.count > 0 && indent != []
    ensures TabFromStr(indent) == Some(st.tab) && |indent| % st.count == 0
            <==> Measure(Some(st), indent).0 == Ok(|indent| / st.count)
    ensures TabFromStr(indent) == Some(found) && found != st.tab
            <==> Measure(Some(st), indent).0 == Err(InconsistentIndentTab(st.tab, found))
    ensures TabFromStr(indent) == Some(st.tab) && |indent| % st.count != 0
            <==> Measure(Some(st), indent).0 == Err(InvalidIndentCount(st.count, |indent|))
  {
  }

  /**
   * `Tracker`: the indentation state of one document, unestablished until the
   * first non-empty indent.
   */
  class Tracker {
    var style: Option<Style>

    ghost predicate Valid()
      reads this
    {
      ValidStyle(style)
    }

    /** `Tracker::default()`: no style yet. */
    constructor ()
      ensures Valid() && style == None
    {
      style := None;
    }

    /** `Tracker::validate`: the nesting level of `indent`, fixing the unit on the first indent. */
    method Validate(indent: string) returns (r: Result<nat, IndentError>)
      requires Valid()
      modifies this
      ensures Valid()
      ensures (r, style) == Measure(old(style), indent)
    {
      if |indent| == 0 {
        return Ok(0);
      }
      var tab: Tab;
      if '\t' in indent && ' ' in indent {
        return Err(MixedIndent(indent));
      } else if '\t' in indent {
        tab := Hard;
      } else if ' ' in indent {
        tab := Soft;
      } else {
        return Err(MixedIndent(indent));
      }
      match style {
        case None =>
          var count := |indent|;
          style := Some(Style(count, tab));
          r := Ok(1);
        case Some(st) =>
          if tab != st.tab {
            return Err(InconsistentIndentTab(st.tab, tab));
          }
          var count := |indent|;
          if count % st.count != 0 {
            return Err(InvalidIndentCount(st.count, count));
          }
          r := Ok(count / st.count);
      }
    }
  }

  /**
   * The levels a tracker reports for the indents of a document's lines, in
   * order, stopping at the first error, with the style it holds at the end.
   */
  function Track(style: Option<Style>, indents: seq<string>): (Result<seq<nat>, IndentError>, Option<Style>)
    requires ValidStyle(style)
    decreases |indents|
  {
    if indents == [] then (Ok([]), style)
    else
      var (r, st) := Measure(style, indents[0]);
      match r
      case Err(e) => (Err(e), st)
      case Ok(level) =>
        var (rest, final) := Track(st, indents[1..]);
        match rest
        case Err(e) => (Err(e), final)
        case Ok(levels) => (Ok([level] + levels), final)
  }

  /**
   * Across a whole document: once a style is established it is never replaced,
   * and when every line is accepted each level times the final unit width is
   * exactly the length of that line's indent.
   */
  lemma {:induction false} TrackedLevels(style: Option<Style>, indents: seq<string>)
    requires ValidStyle(style)
    ensures style.Some? ==> Track(style, indents).1 == style
    ensures ValidStyle(Track(style, indents).1)
    ensures Track(style, indents).0.Ok? ==>
      |Track(style, indents).0.value| == |indents| &&
      forall i | 0 <= i < |indents| ::
        (if indents[i] == [] then Track(style, indents).0.value[i] == 0
         else Track(style, indents).1.Some? &&
              Track(style, indents).0.value[i] * Track(style, indents).1.value.count == |indents[i]|)
    decreases |indents|
  {
    if indents != [] {
      var (r, st) := Measure(style, indents[0]);
      TrackedLevels(st, indents[1..]);
      if r.Ok? {
        var (rest, final) := Track(st, indents[1..]);
        if rest.Ok? {
          var levels := [r.value] + rest.value;
          assert Track(style, indents) == (Ok(levels), final);
          forall i | 0 <= i < |indents|
            ensures if indents[i] == [] then levels[i] == 0
                    else final.Some? && levels[i] * final.value.count == |indents[i]|
          {
            if i == 0 {
              if indents[0] != [] {
                assert st.Some? && final == st;
              }
            } else {
              assert levels[i] == rest.value[i - 1] && indents[i] == indents[1..][i - 1];
            }
          }
        }
      }
    }
  }
}
