/** Small string helpers: `str::repeat`, `[String]::join` and prefix/suffix tests. */
module Text {

  /** `s.repeat(n)`. */
  function Repeat(s: string, n: nat): (r: string)
    ensures |r| == n * |s|
    decreases n
  {
    if n == 0 then [] else s + Repeat(s, n - 1)
  }

  /** Every character of `Repeat(s, n)` is a character of `s`. */
  lemma {:induction false} RepeatChars(s: string, n: nat, i: nat)
    requires i < |Repeat(s, n)|
    ensures Repeat(s, n)[i] in s
    decreases n
  {
    if i < |s| {
      assert Repeat(s, n)[i] == s[i];
    } else {
      assert Repeat(s, n)[i] == Repeat(s, n - 1)[i - |s|];
      RepeatChars(s, n - 1, i - |s|);
    }
  }

  /** One more repetition appends one more copy: `repeat(n + 1) == repeat(n) + s`. */
  lemma {:induction false} RepeatSucc(s: string, n: nat)
    ensures Repeat(s, n + 1) == Repeat(s, n) + s
    decreases n
  {
    if n > 0 {
      RepeatSucc(s, n - 1);
      assert Repeat(s, n + 1) == s + (Repeat(s, n - 1) + s);
    }
  }

  /** A character that is not in `s` is not in any repetition of `s`. */
  lemma RepeatAvoids(s: string, n: nat, c: char)
    requires c !in s
    ensures c !in Repeat(s, n)
  {
    if c in Repeat(s, n) {
      var k :| 0 <= k < |Repeat(s, n)| && Repeat(s, n)[k] == c;
      RepeatChars(s, n, k);
      assert false;
    }
  }

  /** Fewer repetitions are a prefix of more: `repeat(n)` starts `repeat(n + 1)`. */
  lemma RepeatPrefix(s: string, n: nat)
    ensures StartsWith(Repeat(s, n + 1), Repeat(s, n))
  {
    RepeatSucc(s, n);
    StartsWithAppend(Repeat(s, n), s, Repeat(s, n));
  }

  /** Concatenation regroups freely; stated once so that callers need not reason element by element. */
  lemma AppendAssoc(a: string, b: string, c: string)
    ensures (a + b) + c == a + (b + c)
  {
  }

  /** `parts.join(sep)`. */
  function Join(parts: seq<string>, sep: string): (r: string)
    ensures parts == [] ==> r == []
    ensures |parts| == 1 ==> r == parts[0]
    decreases |parts|
  {
    if parts == [] then []
    else if |parts| == 1 then parts[0]
    else parts[0] + sep + Join(parts[1..], sep)
  }

  /** A character in no part and not in the separator is not in the joined text. */
  lemma {:induction false} JoinAvoids(parts: seq<string>, sep: string, c: char)
    requires c !in sep && forall i | 0 <= i < |parts| :: c !in parts[i]
    ensures c !in Join(parts, sep)
    decreases |parts|
  {
    if |parts| > 1 {
      assert forall i | 0 <= i < |parts[1..]| :: parts[1..][i] == parts[i + 1];
      JoinAvoids(parts[1..], sep, c);
    }
  }

  predicate StartsWith(s: string, prefix: string) {
    |prefix| <= |s| && s[..|prefix|] == prefix
  }

  /** Appending keeps a prefix. */
  lemma StartsWithAppend(s: string, t: string, prefix: string)
    requires StartsWith(s, prefix)
    ensures StartsWith(s + t, prefix)
  {
    assert (s + t)[..|prefix|] == s[..|prefix|];
  }

  /** A prefix of a prefix is a prefix. */
  lemma StartsWithTransitive(s: string, t: string, prefix: string)
    requires StartsWith(s, t) && StartsWith(t, prefix)
    ensures StartsWith(s, prefix)
  {
    assert s[..|prefix|] == s[..|t|][..|prefix|];
  }

  predicate EndsWith(s: string, suffix: string) {
    |suffix| <= |s| && s[|s| - |suffix|..] == suffix
  }
}
