/**
 * The string operations the components use: `trim`, `toLowerCase`/`toUpperCase`,
 * `includes`/`indexOf`, `startsWith`/`endsWith`, `replace` with a string pattern,
 * `split` on one character, and decimal text of a whole number.
 */
module Strings {
  import opened Wrappers

  /** Characters that `String.prototype.trim` removes (the common ones; see README). */
  predicate IsWhitespace(c: char) {
    c == ' ' || c == '\t' || c == '\n' || c == '\r' || c == '\U{000B}' || c == '\U{000C}'
    || c == '\U{00A0}' || c == '\U{FEFF}' || c == '\U{2028}' || c == '\U{2029}'
  }

  predicate AllWhitespace(s: string) {
    forall k :: 0 <= k < |s| ==> IsWhitespace(s[k])
  }

  /** Leading whitespace removed: a suffix of `s` whose first character is not whitespace. */
  function TrimStart(s: string): (r: string)
    ensures |r| <= |s| && r == s[|s| - |r|..]
    ensures AllWhitespace(s[..|s| - |r|])
    ensures r == [] || !IsWhitespace(r[0])
  {
    if s != [] && IsWhitespace(s[0]) then
      var r := TrimStart(s[1..]);
      TrimStartStep(s, r);
      r
    else s
  }

  /** Dropping one more leading whitespace character keeps `r` a suffix preceded by whitespace only. */
  lemma TrimStartStep(s: string, r: string)
    requires s != [] && IsWhitespace(s[0])
    requires |r| <= |s| - 1 && r == s[1..][|s| - 1 - |r|..] && AllWhitespace(s[1..][..|s| - 1 - |r|])
    ensures r == s[|s| - |r|..] && AllWhitespace(s[..|s| - |r|])
  {
    var n := |s| - |r|;
    assert s[n..] == s[1..][n - 1..];
    forall k | 0 <= k < n
      ensures IsWhitespace(s[..n][k])
    {
      if k > 0 {
        assert s[..n][k] == s[1..][..n - 1][k - 1];
      }
    }
  }

  /** Trailing whitespace removed: a prefix of `s` whose last character is not whitespace. */
  function TrimEnd(s: string): (r: string)
    ensures |r| <= |s| && r == s[..|r|]
    ensures AllWhitespace(s[|r|..])
    ensures r == [] || !IsWhitespace(r[|r| - 1])
  {
    if s != [] && IsWhitespace(s[|s| - 1]) then TrimEnd(s[..|s| - 1]) else s
  }

  /** `s.trim()`. */
  function Trim(s: string): string {
    TrimEnd(TrimStart(s))
  }

  /** `!s.trim()`: the string is empty or whitespace only. */
  predicate IsBlank(s: string) {
    Trim(s) == ""
  }

  lemma TrimSlice(s: string) returns (i: nat)
    ensures i + |Trim(s)| <= |s| && Trim(s) == s[i..i + |Trim(s)|]
    ensures AllWhitespace(s[..i]) && AllWhitespace(s[i + |Trim(s)|..])
  {
    var t := TrimStart(s);
    i := |s| - |t|;
    PrefixOfSuffix(s, i, TrimEnd(t));
  }

  /** A prefix `r` of the suffix `s[i..]`, followed there by whitespace only, is the slice of `s` at i. */
  lemma PrefixOfSuffix(s: string, i: nat, r: string)
    requires i <= |s| && |r| <= |s| - i && r == s[i..][..|r|] && AllWhitespace(s[i..][|r|..])
    ensures r == s[i..i + |r|] && AllWhitespace(s[i + |r|..])
  {
    assert s[i + |r|..] == s[i..][|r|..];
  }

  /** The trimmed string has no whitespace at either end. */
  lemma TrimEnds(s: string)
    ensures Trim(s) == [] || (!IsWhitespace(Trim(s)[0]) && !IsWhitespace(Trim(s)[|Trim(s)| - 1]))
  {
    var t := TrimStart(s);
    var r := TrimEnd(t);
    if r != [] {
      assert r[0] == t[0];
    }
  }

  /** A string is blank exactly when every character is whitespace. */
  lemma BlankIffAllWhitespace(s: string)
    ensures IsBlank(s) <==> AllWhitespace(s)
  {
    var i := TrimSlice(s);
    if IsBlank(s) {
      assert s == s[..i] + s[i..];
      forall k | 0 <= k < |s| ensures IsWhitespace(s[k]) {
        if k >= i { assert s[k] == s[i..][k - i]; }
      }
    } else {
      TrimEnds(s);
      assert Trim(s)[0] == s[i];
    }
  }

  /** Trimming keeps only characters of the original. */
  lemma TrimChars(s: string, c: char)
    requires c in Trim(s)
    ensures c in s
  {
    var i := TrimSlice(s);
    var k :| 0 <= k < |Trim(s)| && Trim(s)[k] == c;
    assert s[i + k] == c;
  }

  /** Trimming twice is trimming once. */
  lemma TrimIdempotent(s: string)
    ensures Trim(Trim(s)) == Trim(s)
  {
    TrimEnds(s);
    var t := Trim(s);
    if t != [] {
      assert TrimStart(t) == t;
      assert TrimEnd(t) == t;
    }
  }

  function LowerChar(c: char): char {
    if 'A' <= c <= 'Z' then (c as int + 32) as char else c
  }

  function UpperChar(c: char): char {
    if 'a' <= c <= 'z' then (c as int - 32) as char else c
  }

  /** `s.toLowerCase()` on ASCII letters. */
  function Lower(s: string): string {
    seq(|s|, i requires 0 <= i < |s| => LowerChar(s[i]))
  }

  /** `s.toUpperCase()` on ASCII letters. */
  function Upper(s: string): string {
    seq(|s|, i requires 0 <= i < |s| => UpperChar(s[i]))
  }

  /** `pat` occurs in `s` starting at index `i`. */
  predicate OccursAt(s: string, pat: string, i: nat) {
    i + |pat| <= |s| && s[i..i + |pat|] == pat
  }

  function IndexOfFrom(s: string, pat: string, from: nat): (r: Option<nat>)
    requires from <= |s|
    decreases |s| - from
    ensures r.Some? ==> from <= r.value && OccursAt(s, pat, r.value)
    ensures r.Some? ==> forall j :: from <= j < r.value ==> !OccursAt(s, pat, j)
    ensures r.None? ==> forall j :: from <= j ==> !OccursAt(s, pat, j)
  {
    if OccursAt(s, pat, from) then Some(from)
    else if from + |pat| >= |s| then None
    else IndexOfFrom(s, pat, from + 1)
  }

  /** `s.indexOf(pat)`, with `None` for -1: the first index at which `pat` occurs. */
  function IndexOf(s: string, pat: string): (r: Option<nat>)
    ensures r.Some? ==> OccursAt(s, pat, r.value) && forall j: nat :: j < r.value ==> !OccursAt(s, pat, j)
    ensures r.None? <==> forall j: nat :: !OccursAt(s, pat, j)
  {
    IndexOfFrom(s, pat, 0)
  }

  /** `s.includes(pat)`. */
  predicate Contains(s: string, pat: string) {
    IndexOf(s, pat).Some?
  }

  /** `s.startsWith(p)`. */
  predicate StartsWith(s: string, p: string) {
    p <= s
  }

  /** `s.endsWith(suffix)`. */
  predicate EndsWith(s: string, suffix: string) {
    |suffix| <= |s| && s[|s| - |suffix|..] == suffix
  }

  /** `s.replace(pat, rep)` with a string pattern and a replacement without `$`: only the first occurrence changes. */
  function ReplaceFirst(s: string, pat: string, rep: string): (r: string)
    ensures (forall j :: !OccursAt(s, pat, j)) ==> r == s
  {
    match IndexOf(s, pat)
    case None => s
    case Some(i) => s[..i] + rep + s[i + |pat|..]
  }

  /** The first index of character `c` in `s`. */
  function FirstIndex(s: string, c: char): (i: nat)
    requires c in s
    ensures i < |s| && s[i] == c && c !in s[..i]
  {
    if s[0] == c then 0 else 1 + FirstIndex(s[1..], c)
  }

  /** The parts joined back with the separator (the inverse of `Split`). */
  function Join(parts: seq<string>, sep: char): string {
    if |parts| == 0 then ""
    else if |parts| == 1 then parts[0]
    else parts[0] + [sep] + Join(parts[1..], sep)
  }

  /** `s.split(sep)` for a one-character separator: the pieces between separators, in order. */
  function Split(s: string, sep: char): (parts: seq<string>)
    decreases |s|
    ensures |parts| >= 1
  {
    if sep !in s then [s]
    else
      var i := FirstIndex(s, sep);
      [s[..i]] + Split(s[i + 1..], sep)
  }

  /** No piece contains the separator. */
  lemma {:induction false} SplitPieces(s: string, sep: char)
    decreases |s|
    ensures forall k :: 0 <= k < |Split(s, sep)| ==> sep !in Split(s, sep)[k]
  {
    if sep in s {
      var i := FirstIndex(s, sep);
      SplitPieces(s[i + 1..], sep);
      assert Split(s, sep)[1..] == Split(s[i + 1..], sep);
    }
  }

  /** Joining the pieces with the separator gives the string back. */
  lemma {:induction false} SplitJoinBack(s: string, sep: char)
    decreases |s|
    ensures Join(Split(s, sep), sep) == s
  {
    if sep in s {
      SplitJoinBack(s[FirstIndex(s, sep) + 1..], sep);
      SplitJoinStep(s, sep);
    } else {
      assert Split(s, sep) == [s];
    }
  }

  /** One separator: the first piece, the separator, and the rest joined back. */
  lemma SplitJoinStep(s: string, sep: char)
    requires sep in s
    requires Join(Split(s[FirstIndex(s, sep) + 1..], sep), sep) == s[FirstIndex(s, sep) + 1..]
    ensures Join(Split(s, sep), sep) == s
  {
    var i := FirstIndex(s, sep);
    SplitFirst(s, sep);
    JoinCons(s[..i], Split(s[i + 1..], sep), sep);
    AroundIndex(s, i);
  }

  lemma SplitFirst(s: string, sep: char)
    requires sep in s
    ensures Split(s, sep) == [s[..FirstIndex(s, sep)]] + Split(s[FirstIndex(s, sep) + 1..], sep)
  {
  }

  lemma AroundIndex(s: string, i: nat)
    requires i < |s|
    ensures s == s[..i] + [s[i]] + s[i + 1..]
  {
  }

  lemma JoinCons(head: string, rest: seq<string>, sep: char)
    requires |rest| >= 1
    ensures Join([head] + rest, sep) == head + [sep] + Join(rest, sep)
  {
    assert ([head] + rest)[1..] == rest;
  }

  /** `s.split(sep).pop()`: the text after the last separator (all of `s` when it has none). */
  function LastSegment(s: string, sep: char): string {
    var parts := Split(s, sep);
    parts[|parts| - 1]
  }

  lemma {:induction false} JoinEndsWithLast(parts: seq<string>, sep: char)
    requires |parts| >= 1
    ensures EndsWith(Join(parts, sep), parts[|parts| - 1])
    ensures |parts| > 1 ==>
      (|Join(parts, sep)| > |parts[|parts| - 1]|
       && Join(parts, sep)[|Join(parts, sep)| - |parts[|parts| - 1]| - 1] == sep)
  {
    if |parts| > 1 {
      JoinEndsWithLast(parts[1..], sep);
      var tail := Join(parts[1..], sep);
      var last := parts[|parts| - 1];
      assert parts[1..][|parts[1..]| - 1] == last;
      var whole := parts[0] + [sep] + tail;
      assert whole[|whole| - |last|..] == tail[|tail| - |last|..];
      if |parts| == 2 {
        assert tail == last;
        assert whole[|whole| - |last| - 1] == sep;
      } else {
        assert whole[|whole| - |last| - 1] == tail[|tail| - |last| - 1];
      }
    }
  }

  /**
   * The last segment contains no separator, ends the string, and is either the
   * whole string or preceded by a separator.
   */
  lemma LastSegmentSpec(s: string, sep: char)
    ensures sep !in LastSegment(s, sep)
    ensures EndsWith(s, LastSegment(s, sep))
    ensures LastSegment(s, sep) == s || (|LastSegment(s, sep)| < |s| && s[|s| - |LastSegment(s, sep)| - 1] == sep)
  {
    var parts := Split(s, sep);
    var last := parts[|parts| - 1];
    assert LastSegment(s, sep) == last;
    SplitFacts(s, sep, parts);
    LastOfJoin(s, parts, sep);
  }

  lemma SplitFacts(s: string, sep: char, parts: seq<string>)
    requires parts == Split(s, sep)
    ensures Join(parts, sep) == s && forall k :: 0 <= k < |parts| ==> sep !in parts[k]
  {
    SplitJoinBack(s, sep);
    SplitPieces(s, sep);
  }

  /** The last of separator-free parts joined into `s` ends `s`, right after a separator unless it is all of `s`. */
  lemma LastOfJoin(s: string, parts: seq<string>, sep: char)
    requires |parts| >= 1 && Join(parts, sep) == s
    requires forall k :: 0 <= k < |parts| ==> sep !in parts[k]
    ensures sep !in parts[|parts| - 1]
    ensures EndsWith(s, parts[|parts| - 1])
    ensures parts[|parts| - 1] == s || (|parts[|parts| - 1]| < |s| && s[|s| - |parts[|parts| - 1]| - 1] == sep)
  {
    JoinEndsWithLast(parts, sep);
  }

  function DigitChar(d: nat): (c: char)
    requires d < 10
    ensures '0' <= c <= '9'
  {
    ('0' as int + d) as char
  }

  predicate IsDigits(s: string) {
    forall k :: 0 <= k < |s| ==> '0' <= s[k] <= '9'
  }

  /** Decimal text of a whole number, as template literals print it. */
  function NatToString(n: nat): (r: string)
    ensures |r| >= 1 && IsDigits(r)
    ensures r[0] == '0' ==> n == 0
  {
    if n < 10 then [DigitChar(n)] else NatToString(n / 10) + [DigitChar(n % 10)]
  }

  /** The value of a string of decimal digits. */
  function ParseDigits(s: string): nat
    requires IsDigits(s)
  {
    if s == [] then 0 else ParseDigits(s[..|s| - 1]) * 10 + (s[|s| - 1] as int - '0' as int)
  }

  /** Reading back the decimal text gives the number: the text determines the count shown. */
  lemma {:induction false} ParseNatToString(n: nat)
    ensures ParseDigits(NatToString(n)) == n
  {
    if n >= 10 {
      ParseNatToString(n / 10);
      var s := NatToString(n);
      assert s[..|s| - 1] == NatToString(n / 10);
    }
  }

  /** Different numbers have different texts. */
  lemma NatToStringInjective(m: nat, n: nat)
    requires NatToString(m) == NatToString(n)
    ensures m == n
  {
    ParseNatToString(m);
    ParseNatToString(n);
  }
}
