/**
 * The parts of Rust's `str` API the puzzle parsers use, on ASCII text:
 * `split` on a string pattern, `lines`, `split_whitespace`, `join("")`
 * and `parse::<i32>` / `parse::<i64>` / `parse::<u64>`.
 */
module Text {
  import opened Wrappers

  const I32_MIN: int := -0x8000_0000
  const I32_MAX: int := 0x7FFF_FFFF
  const I64_MIN: int := -0x8000_0000_0000_0000
  const I64_MAX: int := 0x7FFF_FFFF_FFFF_FFFF
  const U64_MAX: int := 0xFFFF_FFFF_FFFF_FFFF

  predicate IsDigit(c: char) { '0' <= c <= '9' }

  function DigitValue(c: char): (d: nat)
    requires IsDigit(c)
    ensures d <= 9
  {
    (c as int) - ('0' as int)
  }

  /** `char::is_alphabetic` restricted to ASCII. */
  predicate IsAlphabetic(c: char) { 'a' <= c <= 'z' || 'A' <= c <= 'Z' }

  /** `char::is_whitespace` restricted to ASCII: space, tab, LF, VT, FF, CR. */
  predicate IsWhitespace(c: char) { c == ' ' || 9 <= c as int <= 13 }

  /** `char::is_ascii_punctuation`. */
  predicate IsAsciiPunctuation(c: char)
  {
    33 <= c as int <= 47 || 58 <= c as int <= 64 || 91 <= c as int <= 96 || 123 <= c as int <= 126
  }

  predicate StartsWith(s: string, prefix: string) { |prefix| <= |s| && s[..|prefix|] == prefix }

  predicate EndsWith(s: string, suffix: string) { |suffix| <= |s| && s[|s| - |suffix|..] == suffix }

  /** `pat` occurs in `s` starting at index `k`. */
  predicate OccursAt(s: string, pat: string, k: int)
  {
    0 <= k && k + |pat| <= |s| && s[k..k + |pat|] == pat
  }

  /** The first occurrence of `pat` in `s` at or after `from`. */
  function IndexOf(s: string, pat: string, from: nat): (r: Option<nat>)
    requires |pat| > 0
    ensures r.Some? ==> from <= r.value && OccursAt(s, pat, r.value)
    ensures r.Some? ==> forall k :: from <= k < r.value ==> !OccursAt(s, pat, k)
    ensures r.None? ==> forall k :: from <= k ==> !OccursAt(s, pat, k)
    decreases |s| - from
  {
    if from + |pat| > |s| then None
    else if s[from..from + |pat|] == pat then Some(from)
    else IndexOf(s, pat, from + 1)
  }

  /** `s.split(pat)`: the pieces between the non-overlapping occurrences of `pat`, left to right. */
  function Split(s: string, pat: string): (parts: seq<string>)
    requires |pat| > 0
    ensures |parts| >= 1
    ensures forall i :: 0 <= i < |parts| ==> |parts[i]| <= |s|
    decreases |s|
  {
    match IndexOf(s, pat, 0)
    case None => [s]
    case Some(i) => [s[..i]] + Split(s[i + |pat|..], pat)
  }

  /** The inverse of `Split`: the parts glued back together with `pat` between them. */
  function Join(parts: seq<string>, pat: string): string
    requires |parts| >= 1
  {
    if |parts| == 1 then parts[0] else parts[0] + pat + Join(parts[1..], pat)
  }

  /** Splitting loses nothing: joining the pieces with the pattern gives the text back. */
  lemma {:induction false} SplitJoin(s: string, pat: string)
    requires |pat| > 0
    ensures Join(Split(s, pat), pat) == s
    decreases |s|
  {
    var found := IndexOf(s, pat, 0);
    if found.Some? {
      var i := found.value;
      var rest := s[i + |pat|..];
      var parts := Split(s, pat);
      assert parts == [s[..i]] + Split(rest, pat);
      assert parts[1..] == Split(rest, pat);
      SplitJoin(rest, pat);
      assert Join(parts, pat) == s[..i] + pat + rest;
      assert s[i..i + |pat|] == pat;
      assert s == s[..i] + s[i..i + |pat|] + rest;
    }
  }

  /** No piece of a split contains the pattern. */
  lemma {:induction false} SplitPiecesAvoidPattern(s: string, pat: string)
    requires |pat| > 0
    ensures forall i, k :: 0 <= i < |Split(s, pat)| ==> !OccursAt(Split(s, pat)[i], pat, k)
    decreases |s|
  {
    match IndexOf(s, pat, 0)
    case None =>
    case Some(j) =>
      var rest := s[j + |pat|..];
      SplitPiecesAvoidPattern(rest, pat);
      forall k | OccursAt(s[..j], pat, k)
        ensures false
      {
        assert s[..j][k..k + |pat|] == s[k..k + |pat|];
        assert OccursAt(s, pat, k);
      }
  }

  /** A text with no occurrence of the pattern splits into itself alone. */
  lemma SplitWithoutPattern(s: string, pat: string)
    requires |pat| > 0
    requires forall k :: 0 <= k < |s| ==> !OccursAt(s, pat, k)
    ensures Split(s, pat) == [s]
  {
  }

  /** When the first occurrence of the pattern follows `a`, the first piece is `a`. */
  lemma SplitFirstPiece(a: string, pat: string, b: string)
    requires |pat| > 0
    requires forall k :: 0 <= k < |a| ==> !OccursAt(a + pat + b, pat, k)
    ensures Split(a + pat + b, pat) == [a] + Split(b, pat)
  {
    var s := a + pat + b;
    assert s[|a|..|a| + |pat|] == pat;
    assert OccursAt(s, pat, |a|);
    var r := IndexOf(s, pat, 0);
    assert r == Some(|a|);
    assert s[..|a|] == a && s[|a| + |pat|..] == b;
  }

  /** Where the text's first `n` characters are not `c`, the one-character pattern `[c]` does not start. */
  lemma NoCharNoOccurrence(s: string, c: char, n: nat)
    requires n <= |s|
    requires forall k :: 0 <= k < n ==> s[k] != c
    ensures forall k :: 0 <= k < n ==> !OccursAt(s, [c], k)
  {
    forall k | 0 <= k < n
      ensures !OccursAt(s, [c], k)
    {
      assert s[k..k + 1][0] == s[k];
    }
  }

  /** Two pieces without the separator character, joined by it, split back into those two pieces. */
  lemma SplitTwo(a: string, c: char, b: string)
    requires forall k :: 0 <= k < |a| ==> a[k] != c
    requires forall k :: 0 <= k < |b| ==> b[k] != c
    ensures Split(a + [c] + b, [c]) == [a, b]
  {
    var s := a + [c] + b;
    assert forall k :: 0 <= k < |a| ==> s[k] == a[k];
    NoCharNoOccurrence(s, c, |a|);
    SplitFirstPiece(a, [c], b);
    NoCharNoOccurrence(b, c, |b|);
    SplitWithoutPattern(b, [c]);
  }

  /** Where the `j`-th character of the pattern cannot be found, the pattern does not start. */
  lemma AbsentCharNoOccurrence(s: string, pat: string, j: nat, lo: nat, hi: nat)
    requires j < |pat|
    requires forall k :: lo + j <= k < hi + j && k < |s| ==> s[k] != pat[j]
    ensures forall k :: lo <= k < hi ==> !OccursAt(s, pat, k)
  {
    forall k | lo <= k < hi
      ensures !OccursAt(s, pat, k)
    {
      if k + |pat| <= |s| {
        assert s[k..k + |pat|][j] != pat[j];
      }
    }
  }

  /** `a`, the pattern and `b`, with the pattern starting nowhere in `a` nor in `b`, split into `a` and `b`. */
  lemma SplitInTwo(a: string, pat: string, b: string)
    requires |pat| > 0
    requires forall k :: 0 <= k < |a| ==> !OccursAt(a + pat + b, pat, k)
    requires forall k :: 0 <= k < |b| ==> !OccursAt(b, pat, k)
    ensures Split(a + pat + b, pat) == [a, b]
  {
    SplitFirstPiece(a, pat, b);
    SplitWithoutPattern(b, pat);
  }

  /**
   * `s.lines()` for text without carriage returns: split at every line feed,
   * except that a final line feed does not start an empty last line.
   */
  function Lines(s: string): (lines: seq<string>)
  {
    var parts := Split(s, "\n");
    if parts[|parts| - 1] == "" then parts[..|parts| - 1] else parts
  }

  /** The length of the leading run of non-whitespace characters. */
  function WordLength(s: string): (n: nat)
    ensures n <= |s|
    ensures forall k :: 0 <= k < n ==> !IsWhitespace(s[k])
    ensures n < |s| ==> IsWhitespace(s[n])
  {
    if s == [] || IsWhitespace(s[0]) then 0 else 1 + WordLength(s[1..])
  }

  /** `s.split_whitespace()`: the maximal runs of non-whitespace characters. */
  function SplitWhitespace(s: string): (words: seq<string>)
    ensures forall i :: 0 <= i < |words| ==> |words[i]| > 0
    ensures forall i, k :: 0 <= i < |words| && 0 <= k < |words[i]| ==> !IsWhitespace(words[i][k])
    decreases |s|
  {
    if s == [] then []
    else if IsWhitespace(s[0]) then SplitWhitespace(s[1..])
    else
      var n := WordLength(s);
      [s[..n]] + SplitWhitespace(s[n..])
  }

  /** `words.join("")` / `collect::<String>()`. */
  function Concat(words: seq<string>): string
  {
    if words == [] then "" else words[0] + Concat(words[1..])
  }

  /** The text with every whitespace character dropped. */
  function RemoveWhitespace(s: string): (r: string)
  {
    if s == [] then ""
    else if IsWhitespace(s[0]) then RemoveWhitespace(s[1..])
    else [s[0]] + RemoveWhitespace(s[1..])
  }

  lemma {:induction false} RemoveWhitespaceOfWord(s: string, n: nat)
    requires n <= |s|
    requires forall k :: 0 <= k < n ==> !IsWhitespace(s[k])
    ensures RemoveWhitespace(s) == s[..n] + RemoveWhitespace(s[n..])
    decreases n
  {
    if n > 0 {
      RemoveWhitespaceOfWord(s[1..], n - 1);
      assert s[1..][n - 1..] == s[n..];
      assert s[..n] == [s[0]] + s[1..][..n - 1];
    }
  }

  /** Gluing the whitespace-separated words together gives the text without its whitespace. */
  lemma {:induction false} ConcatSplitWhitespace(s: string)
    ensures Concat(SplitWhitespace(s)) == RemoveWhitespace(s)
    decreases |s|
  {
    if s == [] {
    } else if IsWhitespace(s[0]) {
      ConcatSplitWhitespace(s[1..]);
    } else {
      var n := WordLength(s);
      ConcatSplitWhitespace(s[n..]);
      RemoveWhitespaceOfWord(s, n);
      assert SplitWhitespace(s)[1..] == SplitWhitespace(s[n..]);
    }
  }

  predicate AllDigits(s: string) { forall k :: 0 <= k < |s| ==> IsDigit(s[k]) }

  /** The value of a string of decimal digits, most significant first. */
  function Decimal(ds: string): (v: nat)
    requires AllDigits(ds)
  {
    if ds == [] then 0 else 10 * Decimal(ds[..|ds| - 1]) + DigitValue(ds[|ds| - 1])
  }

  /**
   * `s.parse::<T>()` for an integer type whose range is `min..=max`:
   * an optional `+` (or `-` for a signed type) and at least one decimal digit,
   * and the value must fit the type.
   */
  function ParseInt(s: string, min: int, max: int): (r: Option<int>)
    ensures r.Some? ==> min <= r.value <= max
    ensures r.Some? ==> |s| > 0
  {
    var negative := |s| > 0 && s[0] == '-' && min < 0;
    var digits := if |s| > 0 && (s[0] == '+' || negative) then s[1..] else s;
    if digits == [] || !AllDigits(digits) then None
    else
      var v := if negative then -(Decimal(digits) as int) else Decimal(digits);
      if min <= v <= max then Some(v) else None
  }

  /** The decimal text of a natural number, without leading zeros (`n.to_string()`). */
  function NatToString(n: nat): (s: string)
    ensures |s| > 0 && AllDigits(s) && Decimal(s) == n
  {
    var last := ['0' + (n % 10) as char];
    if n < 10 then last
    else
      var s := NatToString(n / 10) + last;
      assert s[..|s| - 1] == NatToString(n / 10);
      s
  }

  /** Appending a digit to a decimal text multiplies its value by ten and adds the digit. */
  lemma DecimalAppend(ds: string, c: char)
    requires AllDigits(ds) && IsDigit(c)
    ensures AllDigits(ds + [c]) && Decimal(ds + [c]) == 10 * Decimal(ds) + DigitValue(c)
  {
    assert (ds + [c])[..|ds|] == ds;
  }

  /** A string of digits parses as its decimal value when that value fits. */
  lemma DigitsParse(s: string, min: int, max: int)
    requires |s| > 0 && AllDigits(s)
    requires min <= Decimal(s) <= max
    ensures ParseInt(s, min, max) == Some(Decimal(s))
  {
  }

  function ParseI32(s: string): Option<int> { ParseInt(s, I32_MIN, I32_MAX) }
  function ParseI64(s: string): Option<int> { ParseInt(s, I64_MIN, I64_MAX) }
  function ParseU64(s: string): Option<int> { ParseInt(s, 0, U64_MAX) }

  /** `parse::<i32>()` of each word. */
  function I32Values(words: seq<string>): (opts: seq<Option<int>>)
    ensures |opts| == |words| && forall k :: 0 <= k < |words| ==> opts[k] == ParseI32(words[k])
  {
    seq(|words|, k requires 0 <= k < |words| => ParseI32(words[k]))
  }

  /** `parse::<i64>()` of each word. */
  function I64Values(words: seq<string>): (opts: seq<Option<int>>)
    ensures |opts| == |words| && forall k :: 0 <= k < |words| ==> opts[k] == ParseI64(words[k])
  {
    seq(|words|, k requires 0 <= k < |words| => ParseI64(words[k]))
  }

  /** `parse::<u64>()` of each word. */
  function U64Values(words: seq<string>): (opts: seq<Option<int>>)
    ensures |opts| == |words| && forall k :: 0 <= k < |words| ==> opts[k] == ParseU64(words[k])
  {
    seq(|words|, k requires 0 <= k < |words| => ParseU64(words[k]))
  }
}
