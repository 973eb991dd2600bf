/**
 * Day 1 (src/day1/mod.rs): calibration values. Every line yields the digits it
 * contains (optionally also the digits spelled out as English words, where
 * overlapping words all count); a line's calibration value is the two-digit
 * number made of its first and last digit, and the answer is their sum.
 */
module Day1 {
  import opened Wrappers
  import opened Text

  /** SPELLED_NUMBERS: each spelled digit with its value. */
  const SpelledNumbers: seq<(string, nat)> := [
    ("one", 1), ("two", 2), ("three", 3), ("four", 4), ("five", 5),
    ("six", 6), ("seven", 7), ("eight", 8), ("nine", 9)
  ]

  /** The spelled name of digit `d`. */
  function Name(d: nat): string
    requires 1 <= d <= 9
  {
    SpelledNumbers[d - 1].0
  }

  /** The table holds each digit 1..9 at index d - 1, and its names are lowercase letters. */
  lemma TableShape()
    ensures |SpelledNumbers| == 9
    ensures forall i :: 0 <= i < 9 ==> SpelledNumbers[i].1 == i + 1
    ensures forall d :: 1 <= d <= 9 ==> 3 <= |Name(d)| <= 5
  {
  }

  /** The table's names, spelled out by digit. */
  lemma NameOf(d: nat)
    requires 1 <= d <= 9
    ensures Name(d) == if d == 1 then "one" else if d == 2 then "two" else if d == 3 then "three" else if d == 4 then "four" else if d == 5 then "five" else if d == 6 then "six" else if d == 7 then "seven" else if d == 8 then "eight" else "nine"
  {
    if d == 1 {
      assert Name(d) == "one";
    } else if d == 2 {
      assert Name(d) == "two";
    } else if d == 3 {
      assert Name(d) == "three";
    } else if d == 4 {
      assert Name(d) == "four";
    } else if d == 5 {
      assert Name(d) == "five";
    } else if d == 6 {
      assert Name(d) == "six";
    } else if d == 7 {
      assert Name(d) == "seven";
    } else if d == 8 {
      assert Name(d) == "eight";
    } else if d == 9 {
      assert Name(d) == "nine";
    }
  }

  /** No spelled name is a prefix of a different one. */
  lemma NamesPrefixFree(d: nat, e: nat)
    requires 1 <= d <= 9 && 1 <= e <= 9
    requires StartsWith(Name(d), Name(e))
    ensures d == e
  {
    NameOf(d);
    NameOf(e);
    var n, m := Name(d), Name(e);
    assert n[0] == n[..|m|][0] == m[0] && n[1] == n[..|m|][1] == m[1];
  }

  /** A string that starts with two spelled names starts with the same one twice. */
  lemma NamePrefixUnique(s: string, d: nat, e: nat)
    requires 1 <= d <= 9 && 1 <= e <= 9
    requires StartsWith(s, Name(d)) && StartsWith(s, Name(e))
    ensures d == e
  {
    if |Name(e)| <= |Name(d)| {
      assert Name(d)[..|Name(e)|] == s[..|Name(e)|];
      NamesPrefixFree(d, e);
    } else {
      assert Name(e)[..|Name(d)|] == s[..|Name(d)|];
      NamesPrefixFree(e, d);
    }
  }

  /** `SPELLED_NUMBERS.iter().find(|(spelled, _)| spelled == word)`, from table index `i` on. */
  function FindName(word: string, i: nat): (r: Option<nat>)
    requires i <= 9
    ensures r.Some? ==> i + 1 <= r.value <= 9 && word == Name(r.value)
    ensures r.None? ==> forall d :: i + 1 <= d <= 9 ==> word != Name(d)
    decreases 9 - i
  {
    TableShape();
    if i == 9 then None
    else if SpelledNumbers[i].0 == word then Some(SpelledNumbers[i].1)
    else FindName(word, i + 1)
  }

  /**
   * get_spelled: if the accumulated word is a prefix of some spelled name,
   * look it up exactly; the digit is returned only for a complete name.
   */
  function GetSpelled(word: string): (r: Option<nat>)
    ensures r.Some? ==> 1 <= r.value <= 9
    ensures forall d :: 1 <= d <= 9 ==> (r == Some(d) <==> word == Name(d))
  {
    if exists i :: 0 <= i < |SpelledNumbers| && StartsWith(SpelledNumbers[i].0, word) then
      var r := FindName(word, 0);
      assert forall d :: 1 <= d <= 9 && word == Name(d) ==> r == Some(d) by {
        forall d | 1 <= d <= 9 && word == Name(d) ensures r == Some(d) {
          NamesPrefixFree(d, r.value);
        }
      }
      r
    else
      assert forall d :: 1 <= d <= 9 ==> word != Name(d) by {
        forall d | 1 <= d <= 9 ensures word != Name(d) {
          TableShape();
          assert StartsWith(SpelledNumbers[d - 1].0, Name(d));
        }
      }
      None
  }

  /** The spelled digit whose name the text starts with, searching the table from index `i`. */
  function SpelledPrefix(s: string, i: nat): (r: Option<nat>)
    requires i <= 9
    ensures r.Some? ==> i + 1 <= r.value <= 9 && StartsWith(s, Name(r.value))
    ensures r.None? ==> forall d :: i + 1 <= d <= 9 ==> !StartsWith(s, Name(d))
    decreases 9 - i
  {
    TableShape();
    if i == 9 then None
    else if StartsWith(s, SpelledNumbers[i].0) then Some(SpelledNumbers[i].1)
    else SpelledPrefix(s, i + 1)
  }

  /**
   * What the character at `i` contributes: with spelled digits on, a letter
   * contributes the digit whose name starts there (or nothing); otherwise a
   * decimal digit contributes its value.
   */
  function Contribution(line: string, i: nat, withSpelled: bool): (r: seq<nat>)
    requires i < |line|
  {
    if withSpelled && IsAlphabetic(line[i]) then
      match SpelledPrefix(line[i..], 0)
      case Some(d) => [d]
      case None => []
    else if IsDigit(line[i]) then [DigitValue(line[i])]
    else []
  }

  /** The digits found from position `i` on, in position order. */
  function DigitsFrom(line: string, i: nat, withSpelled: bool): (r: seq<nat>)
    ensures forall k :: 0 <= k < |r| ==> r[k] <= 9
    decreases |line| - i
  {
    if i >= |line| then [] else Contribution(line, i, withSpelled) + DigitsFrom(line, i + 1, withSpelled)
  }

  /** The digits of a line. */
  function LineDigits(line: string, withSpelled: bool): seq<nat>
  {
    DigitsFrom(line, 0, withSpelled)
  }

  /** The values of the decimal digit characters of `s`, in order. */
  function DigitCharValues(s: string): seq<nat>
  {
    if s == [] then []
    else (if IsDigit(s[0]) then [DigitValue(s[0])] else []) + DigitCharValues(s[1..])
  }

  /** Without spelled digits, a line's digits are exactly its digit characters, in order. */
  lemma {:induction false} PlainDigits(line: string, i: nat)
    requires i <= |line|
    ensures DigitsFrom(line, i, false) == DigitCharValues(line[i..])
    decreases |line| - i
  {
    if i < |line| {
      PlainDigits(line, i + 1);
      assert line[i..][1..] == line[i + 1..];
    }
  }

  /** A word found by growing a prefix of the text from `i` is the spelled digit starting at `i`. */
  lemma FoundWordIsPrefix(line: string, i: nat, j: nat, d: nat)
    requires i < j <= |line| && 1 <= d <= 9
    requires GetSpelled(line[i..j]) == Some(d)
    ensures SpelledPrefix(line[i..], 0) == Some(d)
  {
    assert line[i..j] == Name(d);
    assert line[i..][..j - i] == line[i..j];
    var r := SpelledPrefix(line[i..], 0);
    if r.Some? {
      NamePrefixUnique(line[i..], d, r.value);
    }
  }

  /** A spelled name at the start of the text from `i` is a word made of a prefix of that text. */
  lemma PrefixIsWord(line: string, i: nat, d: nat)
    requires i <= |line| && 1 <= d <= 9
    requires StartsWith(line[i..], Name(d))
    ensures i < i + |Name(d)| <= |line| && GetSpelled(line[i..i + |Name(d)|]) == Some(d)
  {
    TableShape();
    assert line[i..i + |Name(d)|] == line[i..][..|Name(d)|];
  }

  /** When no prefix of the text from `i` is a spelled name, no spelled digit starts at `i`. */
  lemma NoWordIsNoPrefix(line: string, i: nat)
    requires i < |line|
    requires forall k :: i < k <= |line| ==> GetSpelled(line[i..k]).None?
    ensures SpelledPrefix(line[i..], 0).None?
  {
    var r := SpelledPrefix(line[i..], 0);
    if r.Some? {
      PrefixIsWord(line, i, r.value);
      assert false;
    }
  }

  /** No spelled name starts strictly inside another spelled name. */
  lemma NoNameInsideName(d: nat, k: nat, e: nat)
    requires 1 <= d <= 9 && 1 <= e <= 9 && 1 <= k < |Name(d)|
    ensures !StartsWith(Name(d)[k..], Name(e))
  {
    NameOf(d);
    NameOf(e);
    var t, m := Name(d)[k..], Name(e);
    if |m| <= |t| {
      assert t[..|m|][0] == t[0] && t[..|m|][1] == t[1];
      assert t[0] != m[0] || t[1] != m[1];
    }
  }

  /**
   * When the rest of the line from `i` is exactly a spelled name, the later
   * positions contribute nothing: they are letters inside that name.
   */
  lemma {:induction false} NameTailContributesNothing(line: string, i: nat, d: nat, j: nat)
    requires i < j <= |line| && 1 <= d <= 9
    requires line[i..] == Name(d)
    ensures DigitsFrom(line, j, true) == []
    decreases |line| - j
  {
    if j < |line| {
      NameTailContributesNothing(line, i, d, j + 1);
      var k := j - i;
      assert line[j..] == Name(d)[k..];
      assert line[j] == Name(d)[k];
      NameOf(d);
      assert 'a' <= line[j] <= 'z';
      var r := SpelledPrefix(line[j..], 0);
      if r.Some? {
        NoNameInsideName(d, k, r.value);
      }
      assert Contribution(line, j, true) == [];
    }
  }

  /** A letter where a spelled digit starts contributes that digit. */
  lemma LetterWithName(line: string, i: nat, d: nat)
    requires i < |line| && IsAlphabetic(line[i])
    requires SpelledPrefix(line[i..], 0) == Some(d)
    ensures DigitsFrom(line, i, true) == [d] + DigitsFrom(line, i + 1, true)
  {
  }

  /** A letter where no spelled digit starts contributes nothing. */
  lemma LetterWithoutName(line: string, i: nat)
    requires i < |line| && IsAlphabetic(line[i])
    requires SpelledPrefix(line[i..], 0).None?
    ensures DigitsFrom(line, i, true) == DigitsFrom(line, i + 1, true)
  {
  }

  /** A character that is not read as the start of a word contributes its digit value, if any. */
  lemma OtherStep(line: string, i: nat, withSpelled: bool)
    requires i < |line| && !(withSpelled && IsAlphabetic(line[i]))
    ensures IsDigit(line[i]) ==> DigitsFrom(line, i, withSpelled) == [DigitValue(line[i])] + DigitsFrom(line, i + 1, withSpelled)
    ensures !IsDigit(line[i]) ==> DigitsFrom(line, i, withSpelled) == DigitsFrom(line, i + 1, withSpelled)
  {
  }

  /**
   * The inner loop of find_digits: grows a word from the letter at `index`,
   * one character at a time, and stops as soon as the word (before the next
   * character is added) is a spelled name; `found` says it stopped that way.
   * Otherwise `hit` is the lookup of the whole rest of the line.
   */
  method GrowWord(line: string, index: nat) returns (hit: Option<nat>, found: bool)
    requires index < |line|
    ensures found ==> hit.Some? && SpelledPrefix(line[index..], 0) == hit
    ensures !found ==> hit == GetSpelled(line[index..])
    ensures !found ==> forall k :: index < k < |line| ==> GetSpelled(line[index..k]).None?
  {
    var word := [line[index]];
    found := false;
    var next := index + 1;
    while next < |line|
      invariant index + 1 <= next <= |line|
      invariant word == line[index..next]
      invariant forall k :: index < k < next ==> GetSpelled(line[index..k]).None?
    {
      var spelled := GetSpelled(word);
      if spelled.Some? {
        FoundWordIsPrefix(line, index, next, spelled.value);
        return spelled, true;
      }
      assert line[index..next + 1] == word + [line[next]];
      word := word + [line[next]];
      next := next + 1;
    }
    assert word == line[index..];
    hit := GetSpelled(word);
  }

  /** A letter at `i` whose word search ends without a name at the line's end contributes nothing. */
  lemma LetterNoWord(line: string, i: nat)
    requires i < |line| && IsAlphabetic(line[i])
    requires GetSpelled(line[i..]).None?
    requires forall k :: i < k < |line| ==> GetSpelled(line[i..k]).None?
    ensures DigitsFrom(line, i, true) == DigitsFrom(line, i + 1, true)
  {
    assert line[i..|line|] == line[i..];
    NoWordIsNoPrefix(line, i);
  }

  /** A letter at `i` where the rest of the line is a spelled name gives the last digit of the line. */
  lemma LetterLastWord(line: string, i: nat, d: nat)
    requires i < |line| && IsAlphabetic(line[i])
    requires GetSpelled(line[i..]) == Some(d)
    ensures 1 <= d <= 9 && DigitsFrom(line, i, true) == [d]
  {
    assert line[i..|line|] == line[i..];
    FoundWordIsPrefix(line, i, |line|, d);
    NameTailContributesNothing(line, i, d, i + 1);
  }

  /**
   * find_digits: scans the line left to right; a letter (with spelled digits
   * on) grows a word from its position until the word is a spelled name, a
   * decimal digit contributes its value. A name that runs to the end of the
   * line stops the scan; the letters after its first one could not start a
   * name anyway.
   */
  method FindDigits(line: string, withSpelled: bool) returns (digits: seq<nat>)
    ensures digits == LineDigits(line, withSpelled)
  {
    digits := [];
    var index := 0;
    while index < |line|
      invariant 0 <= index <= |line|
      invariant digits + DigitsFrom(line, index, withSpelled) == LineDigits(line, withSpelled)
    {
      ghost var before := digits;
      var c := line[index];
      if withSpelled && IsAlphabetic(c) {
        var hit, found := GrowWord(line, index);
        if found {
          LetterWithName(line, index, hit.value);
          digits := digits + [hit.value];
          assert before + [hit.value] + DigitsFrom(line, index + 1, true)
              == before + ([hit.value] + DigitsFrom(line, index + 1, true));
        } else if hit.Some? {
          LetterLastWord(line, index, hit.value);
          digits := digits + [hit.value];
          break;
        } else {
          LetterNoWord(line, index);
        }
      } else {
        OtherStep(line, index, withSpelled);
        if IsDigit(c) {
          digits := digits + [DigitValue(c)];
          assert before + [DigitValue(c)] + DigitsFrom(line, index + 1, withSpelled)
              == before + ([DigitValue(c)] + DigitsFrom(line, index + 1, withSpelled));
        }
      }
      index := index + 1;
    }
  }

  /**
   * The calibration value of a line's digits: the decimal text of the first
   * digit followed by that of the last, read as a number.
   */
  function CalibrationValue(digits: seq<nat>): (v: nat)
    requires |digits| > 0
    requires forall k :: 0 <= k < |digits| ==> digits[k] <= 9
    ensures v <= 99
  {
    10 * digits[0] + digits[|digits| - 1]
  }

  /** The calibration value is the two-digit number whose tens are the first digit and whose units are the last. */
  lemma CalibrationValueDigits(digits: seq<nat>)
    requires |digits| > 0
    requires forall k :: 0 <= k < |digits| ==> digits[k] <= 9
    ensures CalibrationValue(digits) / 10 == digits[0] && CalibrationValue(digits) % 10 == digits[|digits| - 1]
  {
  }

  /** Every line has a digit (otherwise `first().unwrap()` panics). */
  predicate EveryLineHasDigit(lines: seq<string>, withSpelled: bool)
  {
    forall k :: 0 <= k < |lines| ==> |LineDigits(lines[k], withSpelled)| > 0
  }

  /** The sum of the calibration values of the lines. */
  function CalibrationSum(lines: seq<string>, withSpelled: bool): (sum: nat)
    requires EveryLineHasDigit(lines, withSpelled)
    ensures sum <= 99 * |lines|
  {
    if lines == [] then 0
    else
      var last := lines[|lines| - 1];
      CalibrationSum(lines[..|lines| - 1], withSpelled) + CalibrationValue(LineDigits(last, withSpelled))
  }

  /** calculate: sums the calibration values of every line of the text. */
  method Calculate(content: string, withSpelled: bool) returns (sum: int)
    requires EveryLineHasDigit(Lines(content), withSpelled)
    ensures sum == CalibrationSum(Lines(content), withSpelled)
  {
    var lines := Lines(content);
    sum := 0;
    var index := 0;
    while index < |lines|
      invariant 0 <= index <= |lines|
      invariant EveryLineHasDigit(lines[..index], withSpelled) && sum == CalibrationSum(lines[..index], withSpelled)
    {
      var digits := FindDigits(lines[index], withSpelled);
      var number := 10 * digits[0] + digits[|digits| - 1];
      assert number == CalibrationValue(digits);
      CalibrationSumStep(lines, index, withSpelled);
      sum := sum + number;
      index := index + 1;
    }
    assert lines[..index] == lines;
  }

  /** One more line adds its calibration value to the sum. */
  lemma CalibrationSumStep(lines: seq<string>, n: nat, withSpelled: bool)
    requires EveryLineHasDigit(lines, withSpelled) && n < |lines|
    ensures |LineDigits(lines[n], withSpelled)| > 0
    ensures EveryLineHasDigit(lines[..n + 1], withSpelled) && EveryLineHasDigit(lines[..n], withSpelled)
    ensures CalibrationSum(lines[..n + 1], withSpelled) ==
      CalibrationSum(lines[..n], withSpelled) + CalibrationValue(LineDigits(lines[n], withSpelled))
  {
    assert lines[..n + 1][..n] == lines[..n];
    assert forall k :: 0 <= k < n + 1 ==> lines[..n + 1][k] == lines[k];
  }

  /** A text that starts with a spelled name starts with that name's first two letters. */
  lemma OpeningLetters(t: string, d: nat)
    requires 1 <= d <= 9
    ensures StartsWith(t, Name(d)) ==> |t| >= 2 && t[0] == Name(d)[0] && t[1] == Name(d)[1]
  {
    TableShape();
    if StartsWith(t, Name(d)) {
      assert t[..|Name(d)|][0] == t[0] && t[..|Name(d)|][1] == t[1];
    }
  }

  /** `a` followed by `b` is how one of the spelled names begins. */
  predicate NameOpening(a: char, b: char)
  {
    (a == 'o' && b == 'n') || (a == 't' && (b == 'w' || b == 'h')) || (a == 'f' && (b == 'o' || b == 'i')) ||
    (a == 's' && (b == 'i' || b == 'e')) || (a == 'e' && b == 'i') || (a == 'n' && b == 'i')
  }

  /** A non-digit that does not begin a name's opening letters contributes nothing. */
  lemma NothingAt(line: string, k: nat)
    requires k < |line| && !IsDigit(line[k])
    requires k + 1 == |line| || !NameOpening(line[k], line[k + 1])
    ensures Contribution(line, k, true) == []
  {
    var t := line[k..];
    forall d | 1 <= d <= 9
      ensures !StartsWith(t, Name(d))
    {
      OpeningLetters(t, d);
      NameOf(d);
    }
  }

  /** A letter where a spelled name starts contributes that name's digit. */
  lemma WordAt(line: string, k: nat, d: nat)
    requires k < |line| && IsAlphabetic(line[k]) && 1 <= d <= 9
    requires StartsWith(line[k..], Name(d))
    ensures Contribution(line, k, true) == [d]
  {
    var found := SpelledPrefix(line[k..], 0);
    NamePrefixUnique(line[k..], d, found.value);
  }

  /** In "oneight" the words "one" and "eight" start at columns 0 and 2. */
  lemma OneightWords()
    ensures Contribution("oneight", 0, true) == [1] && Contribution("oneight", 2, true) == [8]
  {
    var line := "oneight";
    NameOf(1);
    assert line[0..][..3] == "one";
    WordAt(line, 0, 1);
    NameOf(8);
    assert line[2..][..5] == "eight";
    WordAt(line, 2, 8);
  }

  /** No other column of "oneight" starts a name. */
  lemma OneightGaps()
    ensures forall k :: k in {1, 3, 4, 5, 6} ==> Contribution("oneight", k, true) == []
  {
    var line := "oneight";
    NothingAt(line, 6);
    NothingAt(line, 5);
    NothingAt(line, 4);
    NothingAt(line, 3);
    NothingAt(line, 1);
  }

  /** Overlapping spelled words both count: "oneight" has the digits 1 and 8. */
  lemma OverlappingWords()
    ensures LineDigits("oneight", true) == [1, 8]
  {
    var line := "oneight";
    OneightWords();
    OneightGaps();
    assert DigitsFrom(line, 6, true) == [];
    assert DigitsFrom(line, 5, true) == [];
    assert DigitsFrom(line, 4, true) == [];
    assert DigitsFrom(line, 3, true) == [];
    assert DigitsFrom(line, 2, true) == [8];
    assert DigitsFrom(line, 1, true) == [8];
  }
}
