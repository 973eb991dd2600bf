/**
 * Day 4 (src/day4/mod.rs): scratch cards. A card has a set of winning numbers
 * and a set of given numbers; puzzle 1 scores each card by the size of their
 * intersection as a power of two, puzzle 2 counts the copies a card wins,
 * cascading, with an explicit worklist.
 */
module Day4 {
  import opened Wrappers
  import opened Text

  /** A card; `id` is the printed card number minus one. */
  datatype Card = Card(id: int, winning: set<int>, given: set<int>)

  /** The number of the card's given numbers that are winning numbers. */
  function Matches(card: Card): nat
  {
    |card.winning * card.given|
  }

  // ---- Parsing ----

  /** `flat_map(|s| s.parse::<i32>().ok())`: the words that parse as `i32`, in order. */
  function ParsedNumbers(words: seq<string>): seq<int>
  {
    Somes(I32Values(words))
  }

  /** A number is kept exactly when one of the words parses to it: words that are not numbers are dropped. */
  lemma ParsedNumbersAreParsedWords(words: seq<string>)
    ensures forall x :: x in ParsedNumbers(words) ==> exists k :: 0 <= k < |words| && ParseI32(words[k]) == Some(x)
    ensures forall k :: 0 <= k < |words| && ParseI32(words[k]).Some? ==> ParseI32(words[k]).value in ParsedNumbers(words)
  {
    SomesMembers(I32Values(words));
  }

  /** The numbers of a whitespace-separated list, as a set (`HashSet::from_iter`). */
  function NumberSet(text: string): set<int>
  {
    set x | x in ParsedNumbers(SplitWhitespace(text))
  }

  /**
   * One card line `Card <n>: <winning> | <given>`; `None` where the source
   * panics (a missing `:` or `|`, a card number that does not parse, or the
   * `i32` subtraction overflowing).
   */
  function ParseCard(line: string): Option<Card>
  {
    var input := Split(line, ":");
    if |input| != 2 then None else CardOfParts(input[0], input[1])
  }

  /** The card of a line's header and its numbers part, split at `|`. */
  function CardOfParts(header: string, numbers: string): Option<Card>
  {
    var numbersSet := Split(numbers, "|");
    if |numbersSet| != 2 then None else CardOfLists(header, numbersSet[0], numbersSet[1])
  }

  /** The card of a header and its two number lists. */
  function CardOfLists(header: string, winning: string, given: string): Option<Card>
  {
    match CardId(Concat(SplitWhitespace(header)))
    case None => None
    case Some(id) => Some(Card(id, NumberSet(winning), NumberSet(given)))
  }

  /** The `i32` after the first four characters of the header without its whitespace, minus one. */
  function CardId(cardInput: string): Option<int>
  {
    if |cardInput| < 4 then None
    else
      match ParseI32(cardInput[4..])
      case None => None
      case Some(cardId) => if cardId - 1 < I32_MIN then None else Some(cardId - 1)
  }

  /**
   * A card line made of a header, a `:`, the winning list, a `|` and the given
   * list parses into the header's number minus one (the header read without
   * its whitespace, from its fifth character on) and the two lists' numbers.
   */
  lemma CardLine(header: string, winning: string, given: string, n: int)
    requires forall k :: 0 <= k < |header| ==> header[k] != ':'
    requires forall k :: 0 <= k < |winning| ==> winning[k] != ':' && winning[k] != '|'
    requires forall k :: 0 <= k < |given| ==> given[k] != ':' && given[k] != '|'
    requires |RemoveWhitespace(header)| >= 4 && ParseI32(RemoveWhitespace(header)[4..]) == Some(n)
    requires n > I32_MIN
    ensures ParseCard(header + ":" + winning + "|" + given) == Some(Card(n - 1, NumberSet(winning), NumberSet(given)))
  {
    var numbers := winning + "|" + given;
    NumbersPartHasNoColon(winning, given);
    assert header + ":" + winning + "|" + given == header + [':'] + numbers;
    SplitTwo(header, ':', numbers);
    CardOfPartsSplits(header, winning, given);
    CardOfListsNumber(header, winning, given, n);
  }

  lemma NumbersPartHasNoColon(winning: string, given: string)
    requires forall k :: 0 <= k < |winning| ==> winning[k] != ':'
    requires forall k :: 0 <= k < |given| ==> given[k] != ':'
    ensures forall k :: 0 <= k < |winning + "|" + given| ==> (winning + "|" + given)[k] != ':'
  {
    var numbers := winning + "|" + given;
    forall k | 0 <= k < |numbers|
      ensures numbers[k] != ':'
    {
      if k < |winning| {
        assert numbers[k] == winning[k];
      } else if k > |winning| {
        assert numbers[k] == given[k - |winning| - 1];
      }
    }
  }

  lemma CardOfPartsSplits(header: string, winning: string, given: string)
    requires forall k :: 0 <= k < |winning| ==> winning[k] != '|'
    requires forall k :: 0 <= k < |given| ==> given[k] != '|'
    ensures CardOfParts(header, winning + "|" + given) == CardOfLists(header, winning, given)
  {
    assert winning + "|" + given == winning + ['|'] + given;
    SplitTwo(winning, '|', given);
  }

  lemma CardOfListsNumber(header: string, winning: string, given: string, n: int)
    requires |RemoveWhitespace(header)| >= 4 && ParseI32(RemoveWhitespace(header)[4..]) == Some(n)
    requires n > I32_MIN
    ensures CardOfLists(header, winning, given) == Some(Card(n - 1, NumberSet(winning), NumberSet(given)))
  {
    CardIdOfHeader(header, n);
  }

  /** The header without its whitespace, read from its fifth character, gives the id. */
  lemma CardIdOfHeader(header: string, n: int)
    requires |RemoveWhitespace(header)| >= 4 && ParseI32(RemoveWhitespace(header)[4..]) == Some(n)
    requires n > I32_MIN
    ensures CardId(Concat(SplitWhitespace(header))) == Some(n - 1)
  {
    ConcatSplitWhitespace(header);
    CardIdOfText(Concat(SplitWhitespace(header)), RemoveWhitespace(header), n);
  }

  /** Equal header texts give the same id. */
  lemma CardIdOfText(cardInput: string, text: string, n: int)
    requires cardInput == text
    requires |text| >= 4 && ParseI32(text[4..]) == Some(n) && n > I32_MIN
    ensures CardId(cardInput) == Some(n - 1)
  {
  }

  /** The parse of each line, in order. */
  function LineCards(lines: seq<string>): (opts: seq<Option<Card>>)
    ensures |opts| == |lines| && forall k :: 0 <= k < |lines| ==> opts[k] == ParseCard(lines[k])
  {
    seq(|lines|, k requires 0 <= k < |lines| => ParseCard(lines[k]))
  }

  /** The cards of the lines, in order; `None` if a line does not parse. */
  function ParseCards(lines: seq<string>): Option<seq<Card>>
  {
    Collect(LineCards(lines))
  }

  /** parse_input on the file's text: one card per line. */
  method ParseInput(content: string) returns (cards: Option<seq<Card>>)
    ensures cards == ParseCards(Lines(content))
  {
    cards := ParseLines(Lines(content));
  }

  /**
   * The loop of parse_input, pushing the card of each line; it succeeds
   * exactly when every line parses, and then holds the card of each line.
   */
  method ParseLines(lines: seq<string>) returns (cards: Option<seq<Card>>)
    ensures cards == ParseCards(lines)
    ensures cards.Some? <==> forall k :: 0 <= k < |lines| ==> ParseCard(lines[k]).Some?
    ensures cards.Some? ==> |cards.value| == |lines| && forall k :: 0 <= k < |lines| ==> Some(cards.value[k]) == ParseCard(lines[k])
  {
    ghost var opts := LineCards(lines);
    CollectAll(opts);
    var done: seq<Card> := [];
    for i := 0 to |lines|
      invariant Collect(opts[..i]) == Some(done)
    {
      var card := ParseCard(lines[i]);
      if card.None? {
        CollectFailFromPrefix(opts, i + 1);
        return None;
      }
      CollectStep(opts, i, done);
      done := done + [card.value];
    }
    assert opts[..|lines|] == opts;
    return Some(done);
  }

  // ---- Puzzle 1 ----

  /** 2 to the power `k`. */
  function Pow2(k: nat): (p: nat)
    ensures p >= 1
  {
    if k == 0 then 1 else 2 * Pow2(k - 1)
  }

  /** The points of a card with `k` matches: none without a match, else 2^(k-1). */
  function Points(k: nat): nat
  {
    if k == 0 then 0 else Pow2(k - 1)
  }

  /** A match more turns 0 points into 1 and otherwise doubles them, as the points loop does. */
  lemma PointsStep(k: nat)
    ensures Points(k + 1) == if Points(k) == 0 then 1 else 2 * Points(k)
    ensures Points(k) == 0 <==> k == 0
  {
  }

  /**
   * The points loop of puzzle_1 for one card: over the numbers of the
   * intersection, in whatever order the set yields them, the result starts
   * at 0, becomes 1, then doubles.
   */
  method CardPoints(card: Card) returns (result: int)
    ensures result == Points(Matches(card))
  {
    var numbers := card.winning * card.given;
    var remaining := numbers;
    result := 0;
    while remaining != {}
      invariant remaining <= numbers
      invariant result == Points(|numbers| - |remaining|)
      decreases |remaining|
    {
      ghost var some := Pick(remaining);
      var x :| x in remaining;
      assert |remaining - {x}| == |remaining| - 1;
      PointsStep(|numbers| - |remaining|);
      if result == 0 {
        result := 1;
      } else {
        result := result * 2;
      }
      remaining := remaining - {x};
    }
  }

  /** The points of the cards, added up. */
  function PointsTotal(cards: seq<Card>): nat
  {
    if cards == [] then 0 else PointsTotal(cards[..|cards| - 1]) + Points(Matches(cards[|cards| - 1]))
  }

  /** puzzle_1: adds up the points of every card. */
  method PuzzleOne(cards: seq<Card>) returns (points: int)
    ensures points == PointsTotal(cards)
  {
    points := 0;
    for i := 0 to |cards|
      invariant points == PointsTotal(cards[..i])
    {
      assert cards[..i + 1][..i] == cards[..i];
      var result := CardPoints(cards[i]);
      points := points + result;
    }
    assert cards[..|cards|] == cards;
  }

  // ---- Puzzle 2 ----

  /**
   * Every card reachable from card `i` (the cards `i + 1 .. i + k` it wins,
   * where `k` is its number of matches, and so on) is in the list, so that
   * `cards[id]` never panics.
   */
  predicate CopiesDefined(cards: seq<Card>, i: int)
    decreases |cards| - i
  {
    0 <= i < |cards| && forall j :: i < j <= i + Matches(cards[i]) ==> CopiesDefined(cards, j)
  }

  /** The copies card `i` wins: each card `j` in `i + 1 .. i + k` once, plus the copies `j` wins. */
  function Copies(cards: seq<Card>, i: int): nat
    requires CopiesDefined(cards, i)
    decreases |cards| - i, 1
  {
    RangeCopies(cards, i + 1, i + 1 + Matches(cards[i]))
  }

  /** The sum over `j` in `a .. b` of `1 + Copies(j)`. */
  function RangeCopies(cards: seq<Card>, a: int, b: int): nat
    requires a <= b && forall j :: a <= j < b ==> CopiesDefined(cards, j)
    decreases |cards| - a + 1, 0, b - a
  {
    if a == b then 0 else 1 + Copies(cards, a) + RangeCopies(cards, a + 1, b)
  }

  /** The copies of the ids on the worklist, added up. */
  function StackCopies(cards: seq<Card>, stack: seq<int>): nat
    requires forall k :: 0 <= k < |stack| ==> CopiesDefined(cards, stack[k])
  {
    if stack == [] then 0 else StackCopies(cards, stack[..|stack| - 1]) + Copies(cards, stack[|stack| - 1])
  }

  /**
   * find_copies: pops an id off the worklist, pushes the ids of the cards it
   * wins and counts one copy per push, until the worklist is empty.
   */
  method FindCopies(cards: seq<Card>, originalCard: Card) returns (copies: int)
    requires CopiesDefined(cards, originalCard.id)
    ensures copies == Copies(cards, originalCard.id)
  {
    var stack := [originalCard.id];
    copies := 0;
    assert stack[..0] == [];
    while stack != []
      invariant forall k :: 0 <= k < |stack| ==> CopiesDefined(cards, stack[k])
      invariant copies + StackCopies(cards, stack) == Copies(cards, originalCard.id)
      decreases Copies(cards, originalCard.id) - copies + |stack|
    {
      var currentId := stack[|stack| - 1];
      stack := stack[..|stack| - 1];
      var currentCard := cards[currentId];
      var start := currentId + 1;
      var end := start + |currentCard.winning * currentCard.given|;
      PushWon(cards, currentId);
      ghost var balance := |stack| - copies;
      for nextId := start to end
        invariant forall k :: 0 <= k < |stack| ==> CopiesDefined(cards, stack[k])
        invariant copies + StackCopies(cards, stack) + RangeCopies(cards, nextId, end) == Copies(cards, originalCard.id)
        invariant |stack| - copies == balance
      {
        StackPush(cards, stack, nextId);
        stack := stack + [nextId];
        copies := copies + 1;
      }
    }
  }

  /** The cards a reachable card wins are reachable, and popping it trades its copies for theirs. */
  lemma PushWon(cards: seq<Card>, i: int)
    requires CopiesDefined(cards, i)
    ensures forall j :: i < j <= i + Matches(cards[i]) ==> CopiesDefined(cards, j)
    ensures Copies(cards, i) == RangeCopies(cards, i + 1, i + 1 + Matches(cards[i]))
  {
  }

  /** Pushing an id adds its copies to the worklist's total. */
  lemma StackPush(cards: seq<Card>, stack: seq<int>, j: int)
    requires forall k :: 0 <= k < |stack| ==> CopiesDefined(cards, stack[k])
    requires CopiesDefined(cards, j)
    ensures StackCopies(cards, stack + [j]) == StackCopies(cards, stack) + Copies(cards, j)
  {
    assert (stack + [j])[..|stack|] == stack;
  }

  /** When each card's id is its index and the cards it wins are all in the list, every card's copies are defined. */
  lemma {:induction false} IndexedCardsDefined(cards: seq<Card>, i: int)
    requires 0 <= i < |cards|
    requires forall j :: 0 <= j < |cards| ==> j + Matches(cards[j]) < |cards|
    ensures CopiesDefined(cards, i)
    decreases |cards| - i
  {
    forall j | i < j <= i + Matches(cards[i])
      ensures CopiesDefined(cards, j)
    {
      IndexedCardsDefined(cards, j);
    }
  }

  /** Every copy won is counted: a card wins at least as many copies as it has matches. */
  lemma CopiesAtLeastMatches(cards: seq<Card>, i: int)
    requires CopiesDefined(cards, i)
    ensures Copies(cards, i) >= Matches(cards[i])
  {
    RangeCopiesAtLeast(cards, i + 1, i + 1 + Matches(cards[i]));
  }

  lemma {:induction false} RangeCopiesAtLeast(cards: seq<Card>, a: int, b: int)
    requires a <= b && forall j :: a <= j < b ==> CopiesDefined(cards, j)
    ensures RangeCopies(cards, a, b) >= b - a
    decreases b - a
  {
    if a < b {
      RangeCopiesAtLeast(cards, a + 1, b);
    }
  }

  /** The cards each card of the list ends up with: itself and the copies it wins. */
  function TotalCards(cards: seq<Card>, n: nat): nat
    requires n <= |cards|
    requires forall k :: 0 <= k < |cards| ==> CopiesDefined(cards, cards[k].id)
  {
    if n == 0 then 0 else TotalCards(cards, n - 1) + Copies(cards, cards[n - 1].id) + 1
  }

  /** puzzle_2: adds up `find_copies(card) + 1` over the cards. */
  method PuzzleTwo(cards: seq<Card>) returns (totalCards: int)
    requires forall k :: 0 <= k < |cards| ==> CopiesDefined(cards, cards[k].id)
    ensures totalCards == TotalCards(cards, |cards|)
    ensures totalCards >= |cards|
  {
    totalCards := 0;
    for i := 0 to |cards|
      invariant totalCards == TotalCards(cards, i)
      invariant totalCards >= i
    {
      var copies := FindCopies(cards, cards[i]);
      totalCards := totalCards + copies + 1;
    }
  }
}
