/**
 * Day 2 (src/day2/mod.rs): cube games. A game line lists samples of cubes
 * drawn from a bag; puzzle 1 sums the ids of the games possible with a bag of
 * 12 red, 13 green and 14 blue cubes, puzzle 2 sums the games' powers (the
 * product of the per-colour maxima).
 */
module Day2 {
  import opened Wrappers
  import opened Text

  datatype Color = Red | Green | Blue

  /** The word for a colour in the puzzle input. */
  function ColorName(c: Color): string
  {
    match c
    case Red => "red"
    case Green => "green"
    case Blue => "blue"
  }

  /** Color::from_str: the three colour words, anything else is an error. */
  function ColorFromStr(s: string): (r: Option<Color>)
    ensures r.Some? <==> s == "red" || s == "green" || s == "blue"
    ensures forall c :: r == Some(c) <==> s == ColorName(c)
  {
    match s
    case "red" => Some(Red)
    case "green" => Some(Green)
    case "blue" => Some(Blue)
    case _ => None
  }

  datatype Cube = Cube(color: Color)

  datatype Sample = Sample(cubes: seq<Cube>)

  datatype Game = Game(id: int, samples: seq<Sample>)

  /** A bag: how many cubes of each listed colour it holds. */
  datatype Bag = Bag(sets: seq<(int, Color)>)

  /** The number of cubes of colour `color`. */
  function CountColor(cubes: seq<Cube>, color: Color): (n: nat)
    ensures n <= |cubes|
  {
    if cubes == [] then 0
    else CountColor(cubes[..|cubes| - 1], color) + if cubes[|cubes| - 1].color == color then 1 else 0
  }

  /** Counting is additive over concatenation. */
  lemma {:induction false} CountColorAppend(a: seq<Cube>, b: seq<Cube>, color: Color)
    ensures CountColor(a + b, color) == CountColor(a, color) + CountColor(b, color)
    decreases |b|
  {
    if b != [] {
      var b' := b[..|b| - 1];
      var ab := a + b;
      assert ab[..|ab| - 1] == a + b';
      assert ab[|ab| - 1] == b[|b| - 1];
      CountColorAppend(a, b', color);
      assert CountColor(ab, color) == CountColor(a + b', color) + if b[|b| - 1].color == color then 1 else 0;
      assert CountColor(b, color) == CountColor(b', color) + if b[|b| - 1].color == color then 1 else 0;
    } else {
      assert a + b == a;
    }
  }

  /** `n` cubes of one colour (`for _ in 0..n` pushes nothing when `n <= 0`). */
  function Cubes(color: Color, n: int): (r: seq<Cube>)
    ensures |r| == if n > 0 then n else 0
    decreases n
  {
    if n <= 0 then [] else Cubes(color, n - 1) + [Cube(color)]
  }

  /** `n` cubes of colour `color` hold `n` of that colour and none of any other. */
  lemma {:induction false} CountCubes(color: Color, n: int, other: Color)
    ensures CountColor(Cubes(color, n), other) == if color == other && n > 0 then n else 0
    decreases n
  {
    if n > 0 {
      CountCubes(color, n - 1, other);
      assert Cubes(color, n)[..n - 1] == Cubes(color, n - 1);
    }
  }

  /**
   * Sample::can_fit: starts from `count` and takes one off for every cube of
   * the colour; the sample fits when the result is not negative.
   */
  method CanFit(sample: Sample, count: int, color: Color) returns (fits: bool)
    ensures fits <==> CountColor(sample.cubes, color) <= count
  {
    var remaining := count;
    for i := 0 to |sample.cubes|
      invariant remaining == count - CountColor(sample.cubes[..i], color)
    {
      assert sample.cubes[..i + 1][..i] == sample.cubes[..i];
      if sample.cubes[i].color == color {
        remaining := remaining - 1;
      }
    }
    assert sample.cubes[..|sample.cubes|] == sample.cubes;
    return remaining >= 0;
  }

  /** The largest number of cubes of `color` shown in one sample. */
  function MaxCount(samples: seq<Sample>, color: Color): (m: nat)
    requires |samples| > 0
    ensures forall i :: 0 <= i < |samples| ==> CountColor(samples[i].cubes, color) <= m
    ensures exists i :: 0 <= i < |samples| && CountColor(samples[i].cubes, color) == m
  {
    var last := CountColor(samples[|samples| - 1].cubes, color);
    if |samples| == 1 then last
    else
      var m := MaxCount(samples[..|samples| - 1], color);
      if last > m then last else m
  }

  /** Game::max_cubes: the per-sample counts of `color`, maximised; no samples gives no maximum. */
  function MaxCubes(game: Game, color: Color): (r: Option<nat>)
    ensures r.None? <==> |game.samples| == 0
    ensures r.Some? ==> forall i :: 0 <= i < |game.samples| ==> CountColor(game.samples[i].cubes, color) <= r.value
    ensures r.Some? ==> exists i :: 0 <= i < |game.samples| && CountColor(game.samples[i].cubes, color) == r.value
  {
    if |game.samples| == 0 then None else Some(MaxCount(game.samples, color))
  }

  /** Every listed colour of the bag has at least as many cubes as the sample shows. */
  predicate FitsBag(sample: Sample, bag: Bag)
  {
    forall j :: 0 <= j < |bag.sets| ==> CountColor(sample.cubes, bag.sets[j].1) <= bag.sets[j].0
  }

  /** Every sample of the game fits the bag. */
  predicate Possible(game: Game, bag: Bag)
  {
    forall i :: 0 <= i < |game.samples| ==> FitsBag(game.samples[i], bag)
  }

  /**
   * `game.samples.iter().all(|sample| bag.sets.iter().all(|(count, color)| sample.can_fit(count, color)))`,
   * stopping at the first sample and set that do not fit.
   */
  method IsPossible(game: Game, bag: Bag) returns (possible: bool)
    ensures possible <==> Possible(game, bag)
  {
    for i := 0 to |game.samples|
      invariant forall i' :: 0 <= i' < i ==> FitsBag(game.samples[i'], bag)
    {
      for j := 0 to |bag.sets|
        invariant forall j' :: 0 <= j' < j ==> CountColor(game.samples[i].cubes, bag.sets[j'].1) <= bag.sets[j'].0
      {
        var fits := CanFit(game.samples[i], bag.sets[j].0, bag.sets[j].1);
        if !fits {
          return false;
        }
      }
    }
    return true;
  }

  /** The bag of puzzle 1. */
  const PuzzleOneBag := Bag([(12, Red), (13, Green), (14, Blue)])

  /** With the puzzle 1 bag, a game is possible iff no sample shows more than 12 red, 13 green or 14 blue cubes. */
  lemma PuzzleOneBagLimits(game: Game)
    ensures Possible(game, PuzzleOneBag) <==>
      forall i :: 0 <= i < |game.samples| ==>
        CountColor(game.samples[i].cubes, Red) <= 12 &&
        CountColor(game.samples[i].cubes, Green) <= 13 &&
        CountColor(game.samples[i].cubes, Blue) <= 14
  {
    var sets := PuzzleOneBag.sets;
    assert sets[0] == (12, Red) && sets[1] == (13, Green) && sets[2] == (14, Blue);
  }

  /** The sum of the ids of the games possible with the puzzle 1 bag. */
  function PossibleIdSum(games: seq<Game>): int
  {
    if games == [] then 0
    else
      var last := games[|games| - 1];
      PossibleIdSum(games[..|games| - 1]) + if Possible(last, PuzzleOneBag) then last.id else 0
  }

  /** puzzle_1: adds up the ids of the possible games. */
  method PuzzleOne(games: seq<Game>) returns (sum: int)
    ensures sum == PossibleIdSum(games)
  {
    sum := 0;
    for k := 0 to |games|
      invariant sum == PossibleIdSum(games[..k])
    {
      assert games[..k + 1][..k] == games[..k];
      var possible := IsPossible(games[k], PuzzleOneBag);
      if possible {
        sum := sum + games[k].id;
      }
    }
    assert games[..|games|] == games;
  }

  /** `max_cubes(color).unwrap_or(0)`. */
  function MaxOrZero(game: Game, color: Color): nat
  {
    match MaxCubes(game, color)
    case Some(m) => m
    case None => 0
  }

  /** The bag puzzle 2 builds for a game: each colour's maximum, or 0. */
  function MinimalBag(game: Game): Bag
  {
    Bag([(MaxOrZero(game, Red), Red), (MaxOrZero(game, Green), Green), (MaxOrZero(game, Blue), Blue)])
  }

  /** A game's power: the product of the counts of its minimal bag. */
  function Power(game: Game): int
  {
    var sets := MinimalBag(game).sets;
    sets[0].0 * sets[1].0 * sets[2].0
  }

  /** Some sample of a game with samples shows exactly the maximum of `color`. */
  lemma MaxOrZeroAttained(game: Game, color: Color) returns (i: nat)
    requires |game.samples| > 0
    ensures i < |game.samples| && CountColor(game.samples[i].cubes, color) == MaxOrZero(game, color)
  {
    i :| 0 <= i < |game.samples| && CountColor(game.samples[i].cubes, color) == MaxOrZero(game, color);
  }

  /** The bag of puzzle 2 is one the game is possible with. */
  lemma MinimalBagFits(game: Game)
    ensures Possible(game, MinimalBag(game))
  {
    var least := MinimalBag(game);
    forall i | 0 <= i < |game.samples|
      ensures FitsBag(game.samples[i], least)
    {
      forall j | 0 <= j < 3
        ensures CountColor(game.samples[i].cubes, least.sets[j].1) <= least.sets[j].0
      {
      }
    }
  }

  /**
   * The bag of puzzle 2 is the smallest bag the game is possible with: any
   * red/green/blue bag the game fits has at least its counts.
   */
  lemma MinimalBagIsLeast(game: Game, r: nat, g: nat, b: nat)
    requires Possible(game, Bag([(r, Red), (g, Green), (b, Blue)]))
    ensures MaxOrZero(game, Red) <= r && MaxOrZero(game, Green) <= g && MaxOrZero(game, Blue) <= b
  {
    var bag := Bag([(r, Red), (g, Green), (b, Blue)]);
    if |game.samples| > 0 {
      var ir := MaxOrZeroAttained(game, Red);
      assert FitsBag(game.samples[ir], bag);
      assert CountColor(game.samples[ir].cubes, bag.sets[0].1) <= bag.sets[0].0;
      var ig := MaxOrZeroAttained(game, Green);
      assert FitsBag(game.samples[ig], bag);
      assert CountColor(game.samples[ig].cubes, bag.sets[1].1) <= bag.sets[1].0;
      var ib := MaxOrZeroAttained(game, Blue);
      assert FitsBag(game.samples[ib], bag);
      assert CountColor(game.samples[ib].cubes, bag.sets[2].1) <= bag.sets[2].0;
    }
  }

  /** No sample of the game shows a cube of colour `c`. */
  predicate Missing(game: Game, c: Color)
  {
    forall i :: 0 <= i < |game.samples| ==> CountColor(game.samples[i].cubes, c) == 0
  }

  /** A colour's maximum is 0 exactly when no sample shows it. */
  lemma MissingIsZero(game: Game, c: Color)
    ensures Missing(game, c) <==> MaxOrZero(game, c) == 0
  {
    if |game.samples| > 0 {
      var i := MaxOrZeroAttained(game, c);
    }
  }

  /** A product of three naturals is 0 exactly when one of them is. */
  lemma ProductZero(a: nat, b: nat, c: nat)
    ensures a * b * c == 0 <==> a == 0 || b == 0 || c == 0
  {
    if a > 0 && b > 0 && c > 0 {
      assert a * b > 0;
      assert a * b * c > 0;
    }
  }

  /** A game's power is the product of its three maxima, and is 0 exactly when some colour never shows. */
  lemma PowerZero(game: Game)
    ensures Power(game) == MaxOrZero(game, Red) * MaxOrZero(game, Green) * MaxOrZero(game, Blue)
    ensures Power(game) == 0 <==> exists c :: Missing(game, c)
  {
    ProductZero(MaxOrZero(game, Red), MaxOrZero(game, Green), MaxOrZero(game, Blue));
    MissingIsZero(game, Red);
    MissingIsZero(game, Green);
    MissingIsZero(game, Blue);
    if Missing(game, Red) || Missing(game, Green) || Missing(game, Blue) {
      var c := if Missing(game, Red) then Red else if Missing(game, Green) then Green else Blue;
      assert Missing(game, c);
    }
    if exists c :: Missing(game, c) {
      var c :| Missing(game, c);
      assert c == Red || c == Green || c == Blue;
    }
  }

  /** The sum of the games' powers. */
  function PowerSum(games: seq<Game>): int
  {
    if games == [] then 0 else PowerSum(games[..|games| - 1]) + Power(games[|games| - 1])
  }

  /** puzzle_2: adds up the powers of the games. */
  method PuzzleTwo(games: seq<Game>) returns (sum: int)
    ensures sum == PowerSum(games)
  {
    sum := 0;
    for k := 0 to |games|
      invariant sum == PowerSum(games[..k])
    {
      assert games[..k + 1][..k] == games[..k];
      var bag := MinimalBag(games[k]);
      var power := bag.sets[0].0 * bag.sets[1].0 * bag.sets[2].0;
      sum := sum + power;
    }
    assert games[..|games|] == games;
  }

  /**
   * One comma-separated group such as ` 3 blue`: its first character (the
   * space after the separator) is skipped, the rest must be a count and a
   * colour separated by one space.
   */
  function ParseCubeGroup(group: string): (r: Option<(int, Color)>)
    ensures r.Some? ==> I32_MIN <= r.value.0 <= I32_MAX
  {
    if |group| == 0 then None
    else
      var words := Split(group[1..], " ");
      if |words| != 2 then None
      else
        match (ParseI32(words[0]), ColorFromStr(words[1]))
        case (Some(n), Some(c)) => Some((n, c))
        case _ => None
  }

  /** The cubes of a sample's groups, in order; `None` if a group does not parse. */
  function ParseGroups(groups: seq<string>): Option<seq<Cube>>
  {
    if groups == [] then Some([])
    else
      var init := ParseGroups(groups[..|groups| - 1]);
      var group := ParseCubeGroup(groups[|groups| - 1]);
      if init.None? || group.None? then None
      else Some(init.value + Cubes(group.value.1, group.value.0))
  }

  /** The samples of a game, in order; `None` if one does not parse. */
  function ParseSamples(samples: seq<string>): Option<seq<Sample>>
  {
    if samples == [] then Some([])
    else
      match (ParseSamples(samples[..|samples| - 1]), ParseGroups(Split(samples[|samples| - 1], ",")))
      case (Some(done), Some(cubes)) => Some(done + [Sample(cubes)])
      case _ => None
  }

  /** A game line `Game <id>: <sample>; <sample>; ...`, or `None` where the source panics. */
  function ParseGame(line: string): Option<Game>
  {
    var input := Split(line, ":");
    if |input| != 2 then None
    else
      var header := Split(input[0], " ");
      match ParseSamples(Split(input[1], ";"))
      case None => None
      case Some(samples) =>
        if |header| != 2 then None
        else
          match ParseI32(header[1])
          case None => None
          case Some(id) => Some(Game(id, samples))
  }

  /** The cubes of every `;`-separated piece. */
  function SampleCubes(samples: seq<string>): (opts: seq<Option<seq<Cube>>>)
    ensures |opts| == |samples| && forall k :: 0 <= k < |samples| ==> opts[k] == ParseGroups(Split(samples[k], ","))
  {
    seq(|samples|, k requires 0 <= k < |samples| => ParseGroups(Split(samples[k], ",")))
  }

  /** One sample per piece's cubes, in order; `None` if a piece did not parse. */
  function SamplesOf(opts: seq<Option<seq<Cube>>>): Option<seq<Sample>>
  {
    if opts == [] then Some([])
    else
      match (SamplesOf(opts[..|opts| - 1]), opts[|opts| - 1])
      case (Some(done), Some(cubes)) => Some(done + [Sample(cubes)])
      case _ => None
  }

  /** Parsing the samples is folding the cubes of the pieces. */
  lemma {:induction false} ParseSamplesOpts(samples: seq<string>)
    ensures ParseSamples(samples) == SamplesOf(SampleCubes(samples))
  {
    if samples != [] {
      var n := |samples| - 1;
      ParseSamplesOpts(samples[..n]);
      assert SampleCubes(samples)[..n] == SampleCubes(samples[..n]);
    }
  }

  /** The fold succeeds exactly when every piece parsed, with one sample per piece. */
  lemma {:induction false} SamplesOfEach(opts: seq<Option<seq<Cube>>>)
    ensures SamplesOf(opts).Some? <==> forall i :: 0 <= i < |opts| ==> opts[i].Some?
    ensures SamplesOf(opts).Some? ==>
      |SamplesOf(opts).value| == |opts| && forall i :: 0 <= i < |opts| ==> Some(SamplesOf(opts).value[i].cubes) == opts[i]
  {
    if opts != [] {
      var n := |opts| - 1;
      var init := opts[..n];
      SamplesOfEach(init);
      assert forall i :: 0 <= i < n ==> init[i] == opts[i];
    }
  }

  /**
   * The samples parse exactly when every `;`-separated piece does, and then
   * there is one sample per piece, holding that piece's cubes.
   */
  lemma SamplesEach(samples: seq<string>)
    ensures ParseSamples(samples).Some? <==> forall i :: 0 <= i < |samples| ==> ParseGroups(Split(samples[i], ",")).Some?
    ensures ParseSamples(samples).Some? ==>
      |ParseSamples(samples).value| == |samples| &&
      forall i :: 0 <= i < |samples| ==> Some(ParseSamples(samples).value[i].cubes) == ParseGroups(Split(samples[i], ","))
  {
    ParseSamplesOpts(samples);
    SamplesOfEach(SampleCubes(samples));
  }

  /**
   * A line `Game <id>:<samples>` whose samples part has no `:` is the game
   * with that id and the samples of its `;`-separated pieces, for every id an
   * `i32` holds; it fails exactly when a sample does not parse.
   */
  lemma GameLine(id: nat, samplesText: string)
    requires id <= I32_MAX
    requires forall k :: 0 <= k < |samplesText| ==> samplesText[k] != ':'
    ensures ParseGame("Game " + NatToString(id) + ":" + samplesText) ==
      if ParseSamples(Split(samplesText, ";")).Some? then Some(Game(id, ParseSamples(Split(samplesText, ";")).value)) else None
  {
    var digits := NatToString(id);
    var header := "Game " + digits;
    assert forall k :: 0 <= k < |digits| ==> IsDigit(digits[k]);
    assert forall k :: 0 <= k < |header| ==> header[k] != ':' by {
      forall k | 0 <= k < |header| ensures header[k] != ':' {
        if k >= 5 { assert header[k] == digits[k - 5]; }
      }
    }
    assert header + ":" + samplesText == header + [':'] + samplesText;
    SplitTwo(header, ':', samplesText);
    assert "Game " + digits == "Game" + [' '] + digits;
    SplitTwo("Game", ' ', digits);
    DigitsParse(digits, I32_MIN, I32_MAX);
  }

  lemma {:induction false} GroupsFailFromPrefix(groups: seq<string>, j: nat)
    requires j <= |groups| && ParseGroups(groups[..j]).None?
    ensures ParseGroups(groups).None?
    decreases |groups| - j
  {
    if j < |groups| {
      assert groups[..j + 1][..j] == groups[..j];
      GroupsFailFromPrefix(groups, j + 1);
    } else {
      assert groups[..j] == groups;
    }
  }

  lemma {:induction false} SamplesFailFromPrefix(samples: seq<string>, j: nat)
    requires j <= |samples| && ParseSamples(samples[..j]).None?
    ensures ParseSamples(samples).None?
    decreases |samples| - j
  {
    if j < |samples| {
      assert samples[..j + 1][..j] == samples[..j];
      SamplesFailFromPrefix(samples, j + 1);
    } else {
      assert samples[..j] == samples;
    }
  }

  /** The text `N colour` splits at its one space into the count's digits and the colour word. */
  lemma GroupWords(n: nat, c: Color)
    ensures Split(NatToString(n) + " " + ColorName(c), " ") == [NatToString(n), ColorName(c)]
  {
    var digits := NatToString(n);
    var name := ColorName(c);
    assert forall k :: 0 <= k < |digits| ==> IsDigit(digits[k]);
    assert forall k :: 0 <= k < |name| ==> name[k] != ' ';
    SplitTwo(digits, ' ', name);
  }

  /** The group ` N colour` parses as `N` cubes of that colour, for every count an `i32` holds. */
  lemma GroupRoundTrip(n: nat, c: Color)
    requires n <= I32_MAX
    ensures ParseCubeGroup(" " + NatToString(n) + " " + ColorName(c)) == Some((n, c))
    ensures CountColor(Cubes(c, n), c) == n
  {
    var digits := NatToString(n);
    var group := " " + digits + " " + ColorName(c);
    assert group[1..] == digits + " " + ColorName(c);
    GroupWords(n, c);
    DigitsParse(digits, I32_MIN, I32_MAX);
    assert ColorFromStr(ColorName(c)) == Some(c);
    CountCubes(c, n, c);
  }

  /** `for _ in 0..count { cubes.push(Cube { color }) }`. */
  method PushCubes(cubes: seq<Cube>, count: int, color: Color) returns (pushed: seq<Cube>)
    ensures pushed == cubes + Cubes(color, count)
    ensures CountColor(pushed, color) == CountColor(cubes, color) + if count > 0 then count else 0
    ensures forall other :: other != color ==> CountColor(pushed, other) == CountColor(cubes, other)
  {
    pushed := cubes;
    for k := 0 to if count > 0 then count else 0
      invariant pushed == cubes + Cubes(color, k)
    {
      pushed := pushed + [Cube(color)];
    }
    forall other
      ensures CountColor(pushed, other) == CountColor(cubes, other) + CountColor(Cubes(color, count), other)
    {
      CountColorAppend(cubes, Cubes(color, count), other);
    }
    CountCubes(color, count, color);
    forall other | other != color
      ensures CountColor(Cubes(color, count), other) == 0
    {
      CountCubes(color, count, other);
    }
  }

  /** The cubes of one `;`-separated sample, group by group; `None` where the source panics. */
  method ParseSample(sample: string) returns (cubes: Option<seq<Cube>>)
    ensures cubes == ParseGroups(Split(sample, ","))
  {
    var cubesSet := Split(sample, ",");
    var done: seq<Cube> := [];
    for j := 0 to |cubesSet|
      invariant ParseGroups(cubesSet[..j]) == Some(done)
    {
      var group := ParseCubeGroup(cubesSet[j]);
      if group.None? {
        assert cubesSet[..j + 1][..j] == cubesSet[..j];
        GroupsFailFromPrefix(cubesSet, j + 1);
        return None;
      }
      GroupsStep(cubesSet, j, done, group.value.0, group.value.1);
      done := PushCubes(done, group.value.0, group.value.1);
    }
    assert cubesSet[..|cubesSet|] == cubesSet;
    return Some(done);
  }

  /** One more group that parses appends its cubes. */
  lemma GroupsStep(groups: seq<string>, j: nat, done: seq<Cube>, n: int, c: Color)
    requires j < |groups| && ParseGroups(groups[..j]) == Some(done)
    requires ParseCubeGroup(groups[j]) == Some((n, c))
    ensures ParseGroups(groups[..j + 1]) == Some(done + Cubes(c, n))
  {
    var prefix := groups[..j + 1];
    assert prefix[..|prefix| - 1] == groups[..j];
    assert prefix[|prefix| - 1] == groups[j];
  }

  /**
   * The line parsing of parse_input: splits at `:` and `;`, parses every
   * sample, and reads the id from `Game <id>`.
   */
  method ParseLine(line: string) returns (game: Option<Game>)
    ensures game == ParseGame(line)
  {
    var input := Split(line, ":");
    if |input| != 2 {
      return None;
    }
    var samples := ParseSampleList(Split(input[1], ";"));
    if samples.None? {
      return None;
    }
    var gameInput := Split(input[0], " ");
    if |gameInput| != 2 {
      return None;
    }
    var id := ParseI32(gameInput[1]);
    if id.None? {
      return None;
    }
    return Some(Game(id.value, samples.value));
  }

  /** The loop over the `;`-separated samples of a game line, stopping at the first one that does not parse. */
  method ParseSampleList(samplesSet: seq<string>) returns (samples: Option<seq<Sample>>)
    ensures samples == ParseSamples(samplesSet)
  {
    var done: seq<Sample> := [];
    for i := 0 to |samplesSet|
      invariant ParseSamples(samplesSet[..i]) == Some(done)
    {
      assert samplesSet[..i + 1][..i] == samplesSet[..i];
      var cubes := ParseSample(samplesSet[i]);
      if cubes.None? {
        SamplesFailFromPrefix(samplesSet, i + 1);
        return None;
      }
      done := done + [Sample(cubes.value)];
    }
    assert samplesSet[..|samplesSet|] == samplesSet;
    return Some(done);
  }
}
