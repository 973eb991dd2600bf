/**
 * Day 8 (src/day8/mod.rs): a network of nodes, each with a left and a right
 * successor, walked by following a list of `L`/`R` instructions. Puzzle 1
 * walks from `AAA` to `ZZZ`, checking for `ZZZ` only after whole passes over
 * the instructions; puzzle 2 counts, for every node ending in `A`, the steps
 * to the first node ending in `Z` while cycling through the instructions,
 * and folds those counts with `(a * b) / g`, `g` being the number of
 * instructions.
 *
 * The source's walks loop for ever when the target is never reached; here
 * every walk takes a `fuel` bound and reports `OutOfFuel` when it runs out.
 */
module Day8 {
  import opened Wrappers
  import opened Text

  datatype Instruction = Left | Right

  /** The result of a walk: its value, a panic (`unwrap` on a missing node, a division by zero), or no answer within the fuel. */
  datatype Outcome<T> = Done(value: T) | Panic | OutOfFuel

  /** The instructions and, for every node, its left and right successors. */
  datatype Network = Network(instructions: seq<Instruction>, nodes: map<string, (string, string)>)

  /** Instruction::from_str: `L` is left, `R` is right; anything else panics, here `None`. */
  function ParseInstruction(s: string): Option<Instruction>
  {
    if s == "L" then Some(Left) else if s == "R" then Some(Right) else None
  }

  /** The letter of an instruction. */
  function Letter(instruction: Instruction): char
  {
    match instruction
    case Left => 'L'
    case Right => 'R'
  }

  /** Exactly the two one-letter strings `L` and `R` parse, each back to the instruction it spells. */
  lemma InstructionLetters(s: string, instruction: Instruction)
    ensures ParseInstruction([Letter(instruction)]) == Some(instruction)
    ensures ParseInstruction(s).Some? <==> s == [Letter(Left)] || s == [Letter(Right)]
  {
  }

  // ---- Parsing ----

  /** The instruction of every character of the first chunk. */
  function InstructionOpts(text: string): (opts: seq<Option<Instruction>>)
    ensures |opts| == |text| && forall k :: 0 <= k < |text| ==> opts[k] == ParseInstruction([text[k]])
  {
    seq(|text|, k requires 0 <= k < |text| => ParseInstruction([text[k]]))
  }

  /** The instruction line: one instruction per character; any other character than `L` or `R` panics. */
  function ParseInstructions(text: string): Option<seq<Instruction>>
  {
    Collect(InstructionOpts(text))
  }

  /** The instruction line parses exactly when it holds only `L` and `R`, and then spells the instructions. */
  lemma ParsedInstructions(text: string)
    ensures ParseInstructions(text).Some? <==> forall k :: 0 <= k < |text| ==> text[k] == 'L' || text[k] == 'R'
    ensures ParseInstructions(text).Some? ==>
      |ParseInstructions(text).value| == |text| &&
      forall k :: 0 <= k < |text| ==> Letter(ParseInstructions(text).value[k]) == text[k]
  {
    var opts := InstructionOpts(text);
    CollectAll(opts);
    assert forall k :: 0 <= k < |text| ==> (opts[k].Some? <==> text[k] == 'L' || text[k] == 'R');
  }

  /**
   * A node line `KEY = (X, Y)`: split at ` = ` and then at `, `, each into
   * exactly two parts; the first character of the left part and the last of
   * the right part are dropped. Anything else panics, here `None`.
   */
  function ParseNode(line: string): Option<(string, (string, string))>
  {
    var node := Split(line, " = ");
    if |node| != 2 then None
    else
      var directions := Split(node[1], ", ");
      if |directions| != 2 then None
      else
        var left := directions[0];
        var right := directions[1];
        if |left| < 1 || |right| < 1 then None
        else Some((node[0], (left[1..], right[..|right| - 1])))
  }

  /** Node names as they occur in the puzzle: letters and digits. */
  predicate IsName(s: string)
  {
    forall k :: 0 <= k < |s| ==> IsAlphabetic(s[k]) || IsDigit(s[k])
  }

  /** The text of a node line. */
  function NodeLine(key: string, left: string, right: string): string
  {
    key + " = (" + left + ", " + right + ")"
  }

  /** A node line `KEY = (X, Y)` of names parses to `KEY` with successors `X` and `Y`. */
  lemma ParseNodeLine(key: string, left: string, right: string)
    requires IsName(key) && IsName(left) && IsName(right)
    ensures ParseNode(NodeLine(key, left, right)) == Some((key, (left, right)))
  {
    var first := "(" + left;
    var second := right + ")";
    var directions := first + ", " + second;
    var line := NodeLine(key, left, right);
    assert line == key + " = " + directions;
    AbsentCharNoOccurrence(line, " = ", 1, 0, |key|);
    AbsentCharNoOccurrence(directions, " = ", 1, 0, |directions|);
    SplitInTwo(key, " = ", directions);
    AbsentCharNoOccurrence(directions, ", ", 0, 0, |first|);
    AbsentCharNoOccurrence(second, ", ", 0, 0, |second|);
    SplitInTwo(first, ", ", second);
    assert first[1..] == left;
    assert second[..|second| - 1] == right;
  }

  /** The parse of every node line. */
  function NodeOpts(lines: seq<string>): (opts: seq<Option<(string, (string, string))>>)
    ensures |opts| == |lines| && forall k :: 0 <= k < |lines| ==> opts[k] == ParseNode(lines[k])
  {
    seq(|lines|, k requires 0 <= k < |lines| => ParseNode(lines[k]))
  }

  /** The parsed nodes inserted in turn into an empty map; a later key replaces an earlier one; any failed parse panics. */
  function InsertAll(entries: seq<Option<(string, (string, string))>>): Option<map<string, (string, string)>>
  {
    if entries == [] then Some(map[])
    else
      match InsertAll(entries[..|entries| - 1])
      case None => None
      case Some(nodes) =>
        match entries[|entries| - 1]
        case None => None
        case Some(node) => Some(nodes[node.0 := node.1])
  }

  /** The nodes of the node lines. */
  function NodesOf(lines: seq<string>): Option<map<string, (string, string)>>
  {
    InsertAll(NodeOpts(lines))
  }

  /** The insertions succeed exactly when every line parsed. */
  lemma {:induction false} InsertAllSome(entries: seq<Option<(string, (string, string))>>)
    ensures InsertAll(entries).Some? <==> forall i :: 0 <= i < |entries| ==> entries[i].Some?
  {
    if entries != [] {
      var init := entries[..|entries| - 1];
      InsertAllSome(init);
      assert forall i :: 0 <= i < |init| ==> init[i] == entries[i];
    }
  }

  /** The keys of the map are the keys of the parsed lines. */
  lemma {:induction false} InsertAllKeys(entries: seq<Option<(string, (string, string))>>)
    requires forall i :: 0 <= i < |entries| ==> entries[i].Some?
    ensures InsertAll(entries).Some? &&
      forall key :: key in InsertAll(entries).value <==> exists i :: 0 <= i < |entries| && entries[i].value.0 == key
  {
    InsertAllSome(entries);
    if entries != [] {
      var init := entries[..|entries| - 1];
      assert forall i :: 0 <= i < |init| ==> init[i] == entries[i];
      InsertAllKeys(init);
    }
  }

  /** A key has the successors of the last line naming it: a later insert replaces an earlier one. */
  lemma {:induction false} InsertAllLatest(entries: seq<Option<(string, (string, string))>>, i: nat)
    requires forall j :: 0 <= j < |entries| ==> entries[j].Some?
    requires i < |entries|
    requires forall j :: i < j < |entries| ==> entries[j].value.0 != entries[i].value.0
    ensures InsertAll(entries).Some? && entries[i].value.0 in InsertAll(entries).value
    ensures InsertAll(entries).value[entries[i].value.0] == entries[i].value.1
  {
    var n := |entries| - 1;
    var init := entries[..n];
    assert forall j :: 0 <= j < |init| ==> init[j] == entries[j];
    InsertAllSome(init);
    if i < n {
      InsertAllLatest(init, i);
    }
  }

  /** One more parsed line inserts its node into the map of the lines before it. */
  lemma InsertAllStep(entries: seq<Option<(string, (string, string))>>, i: nat, nodes: map<string, (string, string)>)
    requires i < |entries| && InsertAll(entries[..i]) == Some(nodes) && entries[i].Some?
    ensures InsertAll(entries[..i + 1]) == Some(nodes[entries[i].value.0 := entries[i].value.1])
  {
    assert entries[..i + 1][..i] == entries[..i];
  }

  /** The node loop of parse_input: every line is parsed and inserted into the map. */
  method ParseNodeLines(lines: seq<string>) returns (nodes: Option<map<string, (string, string)>>)
    ensures nodes == NodesOf(lines)
  {
    ghost var opts := NodeOpts(lines);
    var parsed: map<string, (string, string)> := map[];
    for i := 0 to |lines|
      invariant InsertAll(opts[..i]) == Some(parsed)
    {
      var node := ParseNode(lines[i]);
      if node.None? {
        InsertAllSome(opts);
        return None;
      }
      InsertAllStep(opts, i, parsed);
      parsed := parsed[node.value.0 := node.value.1];
    }
    assert opts[..|lines|] == opts;
    return Some(parsed);
  }

  /** parse_input: the instruction line and the node lines, separated by an empty line. */
  function ParseNetwork(content: string): Option<Network>
  {
    var chunks := Split(content, "\n\n");
    if |chunks| != 2 then None
    else
      var instructions := ParseInstructions(chunks[0]);
      var nodes := NodesOf(Lines(chunks[1]));
      if instructions.None? || nodes.None? then None
      else Some(Network(instructions.value, nodes.value))
  }

  /** parse_input, with its node loop. */
  method ParseInput(content: string) returns (network: Option<Network>)
    ensures network == ParseNetwork(content)
  {
    var chunks := Split(content, "\n\n");
    if |chunks| != 2 {
      return None;
    }
    var instructions := ParseInstructions(chunks[0]);
    var nodes := ParseNodeLines(Lines(chunks[1]));
    if instructions.None? || nodes.None? {
      return None;
    }
    return Some(Network(instructions.value, nodes.value));
  }

  // ---- Walking ----

  /** One step: the left successor for `L`, the right one for `R`; a node missing from the map panics. */
  function Step(nodes: map<string, (string, string)>, position: string, instruction: Instruction): Option<string>
  {
    if position !in nodes then None
    else
      match instruction
      case Left => Some(nodes[position].0)
      case Right => Some(nodes[position].1)
  }

  /** A step from a node read from the line `KEY = (X, Y)` goes to `X` for `L` and to `Y` for `R`. */
  lemma StepFromLine(key: string, left: string, right: string)
    requires IsName(key) && IsName(left) && IsName(right)
    ensures NodesOf([NodeLine(key, left, right)]).Some?
    ensures Step(NodesOf([NodeLine(key, left, right)]).value, key, Left) == Some(left)
    ensures Step(NodesOf([NodeLine(key, left, right)]).value, key, Right) == Some(right)
  {
    ParseNodeLine(key, left, right);
    var opts := NodeOpts([NodeLine(key, left, right)]);
    assert opts == [Some((key, (left, right)))];
    assert opts[..0] == [];
    assert InsertAll(opts[..0]) == Some(map[]);
    assert NodesOf([NodeLine(key, left, right)]) == InsertAll(opts) == Some(map[key := (left, right)]);
  }

  /** The node reached by following the instructions in order from `position`. */
  function Walk(nodes: map<string, (string, string)>, position: string, instructions: seq<Instruction>): Option<string>
  {
    if instructions == [] then Some(position)
    else
      match Walk(nodes, position, instructions[..|instructions| - 1])
      case None => None
      case Some(p) => Step(nodes, p, instructions[|instructions| - 1])
  }

  /** A walk that fails on a prefix of the instructions fails on all of them. */
  lemma {:induction false} WalkFailFromPrefix(nodes: map<string, (string, string)>, position: string, instructions: seq<Instruction>, j: nat)
    requires j <= |instructions| && Walk(nodes, position, instructions[..j]).None?
    ensures Walk(nodes, position, instructions).None?
    decreases |instructions| - j
  {
    if j < |instructions| {
      var prefix := instructions[..j + 1];
      assert prefix[..j] == instructions[..j];
      WalkFailFromPrefix(nodes, position, instructions, j + 1);
    } else {
      assert instructions[..j] == instructions;
    }
  }

  /** One whole pass over the instructions. */
  function Pass(network: Network, position: string): Option<string>
  {
    Walk(network.nodes, position, network.instructions)
  }

  /** The node reached after `passes` whole passes. */
  function AfterPasses(network: Network, position: string, passes: nat): Option<string>
    decreases passes
  {
    if passes == 0 then Some(position)
    else
      match Pass(network, position)
      case None => None
      case Some(next) => AfterPasses(network, next, passes - 1)
  }

  /** A count that is `k` larger. */
  function Plus(o: Outcome<nat>, k: nat): Outcome<nat>
  {
    match o
    case Done(n) => Done(n + k)
    case Panic => Panic
    case OutOfFuel => OutOfFuel
  }

  /** A count multiplied by `k`. */
  function Times(o: Outcome<nat>, k: nat): Outcome<nat>
  {
    match o
    case Done(n) => Done(n * k)
    case Panic => Panic
    case OutOfFuel => OutOfFuel
  }

  /** The number of whole passes until `ZZZ`, which is checked only before each pass. */
  function PassesToZZZ(network: Network, position: string, fuel: nat): Outcome<nat>
    decreases fuel
  {
    if position == "ZZZ" then Done(0)
    else if fuel == 0 then OutOfFuel
    else
      match Pass(network, position)
      case None => Panic
      case Some(next) => Plus(PassesToZZZ(network, next, fuel - 1), 1)
  }

  /** The count of passes is the first pass boundary at `ZZZ`, and every earlier boundary was reached. */
  lemma {:induction false} PassesToZZZFirst(network: Network, position: string, fuel: nat)
    ensures PassesToZZZ(network, position, fuel).Done? ==>
      var p := PassesToZZZ(network, position, fuel).value;
      p <= fuel && AfterPasses(network, position, p) == Some("ZZZ") &&
      forall j :: 0 <= j < p ==> AfterPasses(network, position, j).Some? && AfterPasses(network, position, j) != Some("ZZZ")
    decreases fuel
  {
    if position != "ZZZ" && fuel > 0 && Pass(network, position).Some? {
      var next := Pass(network, position).value;
      PassesToZZZFirst(network, next, fuel - 1);
      forall j | 0 < j
        ensures AfterPasses(network, position, j) == AfterPasses(network, next, j - 1)
      {
      }
    }
  }

  /** When some pass boundary within the fuel is `ZZZ`, the walk arrives, no later than that boundary. */
  lemma {:induction false} PassesToZZZArrives(network: Network, position: string, fuel: nat, p: nat)
    requires p <= fuel && AfterPasses(network, position, p) == Some("ZZZ")
    ensures PassesToZZZ(network, position, fuel).Done? && PassesToZZZ(network, position, fuel).value <= p
    decreases p
  {
    if position != "ZZZ" {
      var next := Pass(network, position).value;
      PassesToZZZArrives(network, next, fuel - 1, p - 1);
    }
  }

  /** The inner loop of puzzle_1: one pass over the instructions, one step each. */
  method WalkPass(network: Network, start: string) returns (end: Option<string>, steps: nat)
    ensures end == Pass(network, start)
    ensures end.Some? ==> steps == |network.instructions|
  {
    var n := |network.instructions|;
    var current := start;
    steps := 0;
    for i := 0 to n
      invariant Walk(network.nodes, start, network.instructions[..i]) == Some(current)
      invariant steps == i
    {
      var next := Step(network.nodes, current, network.instructions[i]);
      assert network.instructions[..i + 1][..i] == network.instructions[..i];
      if next.None? {
        WalkFailFromPrefix(network.nodes, start, network.instructions, i + 1);
        return None, steps;
      }
      current := next.value;
      steps := steps + 1;
    }
    assert network.instructions[..n] == network.instructions;
    end := Some(current);
  }

  /**
   * puzzle_1: from `AAA`, whole passes over the instructions until the node
   * at the end of a pass is `ZZZ`, counting every step; a visit to `ZZZ`
   * in the middle of a pass does not stop the walk.
   */
  method PuzzleOne(network: Network, fuel: nat) returns (steps: Outcome<nat>)
    ensures steps == Times(PassesToZZZ(network, "AAA", fuel), |network.instructions|)
  {
    var n := |network.instructions|;
    var current := "AAA";
    var count: nat := 0;
    var passes: nat := 0;
    while current != "ZZZ"
      invariant passes <= fuel && count == passes * n
      invariant PassesToZZZ(network, "AAA", fuel) == Plus(PassesToZZZ(network, current, fuel - passes), passes)
      decreases fuel - passes
    {
      if passes == fuel {
        return OutOfFuel;
      }
      var end, passSteps := WalkPass(network, current);
      if end.None? {
        return Panic;
      }
      current := end.value;
      count := count + passSteps;
      passes := passes + 1;
    }
    steps := Done(count);
  }

  /** The quirk of the pass-wise check: with `[L, L]`, `AAA = (ZZZ, ZZZ)` and `ZZZ = (ZZZ, ZZZ)`, `ZZZ` is first visited after one step but the answer is two. */
  lemma WholePassExample()
    ensures var network := Network([Left, Left], map["AAA" := ("ZZZ", "ZZZ"), "ZZZ" := ("ZZZ", "ZZZ")]);
      Step(network.nodes, "AAA", Left) == Some("ZZZ") &&
      Times(PassesToZZZ(network, "AAA", 1), 2) == Done(2)
  {
    var network := Network([Left, Left], map["AAA" := ("ZZZ", "ZZZ"), "ZZZ" := ("ZZZ", "ZZZ")]);
    assert [Left, Left][..1] == [Left] && [Left][..0] == [];
    assert Pass(network, "AAA") == Some("ZZZ");
  }

  // ---- Puzzle 2 ----

  /** The starting nodes: every key ending in `A`. */
  function StartNodes(network: Network): set<string>
  {
    set key | key in network.nodes && EndsWith(key, "A")
  }

  /**
   * The steps from `position` to the first node ending in `Z`, taking the
   * instructions cyclically from index `k`. An empty instruction list
   * cycles through nothing, so the loop ends at once with 0.
   */
  function StepsToZ(network: Network, position: string, k: nat, fuel: nat): Outcome<nat>
    requires network.instructions == [] || k < |network.instructions|
    decreases fuel
  {
    if network.instructions == [] || EndsWith(position, "Z") then Done(0)
    else if fuel == 0 then OutOfFuel
    else
      match Step(network.nodes, position, network.instructions[k])
      case None => Panic
      case Some(next) => Plus(StepsToZ(network, next, (k + 1) % |network.instructions|, fuel - 1), 1)
  }

  /** The node reached after `count` steps taking the instructions cyclically from index `k`. */
  function CycleWalk(network: Network, position: string, k: nat, count: nat): Option<string>
    requires k < |network.instructions|
    decreases count
  {
    if count == 0 then Some(position)
    else
      match Step(network.nodes, position, network.instructions[k])
      case None => None
      case Some(next) => CycleWalk(network, next, (k + 1) % |network.instructions|, count - 1)
  }

  /** The count of steps is the first time the cyclic walk is at a node ending in `Z`. */
  lemma {:induction false} StepsToZFirst(network: Network, position: string, k: nat, fuel: nat)
    requires k < |network.instructions|
    ensures StepsToZ(network, position, k, fuel).Done? ==>
      var c := StepsToZ(network, position, k, fuel).value;
      c <= fuel && CycleWalk(network, position, k, c).Some? && EndsWith(CycleWalk(network, position, k, c).value, "Z") &&
      forall j :: 0 <= j < c ==> CycleWalk(network, position, k, j).Some? && !EndsWith(CycleWalk(network, position, k, j).value, "Z")
    decreases fuel
  {
    if !EndsWith(position, "Z") && fuel > 0 && Step(network.nodes, position, network.instructions[k]).Some? {
      var next := Step(network.nodes, position, network.instructions[k]).value;
      var k' := (k + 1) % |network.instructions|;
      StepsToZFirst(network, next, k', fuel - 1);
      forall j | 0 < j
        ensures CycleWalk(network, position, k, j) == CycleWalk(network, next, k', j - 1)
      {
      }
    }
  }

  /** When the cyclic walk is at a node ending in `Z` within the fuel, the count exists and is no larger. */
  lemma {:induction false} StepsToZArrives(network: Network, position: string, k: nat, fuel: nat, c: nat)
    requires k < |network.instructions| && c <= fuel
    requires CycleWalk(network, position, k, c).Some? && EndsWith(CycleWalk(network, position, k, c).value, "Z")
    ensures StepsToZ(network, position, k, fuel).Done? && StepsToZ(network, position, k, fuel).value <= c
    decreases c
  {
    if !EndsWith(position, "Z") {
      var next := Step(network.nodes, position, network.instructions[k]).value;
      StepsToZArrives(network, next, (k + 1) % |network.instructions|, fuel - 1, c - 1);
    }
  }

  /** A start's count is 0 exactly when it already ends in `Z`, or when there are no instructions at all. */
  lemma StepsToZZero(network: Network, position: string, fuel: nat)
    ensures StepsToZ(network, position, 0, fuel) == Done(0) <==> network.instructions == [] || EndsWith(position, "Z")
  {
    if network.instructions != [] && !EndsWith(position, "Z") && fuel > 0 {
      match Step(network.nodes, position, network.instructions[0])
      case None =>
      case Some(next) =>
        var rest := StepsToZ(network, next, 1 % |network.instructions|, fuel - 1);
        assert Plus(rest, 1) != Done(0);
    }
  }

  /** The cycling loop of puzzle_2 for one start. */
  method CountSteps(network: Network, start: string, fuel: nat) returns (count: Outcome<nat>)
    ensures count == StepsToZ(network, start, 0, fuel)
  {
    var n := |network.instructions|;
    if n == 0 {
      return Done(0);
    }
    var current := start;
    var steps: nat := 0;
    var k: nat := 0;
    while !EndsWith(current, "Z")
      invariant k < n && steps <= fuel
      invariant StepsToZ(network, start, 0, fuel) == Plus(StepsToZ(network, current, k, fuel - steps), steps)
      decreases fuel - steps
    {
      if steps == fuel {
        return OutOfFuel;
      }
      var next := Step(network.nodes, current, network.instructions[k]);
      if next.None? {
        return Panic;
      }
      current := next.value;
      steps := steps + 1;
      k := (k + 1) % n;
    }
    return Done(steps);
  }

  /** The counts of the starts in order; the first start without a count decides the outcome. */
  function AllCounts(network: Network, starts: seq<string>, fuel: nat): Outcome<seq<nat>>
  {
    if starts == [] then Done([])
    else
      match AllCounts(network, starts[..|starts| - 1], fuel)
      case Panic => Panic
      case OutOfFuel => OutOfFuel
      case Done(counts) =>
        match StepsToZ(network, starts[|starts| - 1], 0, fuel)
        case Panic => Panic
        case OutOfFuel => OutOfFuel
        case Done(c) => Done(counts + [c])
  }

  /** The counts, when all exist, are one per start, each the count of its start. */
  lemma {:induction false} AllCountsEach(network: Network, starts: seq<string>, fuel: nat)
    ensures AllCounts(network, starts, fuel).Done? <==> forall i :: 0 <= i < |starts| ==> StepsToZ(network, starts[i], 0, fuel).Done?
    ensures AllCounts(network, starts, fuel).Done? ==>
      |AllCounts(network, starts, fuel).value| == |starts| &&
      forall i :: 0 <= i < |starts| ==> Done(AllCounts(network, starts, fuel).value[i]) == StepsToZ(network, starts[i], 0, fuel)
  {
    if starts != [] {
      var init := starts[..|starts| - 1];
      AllCountsEach(network, init, fuel);
      assert forall i :: 0 <= i < |init| ==> init[i] == starts[i];
    }
  }

  /** A prefix of the starts without counts decides the outcome for all of them. */
  lemma {:induction false} AllCountsStop(network: Network, starts: seq<string>, fuel: nat, j: nat)
    requires j <= |starts| && !AllCounts(network, starts[..j], fuel).Done?
    ensures AllCounts(network, starts, fuel) == AllCounts(network, starts[..j], fuel)
    decreases |starts| - j
  {
    if j < |starts| {
      var prefix := starts[..j + 1];
      assert prefix[..j] == starts[..j];
      AllCountsStop(network, starts, fuel, j + 1);
    } else {
      assert starts[..j] == starts;
    }
  }

  /** The loop of puzzle_2 over the starting nodes, pushing each count. */
  method CountAll(network: Network, starts: seq<string>, fuel: nat) returns (counts: Outcome<seq<nat>>)
    ensures counts == AllCounts(network, starts, fuel)
  {
    var steps: seq<nat> := [];
    for i := 0 to |starts|
      invariant AllCounts(network, starts[..i], fuel) == Done(steps)
    {
      var count := CountSteps(network, starts[i], fuel);
      assert starts[..i + 1][..i] == starts[..i];
      if !count.Done? {
        AllCountsStop(network, starts, fuel, i + 1);
        return if count.Panic? then Panic else OutOfFuel;
      }
      steps := steps + [count.value];
    }
    assert starts[..|starts|] == starts;
    return Done(steps);
  }

  /** The keys of the map ending in `A`, in the map's iteration order, which is left open. */
  method CollectStarts(network: Network) returns (starts: seq<string>)
    ensures (set s | s in starts) == StartNodes(network)
    ensures forall i, j :: 0 <= i < j < |starts| ==> starts[i] != starts[j]
  {
    starts := [];
    var remaining := network.nodes.Keys;
    while remaining != {}
      invariant remaining <= network.nodes.Keys
      invariant forall s :: s in starts <==> s in network.nodes && s !in remaining && EndsWith(s, "A")
      invariant forall i, j :: 0 <= i < j < |starts| ==> starts[i] != starts[j]
      decreases |remaining|
    {
      ghost var some := Pick(remaining);
      var key :| key in remaining;
      if EndsWith(key, "A") {
        starts := starts + [key];
      }
      remaining := remaining - {key};
    }
  }

  // ---- The fold of the counts ----

  /** Pops the remaining counts from the back, each time `acc := (acc * s) / g`. */
  function FoldRest(rest: seq<nat>, acc: nat, g: nat): nat
    requires g > 0
  {
    if rest == [] then acc else FoldRest(rest[..|rest| - 1], acc * rest[|rest| - 1] / g, g)
  }

  /**
   * The pseudo-LCM of puzzle_2: the product of the last two counts divided by
   * `g`, then each earlier count multiplied in and divided by `g` again. With
   * fewer than two counts a `pop().unwrap()` panics, and with `g == 0` the
   * division does.
   */
  function FoldCounts(counts: seq<nat>, g: nat): Option<nat>
  {
    if |counts| < 2 || g == 0 then None
    else
      var n := |counts|;
      Some(FoldRest(counts[..n - 2], counts[n - 1] * counts[n - 2] / g, g))
  }

  /** The product of a sequence. */
  function Product(s: seq<nat>): nat
  {
    if s == [] then 1 else Product(s[..|s| - 1]) * s[|s| - 1]
  }

  /** A positive multiple of `b` is at least `b`. */
  lemma {:induction false} MulAtLeast(b: nat, d: nat)
    requires d >= 1
    ensures b * d >= b
  {
    if d > 1 {
      MulAtLeast(b, d - 1);
      assert b * d == b * (d - 1) + b;
    }
  }

  /** Division is determined by a quotient and a remainder in range. */
  lemma DivUnique(a: int, b: nat, q: int, r: int)
    requires b > 0 && 0 <= r < b && a == b * q + r
    ensures a / b == q
  {
    var q' := a / b;
    var r' := a % b;
    assert a == b * q' + r';
    assert b * (q - q') == r' - r;
    if q - q' >= 1 {
      MulAtLeast(b, q - q');
    } else if q' - q >= 1 {
      MulAtLeast(b, q' - q);
    }
  }

  /** `(g * x) / g == x`. */
  lemma MulDivCancel(g: nat, x: nat)
    requires g > 0
    ensures (g * x) / g == x
  {
    DivUnique(g * x, g, x, 0);
  }

  /** Folding counts that are all multiples of `g` into `g * p` gives `g * p` times the product of their quotients. */
  lemma {:induction false} FoldRestMultiples(rest: seq<nat>, quotients: seq<nat>, p: nat, g: nat)
    requires g > 0 && |quotients| == |rest|
    requires forall i :: 0 <= i < |rest| ==> rest[i] == g * quotients[i]
    ensures FoldRest(rest, g * p, g) == g * (p * Product(quotients))
  {
    if rest != [] {
      var n := |rest| - 1;
      var q := quotients[n];
      calc {
        g * p * rest[n];
        g * p * (g * q);
        g * (g * (p * q));
      }
      MulDivCancel(g, g * (p * q));
      FoldRestMultiples(rest[..n], quotients[..n], p * q, g);
      assert quotients[..n] + [q] == quotients;
      assert p * q * Product(quotients[..n]) == p * Product(quotients);
    }
  }

  /** When every count is `g` times a quotient, the fold is `g` times the product of the quotients. */
  lemma FoldOfMultiples(counts: seq<nat>, quotients: seq<nat>, g: nat)
    requires g > 0 && |counts| >= 2 && |quotients| == |counts|
    requires forall i :: 0 <= i < |counts| ==> counts[i] == g * quotients[i]
    ensures FoldCounts(counts, g) == Some(g * Product(quotients))
  {
    var n := |counts|;
    var a := quotients[n - 1];
    var b := quotients[n - 2];
    calc {
      counts[n - 1] * counts[n - 2];
      g * a * (g * b);
      g * (g * (a * b));
    }
    MulDivCancel(g, g * (a * b));
    FoldRestMultiples(counts[..n - 2], quotients[..n - 2], a * b, g);
    ProductLastTwo(quotients);
  }

  /** Splitting off the last two factors of a product. */
  lemma ProductLastTwo(s: seq<nat>)
    requires |s| >= 2
    ensures Product(s) == s[|s| - 1] * s[|s| - 2] * Product(s[..|s| - 2])
  {
    var n := |s|;
    assert s[..n - 1][..n - 2] == s[..n - 2];
    var p := Product(s[..n - 2]);
    var a := s[n - 1];
    var b := s[n - 2];
    assert Product(s[..n - 1]) == p * b;
    assert Product(s) == p * b * a;
    Reorder(p, b, a);
  }

  /** The sequence without its `i`-th element. */
  function Without(s: seq<nat>, i: nat): (r: seq<nat>)
    requires i < |s|
    ensures |r| == |s| - 1
  {
    s[..i] + s[i + 1..]
  }

  /** Every element is a factor of the product, the other factor being the product of the others. */
  lemma {:induction false} ProductFactor(s: seq<nat>, i: nat)
    requires i < |s|
    ensures Product(s) == s[i] * Product(Without(s, i))
  {
    var n := |s| - 1;
    if i == n {
      assert Without(s, i) == s[..n];
    } else {
      var init := s[..n];
      ProductFactor(init, i);
      var others := Without(init, i);
      var w := Without(s, i);
      assert w == others + [s[n]];
      assert w[..n - 1] == others;
      ProductAssoc(s[i], Product(others), s[n]);
    }
  }

  /** `(p * b) * a == (a * b) * p`. */
  lemma Reorder(p: nat, b: nat, a: nat)
    ensures p * b * a == a * b * p
  {
  }

  /** `(a * b) * c == a * (b * c)`. */
  lemma ProductAssoc(a: nat, b: nat, c: nat)
    ensures a * b * c == a * (b * c)
  {
  }

  /**
   * When every count is `g` times a quotient, the fold is a common multiple of
   * the counts: each count times the product of the other quotients.
   */
  lemma FoldCommonMultiple(counts: seq<nat>, quotients: seq<nat>, g: nat, i: nat)
    requires g > 0 && |counts| >= 2 && |quotients| == |counts| && i < |counts|
    requires forall i :: 0 <= i < |counts| ==> counts[i] == g * quotients[i]
    ensures FoldCounts(counts, g) == Some(counts[i] * Product(Without(quotients, i)))
  {
    FoldOfMultiples(counts, quotients, g);
    ProductFactor(quotients, i);
    ProductAssoc(g, quotients[i], Product(Without(quotients, i)));
  }

  /** The loop of puzzle_2 that pops the counts into `lcm`. */
  method FoldSteps(counts: seq<nat>, g: nat) returns (lcm: Option<nat>)
    ensures lcm == FoldCounts(counts, g)
  {
    if |counts| < 2 || g == 0 {
      return None;
    }
    var steps := counts;
    var a := steps[|steps| - 1];
    steps := steps[..|steps| - 1];
    var b := steps[|steps| - 1];
    steps := steps[..|steps| - 1];
    assert steps == counts[..|counts| - 2];
    var acc: nat := a * b / g;
    while |steps| > 0
      invariant FoldRest(steps, acc, g) == FoldCounts(counts, g).value
      decreases |steps|
    {
      var s := steps[|steps| - 1];
      steps := steps[..|steps| - 1];
      acc := acc * s / g;
    }
    return Some(acc);
  }

  /** The answer of puzzle_2 for the starts taken in the given order. */
  function PuzzleTwoOf(network: Network, starts: seq<string>, fuel: nat): Outcome<nat>
  {
    match AllCounts(network, starts, fuel)
    case Panic => Panic
    case OutOfFuel => OutOfFuel
    case Done(counts) =>
      match FoldCounts(counts, |network.instructions|)
      case None => Panic
      case Some(v) => Done(v)
  }

  /** puzzle_2: the starts in the map's order, their counts, and the fold. */
  method PuzzleTwo(network: Network, fuel: nat) returns (starts: seq<string>, lcm: Outcome<nat>)
    ensures (set s | s in starts) == StartNodes(network)
    ensures forall i, j :: 0 <= i < j < |starts| ==> starts[i] != starts[j]
    ensures lcm == PuzzleTwoOf(network, starts, fuel)
  {
    starts := CollectStarts(network);
    var counts := CountAll(network, starts, fuel);
    if counts.Panic? {
      return starts, Panic;
    }
    if counts.OutOfFuel? {
      return starts, OutOfFuel;
    }
    var folded := FoldSteps(counts.value, |network.instructions|);
    if folded.None? {
      return starts, Panic;
    }
    lcm := Done(folded.value);
  }
}
