/**
 * Day 3 (src/day3/mod.rs): the engine schematic. Every character of the grid
 * is a part (a digit, a period or a symbol); maximal runs of digits in a row
 * are numbers with an inclusive column span. Puzzle 1 sums the numbers next
 * to a symbol, puzzle 2 sums the products of the pairs of numbers around a
 * `*` that touches exactly two numbers.
 */
module Day3 {
  import opened Wrappers
  import opened Text

  datatype Part = Symbol(text: string) | Num(digit: int) | Period

  /**
   * Part::from_str on the first character of `s`: a decimal digit is a
   * number part, `.` a period, any other ASCII punctuation a symbol holding
   * that character, and everything else (or an empty string) is an error.
   */
  function PartFromStr(s: string): (r: Option<Part>)
    ensures r.Some? <==> |s| > 0 && (IsDigit(s[0]) || IsAsciiPunctuation(s[0]))
    ensures r.Some? && r.value.Num? ==> IsDigit(s[0]) && r.value.digit == DigitValue(s[0])
  {
    if |s| == 0 then None
    else
      var c := s[0];
      if IsDigit(c) then Some(Num(DigitValue(c)))
      else if c == '.' then Some(Period)
      else if IsAsciiPunctuation(c) then Some(Symbol(s[..1]))
      else None
  }

  /** A part written back as its character. */
  function PartChar(p: Part): char
    requires p.Num? ==> 0 <= p.digit <= 9
    requires p.Symbol? ==> |p.text| > 0
  {
    match p
    case Num(d) => '0' + d as char
    case Period => '.'
    case Symbol(t) => t[0]
  }

  /** Reading a part back from its character gives the part again. */
  lemma PartRoundTrip(p: Part)
    requires p.Num? ==> 0 <= p.digit <= 9
    requires p.Symbol? ==> |p.text| == 1 && IsAsciiPunctuation(p.text[0]) && p.text[0] != '.'
    ensures PartFromStr([PartChar(p)]) == Some(p)
  {
    match p
    case Symbol(t) =>
      assert [t[0]][..1] == [t[0]] == t;
      assert !IsDigit(t[0]);
    case Num(d) =>
      assert DigitValue('0' + d as char) == d;
    case Period =>
  }

  /** A number found in the grid, as plain values: its row and inclusive column span. */
  datatype Span = Span(value: int, row: int, start: int, end: int)

  /** A number of the schematic: its value and its position (row, start..end with `end` inclusive). */
  class Number {
    var value: int
    var row: nat
    var start: nat
    var end: nat

    /** A new number made of the one digit at column `index` of row `row`. */
    constructor (value: int, row: nat, index: nat)
      ensures this.value == value && this.row == row && start == index && end == index
    {
      this.value := value;
      this.row := row;
      start := index;
      end := index;
    }

    /** The number's current values. */
    function Snap(): Span
      reads this
    {
      Span(value, row, start, end)
    }

    /**
     * add_part: the decimal text of the value followed by that of the digit,
     * parsed again as an `i32`.
     */
    method AddPart(number: int)
      requires 0 <= value && 0 <= number <= 9
      requires 10 * value + number <= I32_MAX
      modifies this
      ensures value == 10 * old(value) + number
      ensures row == old(row) && start == old(start) && end == old(end)
    {
      var valueStr := NatToString(value) + NatToString(number);
      assert NatToString(number) == ['0' + number as char];
      DecimalAppend(NatToString(value), '0' + number as char);
      DigitsParse(valueStr, I32_MIN, I32_MAX);
      var parsed := ParseI32(valueStr);
      value := parsed.value;
    }

    /**
     * has_position: the position is on the number's row and either at `end`
     * or inside the half-open range `start..end`; for a span with
     * `start <= end` that is the inclusive span.
     */
    function HasPosition(pos: (int, int)): (r: bool)
      reads this
      ensures start <= end ==> (r <==> row == pos.0 && start <= pos.1 <= end)
    {
      row == pos.0 && (end == pos.1 || (start <= pos.1 < end))
    }

    /**
     * surroundings: the columns from one left of the span (not below 0) to one
     * right of it, on the row above (if there is one), the row itself and the
     * row below.
     */
    method Surroundings() returns (positions: seq<(int, int)>)
      ensures forall p :: p in positions <==> Near(Snap(), p)
    {
      positions := [];
      var first := if start == 0 then start else start - 1;
      var last := end + 1;
      var column := first;
      while column < last + 1
        invariant first <= column
        invariant forall p :: p in positions <==> Near(Snap(), p) && p.1 < column
      {
        if row != 0 {
          positions := positions + [(row - 1, column)];
        }
        positions := positions + [(row, column)];
        positions := positions + [(row + 1, column)];
        column := column + 1;
      }
    }
  }

  /** The cell `p` is within one row and one column of the span (the row above only if it exists). */
  predicate Near(s: Span, p: (int, int))
  {
    0 <= p.0 && s.row - 1 <= p.0 <= s.row + 1 &&
    (if s.start == 0 then 0 else s.start - 1) <= p.1 <= s.end + 1
  }

  /** The values of a sequence of numbers. */
  function Snaps(numbers: seq<Number>): (spans: seq<Span>)
    reads set n | n in numbers
    ensures |spans| == |numbers|
    ensures forall k :: 0 <= k < |numbers| ==> spans[k] == numbers[k].Snap()
  {
    if numbers == [] then []
    else Snaps(numbers[..|numbers| - 1]) + [numbers[|numbers| - 1].Snap()]
  }

  /** The parsed grid and its numbers. */
  datatype EngineSchematic = EngineSchematic(rows: seq<seq<Part>>, numbers: seq<Number>)

  /** EngineSchematic::fits: the row is below the height, the column below the width of row 0. */
  predicate Fits(rows: seq<seq<Part>>, pos: (int, int))
    requires |rows| > 0
  {
    0 <= pos.0 < |rows| && 0 <= pos.1 < |rows[0]|
  }

  /** No row is narrower than row 0, so a position that fits can be looked up. */
  predicate WideRows(rows: seq<seq<Part>>)
  {
    forall r :: 0 <= r < |rows| ==> |rows[0]| <= |rows[r]|
  }

  /** When no row is narrower than row 0, a fitting position is a cell of the grid. */
  lemma FitsIsInGrid(rows: seq<seq<Part>>, pos: (int, int))
    requires |rows| > 0 && WideRows(rows)
    ensures Fits(rows, pos) ==> 0 <= pos.0 < |rows| && 0 <= pos.1 < |rows[pos.0]|
    ensures Fits(rows, pos) <==> 0 <= pos.0 < |rows| && 0 <= pos.1 < |rows[0]|
  {
  }

  // ---- The row scanner ----

  /** The parts of a line, one per character; `None` if a character is not a part. */
  function PartsOf(line: string): Option<seq<Part>>
  {
    if line == [] then Some([])
    else
      match (PartsOf(line[..|line| - 1]), PartFromStr([line[|line| - 1]]))
      case (Some(parts), Some(p)) => Some(parts + [p])
      case _ => None
  }

  /** `line[s..e]` (with `e` inclusive) is a run of digits that cannot be extended either way. */
  predicate IsMaximalRun(line: string, s: int, e: int)
  {
    0 <= s <= e < |line| && AllDigits(line[s..e + 1]) &&
    (s == 0 || !IsDigit(line[s - 1])) && (e + 1 == |line| || !IsDigit(line[e + 1]))
  }

  /** Each column of a run of digits holds a digit. */
  lemma DigitIn(line: string, s: nat, e: nat, k: nat)
    requires s <= k <= e < |line| && AllDigits(line[s..e + 1])
    ensures IsDigit(line[k])
  {
    assert line[s..e + 1][k - s] == line[k];
  }

  /** The last column of the run of digits that starts at `i`. */
  function RunEnd(line: string, i: nat): (e: nat)
    requires i < |line| && IsDigit(line[i])
    ensures i <= e < |line| && AllDigits(line[i..e + 1])
    ensures e + 1 == |line| || !IsDigit(line[e + 1])
    decreases |line| - i
  {
    if i + 1 < |line| && IsDigit(line[i + 1]) then
      var e := RunEnd(line, i + 1);
      assert line[i..e + 1] == [line[i]] + line[i + 1..e + 1];
      e
    else i
  }

  /** A run of digits from `s` that ends before a non-digit ends where `RunEnd` says. */
  lemma {:induction false} RunEndUnique(line: string, s: nat, e: nat)
    requires s <= e < |line| && AllDigits(line[s..e + 1])
    requires e + 1 == |line| || !IsDigit(line[e + 1])
    ensures IsDigit(line[s]) && RunEnd(line, s) == e
    decreases e - s
  {
    DigitIn(line, s, e, s);
    if s < e {
      var rest := line[s + 1..e + 1];
      forall k | 0 <= k < |rest|
        ensures IsDigit(rest[k])
      {
        DigitIn(line, s, e, s + 1 + k);
      }
      RunEndUnique(line, s + 1, e);
      DigitIn(line, s, e, s + 1);
    }
  }

  /** The numbers of row `r` from column `i` on: one span per run of digits, left to right. */
  function RunsFrom(line: string, r: int, i: nat): seq<Span>
    decreases |line| - i
  {
    if i >= |line| then []
    else if !IsDigit(line[i]) then RunsFrom(line, r, i + 1)
    else
      var e := RunEnd(line, i);
      [Span(Decimal(line[i..e + 1]), r, i, e)] + RunsFrom(line, r, e + 1)
  }

  /** The numbers of row `r` whose text is `line`. */
  function RowRuns(line: string, r: int): seq<Span>
  {
    RunsFrom(line, r, 0)
  }

  /** Column `i` is not inside a run of digits that started further left. */
  predicate NotMidRun(line: string, i: nat)
  {
    i == 0 || i >= |line| || !IsDigit(line[i - 1]) || !IsDigit(line[i])
  }

  /** The span is a maximal run of digits of row `r` from column `i` on, with its decimal value. */
  predicate RunSpan(line: string, r: int, i: int, s: Span)
  {
    i <= s.start && s.row == r && IsMaximalRun(line, s.start, s.end) &&
    s.value == Decimal(line[s.start..s.end + 1])
  }

  /** The spans follow each other left to right without overlapping. */
  predicate LeftToRight(spans: seq<Span>)
  {
    forall k, l :: 0 <= k < l < |spans| ==> spans[k].end < spans[l].start
  }

  /** The spans found from column `i` are maximal digit runs with their values. */
  lemma {:induction false} RunsFromSound(line: string, r: int, i: nat)
    requires NotMidRun(line, i)
    ensures forall k :: 0 <= k < |RunsFrom(line, r, i)| ==> RunSpan(line, r, i, RunsFrom(line, r, i)[k])
    decreases |line| - i
  {
    if i < |line| && !IsDigit(line[i]) {
      RunsFromSound(line, r, i + 1);
    } else if i < |line| {
      var e := RunEnd(line, i);
      var tail := RunsFrom(line, r, e + 1);
      RunsFromSound(line, r, e + 1);
      assert RunsFrom(line, r, i) == [Span(Decimal(line[i..e + 1]), r, i, e)] + tail;
    }
  }

  /** The spans found from column `i` follow each other left to right. */
  lemma {:induction false} RunsFromOrdered(line: string, r: int, i: nat)
    requires NotMidRun(line, i)
    ensures LeftToRight(RunsFrom(line, r, i))
    decreases |line| - i
  {
    if i < |line| && !IsDigit(line[i]) {
      RunsFromOrdered(line, r, i + 1);
    } else if i < |line| {
      var e := RunEnd(line, i);
      var tail := RunsFrom(line, r, e + 1);
      RunsFromOrdered(line, r, e + 1);
      RunsFromSound(line, r, e + 1);
      var first := Span(Decimal(line[i..e + 1]), r, i, e);
      assert forall l :: 0 <= l < |tail| ==> RunSpan(line, r, e + 1, tail[l]);
      ConsLeftToRight(first, tail);
    }
  }

  /** A span ending before every span of an ordered list can go in front of it. */
  lemma ConsLeftToRight(first: Span, tail: seq<Span>)
    requires LeftToRight(tail)
    requires forall l :: 0 <= l < |tail| ==> first.end < tail[l].start
    ensures LeftToRight([first] + tail)
  {
    var spans := [first] + tail;
    forall k, l | 0 <= k < l < |spans|
      ensures spans[k].end < spans[l].start
    {
      assert spans[l] == tail[l - 1];
      if k > 0 {
        assert spans[k] == tail[k - 1];
      }
    }
  }

  /** A digit run that starts right of column `i`, where a run of digits also starts, begins after that run. */
  lemma RunAfterEnd(line: string, i: nat, s: int, e: int)
    requires i < s && i < |line| && IsDigit(line[i]) && IsMaximalRun(line, s, e)
    ensures RunEnd(line, i) + 1 <= s
  {
    var e' := RunEnd(line, i);
    if s <= e' {
      DigitIn(line, i, e', s - 1);
    }
  }

  /** Every maximal run of digits from column `i` on is one of the spans found from `i`, at index `k`. */
  lemma {:induction false} RunsFromComplete(line: string, r: int, i: nat, s: int, e: int) returns (k: nat)
    requires NotMidRun(line, i)
    requires i <= s && IsMaximalRun(line, s, e)
    ensures k < |RunsFrom(line, r, i)| && RunsFrom(line, r, i)[k].start == s && RunsFrom(line, r, i)[k].end == e
    decreases |line| - i
  {
    DigitIn(line, s, e, s);
    if !IsDigit(line[i]) {
      k := RunsFromComplete(line, r, i + 1, s, e);
      assert RunsFrom(line, r, i) == RunsFrom(line, r, i + 1);
    } else if s == i {
      RunEndUnique(line, s, e);
      k := 0;
    } else {
      var e' := RunEnd(line, i);
      RunAfterEnd(line, i, s, e);
      var k' := RunsFromComplete(line, r, e' + 1, s, e);
      k := k' + 1;
      assert RunsFrom(line, r, i) == [Span(Decimal(line[i..e' + 1]), r, i, e')] + RunsFrom(line, r, e' + 1);
    }
  }

  /** The spans of a row are exactly its maximal digit runs, in column order, with their decimal values. */
  lemma RowRunsAreMaximalRuns(line: string, r: int)
    ensures forall k :: 0 <= k < |RowRuns(line, r)| ==> RunSpan(line, r, 0, RowRuns(line, r)[k])
    ensures LeftToRight(RowRuns(line, r))
    ensures forall s, e :: IsMaximalRun(line, s, e) ==>
      exists k :: 0 <= k < |RowRuns(line, r)| && RowRuns(line, r)[k].start == s && RowRuns(line, r)[k].end == e
  {
    RunsFromSound(line, r, 0);
    RunsFromOrdered(line, r, 0);
    forall s, e | IsMaximalRun(line, s, e)
      ensures exists k :: 0 <= k < |RowRuns(line, r)| && RowRuns(line, r)[k].start == s && RowRuns(line, r)[k].end == e
    {
      var k := RunsFromComplete(line, r, 0, s, e);
      assert RowRuns(line, r)[k] == RunsFrom(line, r, 0)[k];
    }
  }

  /** A run of digits from `s` that ends at `e` contributes one span and the scan resumes after it. */
  lemma RunsFromRun(line: string, r: int, s: nat, e: nat)
    requires s <= e < |line| && AllDigits(line[s..e + 1])
    requires e + 1 == |line| || !IsDigit(line[e + 1])
    ensures RunsFrom(line, r, s) == [Span(Decimal(line[s..e + 1]), r, s, e)] + RunsFrom(line, r, e + 1)
  {
    RunEndUnique(line, s, e);
  }

  /** The digits `line[s..t]` denote a value an `i32` holds. */
  predicate RunFits(line: string, s: int, t: int)
  {
    0 <= s < t <= |line| && AllDigits(line[s..t]) && Decimal(line[s..t]) <= I32_MAX
  }

  /** Every run of digits in the line denotes an `i32` (otherwise add_part panics). */
  predicate RunsFitI32(line: string)
  {
    forall s, t {:trigger RunFits(line, s, t)} :: 0 <= s < t <= |line| && AllDigits(line[s..t]) ==> RunFits(line, s, t)
  }

  /**
   * The state of the row scan before column `index`: the numbers closed so
   * far (`spans`) and the number still open, if any, followed by what the
   * rest of the row yields, are the numbers of the row.
   */
  predicate Scanned(line: string, r: int, index: nat, spans: seq<Span>, open: Option<Span>)
  {
    index <= |line| &&
    match open
    case None => NotMidRun(line, index) && spans + RunsFrom(line, r, index) == RowRuns(line, r)
    case Some(o) =>
      o.row == r && 0 <= o.start < index && o.end == index - 1 &&
      AllDigits(line[o.start..index]) && o.value == Decimal(line[o.start..index]) &&
      spans + RunsFrom(line, r, o.start) == RowRuns(line, r)
  }

  /** A digit opens a number, or extends the open one by one column and one decimal place. */
  lemma ScanDigit(line: string, r: int, index: nat, spans: seq<Span>, open: Option<Span>)
    requires Scanned(line, r, index, spans, open) && index < |line| && IsDigit(line[index])
    ensures open.None? ==> Scanned(line, r, index + 1, spans, Some(Span(DigitValue(line[index]), r, index, index)))
    ensures open.Some? ==>
      var o := open.value;
      AllDigits(line[o.start..index + 1]) &&
      Decimal(line[o.start..index + 1]) == 10 * o.value + DigitValue(line[index]) &&
      Scanned(line, r, index + 1, spans, Some(Span(10 * o.value + DigitValue(line[index]), r, o.start, index)))
  {
    if open.Some? {
      var o := open.value;
      DecimalAppend(line[o.start..index], line[index]);
      assert line[o.start..index] + [line[index]] == line[o.start..index + 1];
    } else {
      assert line[index..index + 1] == [line[index]];
    }
  }

  /** Any other part closes the open number, if there is one. */
  lemma ScanOther(line: string, r: int, index: nat, spans: seq<Span>, open: Option<Span>)
    requires Scanned(line, r, index, spans, open) && index < |line| && !IsDigit(line[index])
    ensures open.None? ==> Scanned(line, r, index + 1, spans, None)
    ensures open.Some? ==> Scanned(line, r, index + 1, spans + [open.value], None)
  {
    if open.Some? {
      RunsFromRun(line, r, open.value.start, index - 1);
    }
  }

  /** At the end of the row, the closed numbers and the open one are the numbers of the row. */
  lemma ScanEnd(line: string, r: int, spans: seq<Span>, open: Option<Span>)
    requires Scanned(line, r, |line|, spans, open)
    ensures open.None? ==> spans == RowRuns(line, r)
    ensures open.Some? ==> spans + [open.value] == RowRuns(line, r)
  {
    if open.Some? {
      RunsFromRun(line, r, open.value.start, |line| - 1);
    } else {
      assert spans + [] == spans;
    }
  }

  /** A further digit of the current number: add_part, and its span grows by one column. */
  method ExtendNumber(number: Number, digit: int)
    requires 0 <= number.value && 0 <= digit <= 9 && 10 * number.value + digit <= I32_MAX
    modifies number
    ensures number.Snap() == Span(10 * old(number.value) + digit, old(number.row), old(number.start), old(number.end) + 1)
  {
    number.AddPart(digit);
    number.end := number.end + 1;
  }

  /** A digit either starts a new number at this column or extends the current one. */
  method TakeDigit(line: string, lineIndex: nat, index: nat, current: Number?, ghost spans: seq<Span>, ghost open: Option<Span>)
    returns (next: Number)
    requires RunsFitI32(line)
    requires Scanned(line, lineIndex, index, spans, open) && index < |line| && IsDigit(line[index])
    requires current == null <==> open.None?
    requires current != null ==> current.Snap() == open.value
    modifies current
    ensures current != null ==> next == current
    ensures current == null ==> fresh(next)
    ensures Scanned(line, lineIndex, index + 1, spans, Some(next.Snap()))
  {
    var part := PartFromStr([line[index]]);
    var num := part.value.digit;
    ScanDigit(line, lineIndex, index, spans, open);
    if current != null {
      assert line[open.value.start..index + 1] == line[current.start..index + 1];
      assert RunFits(line, current.start, index + 1);
      ExtendNumber(current, num);
      next := current;
    } else {
      next := new Number(num, lineIndex, index);
    }
  }

  /** One character of the row scan: a digit goes into the current number, anything else closes it. */
  method ScanPart(line: string, lineIndex: nat, index: nat, current: Number?, numbers: seq<Number>,
                  ghost spans: seq<Span>, ghost open: Option<Span>)
    returns (next: Number?, closed: seq<Number>, ghost spans': seq<Span>, ghost open': Option<Span>)
    requires RunsFitI32(line)
    requires Scanned(line, lineIndex, index, spans, open) && index < |line|
    requires Snaps(numbers) == spans
    requires current == null <==> open.None?
    requires current != null ==> current !in numbers && current.Snap() == open.value
    modifies current
    ensures Scanned(line, lineIndex, index + 1, spans', open')
    ensures Snaps(closed) == spans'
    ensures next == null <==> open'.None?
    ensures next != null ==> (next == current || fresh(next)) && next !in closed && next.Snap() == open'.value
  {
    closed := numbers;
    spans' := spans;
    if IsDigit(line[index]) {
      next := TakeDigit(line, lineIndex, index, current, spans, open);
      open' := Some(next.Snap());
    } else {
      ScanOther(line, lineIndex, index, spans, open);
      if current != null {
        SnapsAppend(numbers, [current]);
        spans' := spans + [current.Snap()];
        closed := numbers + [current];
      }
      next := null;
      open' := None;
    }
  }

  /**
   * The per-line scan of parse_input: every character becomes a part; a digit
   * starts a number or is appended to the current one (whose `end` moves one
   * column right), and any other part closes the current number.
   */
  method ParseRow(line: string, lineIndex: nat) returns (row: Option<seq<Part>>, numbers: seq<Number>)
    requires RunsFitI32(line)
    ensures row == PartsOf(line)
    ensures row.Some? ==> Snaps(numbers) == RowRuns(line, lineIndex)
  {
    var parts: seq<Part> := [];
    numbers := [];
    ghost var spans: seq<Span> := [];
    ghost var open: Option<Span> := None;
    var current: Number? := null;
    var index := 0;
    while index < |line|
      invariant Scanned(line, lineIndex, index, spans, open)
      invariant PartsOf(line[..index]) == Some(parts)
      invariant Snaps(numbers) == spans
      invariant current == null <==> open.None?
      invariant current != null ==> fresh(current) && current !in numbers && current.Snap() == open.value
    {
      var part := PartFromStr([line[index]]);
      if part.None? {
        assert line[..index + 1][..index] == line[..index];
        PartsFailFromPrefix(line, index + 1);
        return None, numbers;
      }
      current, numbers, spans, open := ScanPart(line, lineIndex, index, current, numbers, spans, open);
      PartsOfStep(line, index, parts, part.value);
      parts := parts + [part.value];
      index := index + 1;
    }
    assert line[..index] == line;
    ScanEnd(line, lineIndex, spans, open);
    if current != null {
      numbers := numbers + [current];
    }
    return Some(parts), numbers;
  }

  lemma PartsOfStep(line: string, index: nat, parts: seq<Part>, p: Part)
    requires index < |line| && PartsOf(line[..index]) == Some(parts)
    requires PartFromStr([line[index]]) == Some(p)
    ensures PartsOf(line[..index + 1]) == Some(parts + [p])
  {
    assert line[..index + 1][..index] == line[..index];
  }

  lemma {:induction false} PartsFailFromPrefix(line: string, j: nat)
    requires j <= |line| && PartsOf(line[..j]).None?
    ensures PartsOf(line).None?
    decreases |line| - j
  {
    if j < |line| {
      assert line[..j + 1][..j] == line[..j];
      PartsFailFromPrefix(line, j + 1);
    } else {
      assert line[..j] == line;
    }
  }

  /** The numbers of every row, row by row. */
  function AllRuns(lines: seq<string>): seq<Span>
  {
    if lines == [] then [] else AllRuns(lines[..|lines| - 1]) + RowRuns(lines[|lines| - 1], |lines| - 1)
  }

  lemma SnapsAppend(a: seq<Number>, b: seq<Number>)
    ensures Snaps(a + b) == Snaps(a) + Snaps(b)
  {
  }

  /** The rows of parts of the lines; `None` if some line does not parse. */
  function RowsOf(lines: seq<string>): Option<seq<seq<Part>>>
  {
    if lines == [] then Some([])
    else
      match (RowsOf(lines[..|lines| - 1]), PartsOf(lines[|lines| - 1]))
      case (Some(rows), Some(row)) => Some(rows + [row])
      case _ => None
  }

  lemma {:induction false} RowsFailFromPrefix(lines: seq<string>, j: nat)
    requires j <= |lines| && RowsOf(lines[..j]).None?
    ensures RowsOf(lines).None?
    decreases |lines| - j
  {
    if j < |lines| {
      assert lines[..j + 1][..j] == lines[..j];
      RowsFailFromPrefix(lines, j + 1);
    } else {
      assert lines[..j] == lines;
    }
  }

  /** The grid has a row for each line exactly when every line parses, and then that row is the line's parts. */
  lemma {:induction false} RowsOfLines(lines: seq<string>)
    ensures RowsOf(lines).Some? <==> forall i :: 0 <= i < |lines| ==> PartsOf(lines[i]).Some?
    ensures RowsOf(lines).Some? ==>
      |RowsOf(lines).value| == |lines| &&
      forall i :: 0 <= i < |lines| ==> Some(RowsOf(lines).value[i]) == PartsOf(lines[i])
  {
    if lines != [] {
      var init := lines[..|lines| - 1];
      RowsOfLines(init);
      assert forall i :: 0 <= i < |init| ==> lines[i] == init[i];
    }
  }

  /** One more line that parses appends its row. */
  lemma RowsStep(lines: seq<string>, j: nat, rows: seq<seq<Part>>, row: seq<Part>)
    requires j < |lines| && RowsOf(lines[..j]) == Some(rows) && PartsOf(lines[j]) == Some(row)
    ensures RowsOf(lines[..j + 1]) == Some(rows + [row])
  {
    var prefix := lines[..j + 1];
    assert prefix[..|prefix| - 1] == lines[..j];
    assert prefix[|prefix| - 1] == lines[j];
  }

  /** One more line appends the numbers of its row. */
  lemma AllRunsStep(lines: seq<string>, j: nat, spans: seq<Span>, found: seq<Span>)
    requires j < |lines| && AllRuns(lines[..j]) == spans && RowRuns(lines[j], j) == found
    ensures AllRuns(lines[..j + 1]) == spans + found
  {
    var prefix := lines[..j + 1];
    assert prefix[..|prefix| - 1] == lines[..j];
    assert prefix[|prefix| - 1] == lines[j];
  }

  /** Every run of digits of every line denotes an `i32`. */
  predicate AllRunsFitI32(lines: seq<string>)
  {
    forall i :: 0 <= i < |lines| ==> RunsFitI32(lines[i])
  }

  /**
   * parse_input: scans every line of the text (its index is the row), collecting
   * each line's parts as a row and the numbers of all lines in order.
   */
  method ParseInput(content: string) returns (schematic: Option<EngineSchematic>)
    requires AllRunsFitI32(Lines(content))
    ensures schematic.None? <==> RowsOf(Lines(content)).None?
    ensures schematic.Some? ==> Some(schematic.value.rows) == RowsOf(Lines(content))
    ensures schematic.Some? ==> Snaps(schematic.value.numbers) == AllRuns(Lines(content))
  {
    schematic := ParseLines(Lines(content));
  }

  /** The loop of parse_input over the lines, stopping at the first character that is not a part. */
  method ParseLines(lines: seq<string>) returns (schematic: Option<EngineSchematic>)
    requires AllRunsFitI32(lines)
    ensures schematic.None? <==> RowsOf(lines).None?
    ensures schematic.Some? ==> Some(schematic.value.rows) == RowsOf(lines)
    ensures schematic.Some? ==> Snaps(schematic.value.numbers) == AllRuns(lines)
  {
    var rows: seq<seq<Part>> := [];
    var numbers: seq<Number> := [];
    for lineIndex := 0 to |lines|
      invariant RowsOf(lines[..lineIndex]) == Some(rows)
      invariant Snaps(numbers) == AllRuns(lines[..lineIndex])
    {
      var row, found := ParseRow(lines[lineIndex], lineIndex);
      if row.None? {
        assert lines[..lineIndex + 1][..lineIndex] == lines[..lineIndex];
        RowsFailFromPrefix(lines, lineIndex + 1);
        return None;
      }
      RowsStep(lines, lineIndex, rows, row.value);
      AllRunsStep(lines, lineIndex, Snaps(numbers), Snaps(found));
      SnapsAppend(numbers, found);
      numbers := numbers + found;
      rows := rows + [row.value];
    }
    assert lines[..|lines|] == lines;
    return Some(EngineSchematic(rows, numbers));
  }

  // ---- Puzzle 1 ----

  /** The cell is in the grid and holds a symbol. */
  predicate SymbolAt(rows: seq<seq<Part>>, p: (int, int))
  {
    |rows| > 0 && Fits(rows, p) && p.1 < |rows[p.0]| && rows[p.0][p.1].Symbol?
  }

  /** A part number: some cell next to the number (or under it) holds a symbol. */
  ghost predicate IsPartNumber(rows: seq<seq<Part>>, s: Span)
  {
    exists p :: Near(s, p) && SymbolAt(rows, p)
  }

  /** The sum of the values of the part numbers, each number counted once. */
  ghost function PartNumberSum(rows: seq<seq<Part>>, spans: seq<Span>): int
  {
    if spans == [] then 0
    else
      var last := spans[|spans| - 1];
      PartNumberSum(rows, spans[..|spans| - 1]) + if IsPartNumber(rows, last) then last.value else 0
  }

  /**
   * puzzle_1: for every number, looks through its surroundings and adds its
   * value at the first cell inside the grid that holds a symbol.
   */
  method PuzzleOne(schematic: EngineSchematic) returns (sum: int)
    requires |schematic.numbers| > 0 ==> |schematic.rows| > 0
    requires WideRows(schematic.rows)
    ensures sum == PartNumberSum(schematic.rows, Snaps(schematic.numbers))
  {
    var rows, numbers := schematic.rows, schematic.numbers;
    sum := 0;
    for k := 0 to |numbers|
      invariant sum == PartNumberSum(rows, Snaps(numbers)[..k])
    {
      assert Snaps(numbers)[..k + 1][..k] == Snaps(numbers)[..k];
      var number := numbers[k];
      var positions := number.Surroundings();
      ghost var counted := false;
      for i := 0 to |positions|
        invariant !counted
        invariant forall j :: 0 <= j < i ==> !SymbolAt(rows, positions[j])
      {
        var (row, column) := positions[i];
        if Fits(rows, (row, column)) {
          FitsIsInGrid(rows, (row, column));
          var part := rows[row][column];
          if part.Symbol? {
            assert Near(number.Snap(), positions[i]) && SymbolAt(rows, positions[i]);
            sum := sum + number.value;
            counted := true;
            break;
          }
        }
      }
      if !counted {
        forall p | Near(number.Snap(), p)
          ensures !SymbolAt(rows, p)
        {
          assert p in positions;
        }
      }
    }
    assert Snaps(numbers)[..|numbers|] == Snaps(numbers);
  }

  // ---- Puzzle 2 ----

  /** The eight cells around a gear at (r, c), in the order puzzle_2 lists them. */
  function Neighbours(r: int, c: int): seq<(int, int)>
  {
    [(r - 1, c - 1), (r - 1, c), (r - 1, c + 1), (r, c - 1), (r, c + 1), (r + 1, c - 1), (r + 1, c), (r + 1, c + 1)]
  }

  /** has_position on a span's values. */
  predicate SpanHas(s: Span, pos: (int, int))
  {
    s.row == pos.0 && (s.end == pos.1 || (s.start <= pos.1 < s.end))
  }

  /** The number covers one of the eight cells around (r, c). */
  predicate Touches(s: Span, r: int, c: int)
  {
    exists t :: 0 <= t < 8 && SpanHas(s, Neighbours(r, c)[t])
  }

  /** The numbers touching the gear at (r, c), each once, in order. */
  function Touching(spans: seq<Span>, r: int, c: int): seq<Span>
  {
    if spans == [] then []
    else
      var last := spans[|spans| - 1];
      Touching(spans[..|spans| - 1], r, c) + if Touches(last, r, c) then [last] else []
  }

  /** What the cell (r, c) adds: for a `*` touching exactly two numbers, their product. */
  function GearRatio(rows: seq<seq<Part>>, spans: seq<Span>, r: int, c: int): int
    requires 0 <= r < |rows| && 0 <= c < |rows[r]|
  {
    if rows[r][c] == Symbol("*") then
      var matched := Touching(spans, r, c);
      if |matched| == 2 then matched[0].value * matched[1].value else 0
    else 0
  }

  /** The gear ratios of the first `n` cells of row `r`. */
  function RowRatio(rows: seq<seq<Part>>, spans: seq<Span>, r: int, n: int): int
    requires 0 <= r < |rows| && 0 <= n <= |rows[r]|
  {
    if n == 0 then 0 else RowRatio(rows, spans, r, n - 1) + GearRatio(rows, spans, r, n - 1)
  }

  /** The gear ratios of the first `n` rows. */
  function GridRatio(rows: seq<seq<Part>>, spans: seq<Span>, n: int): int
    requires 0 <= n <= |rows|
  {
    if n == 0 then 0 else GridRatio(rows, spans, n - 1) + RowRatio(rows, spans, n - 1, |rows[n - 1]|)
  }

  /** No `*` is in row 0 or column 0 (otherwise the `usize` subtraction underflows). */
  predicate GearsInside(rows: seq<seq<Part>>)
  {
    forall r, c :: 0 <= r < |rows| && 0 <= c < |rows[r]| && rows[r][c] == Symbol("*") ==> r > 0 && c > 0
  }

  /** The numbers one of whose positions is among the given cells, in order, each pushed once. */
  method MatchGear(numbers: seq<Number>, r: int, c: int) returns (matched: seq<Number>)
    ensures Snaps(matched) == Touching(Snaps(numbers), r, c)
  {
    var surroundings := [(r - 1, c - 1), (r - 1, c), (r - 1, c + 1), (r, c - 1), (r, c + 1), (r + 1, c - 1), (r + 1, c), (r + 1, c + 1)];
    assert surroundings == Neighbours(r, c);
    matched := [];
    for k := 0 to |numbers|
      invariant Snaps(matched) == Touching(Snaps(numbers)[..k], r, c)
    {
      assert Snaps(numbers)[..k + 1][..k] == Snaps(numbers)[..k];
      var number := numbers[k];
      ghost var hit := false;
      for t := 0 to |surroundings|
        invariant !hit
        invariant forall t' :: 0 <= t' < t ==> !number.HasPosition(surroundings[t'])
      {
        if number.HasPosition(surroundings[t]) {
          assert SpanHas(number.Snap(), Neighbours(r, c)[t]);
          assert Snaps(matched + [number]) == Snaps(matched) + [number.Snap()];
          matched := matched + [number];
          hit := true;
          break;
        }
      }
      if !hit {
        assert !Touches(number.Snap(), r, c);
      }
    }
    assert Snaps(numbers)[..|numbers|] == Snaps(numbers);
  }

  /**
   * puzzle_2: for every `*` of the grid, row by row, collects the numbers
   * touching it and adds the product of their values when there are exactly two.
   */
  method PuzzleTwo(schematic: EngineSchematic) returns (ratio: int)
    requires GearsInside(schematic.rows)
    ensures ratio == GridRatio(schematic.rows, Snaps(schematic.numbers), |schematic.rows|)
  {
    var rows, numbers := schematic.rows, schematic.numbers;
    ratio := 0;
    for r := 0 to |rows|
      invariant ratio == GridRatio(rows, Snaps(numbers), r)
    {
      var rowRatio := RowGears(rows, numbers, r);
      ratio := ratio + rowRatio;
    }
  }

  /** The inner loop of puzzle_2: the gear ratios of the `*` cells of row `r`, left to right. */
  method RowGears(rows: seq<seq<Part>>, numbers: seq<Number>, r: nat) returns (ratio: int)
    requires r < |rows|
    ensures ratio == RowRatio(rows, Snaps(numbers), r, |rows[r]|)
  {
    ratio := 0;
    for c := 0 to |rows[r]|
      invariant ratio == RowRatio(rows, Snaps(numbers), r, c)
    {
      var part := rows[r][c];
      if part.Symbol? && part.text == "*" {
        var matched := MatchGear(numbers, r, c);
        if |matched| == 2 {
          ratio := ratio + matched[0].value * matched[1].value;
        }
      }
    }
  }

  /**
   * Around a gear that no number covers, a number touches it exactly when the
   * gear lies in the box one row and one column around the number.
   */
  lemma TouchesBox(s: Span, r: int, c: int)
    requires s.start <= s.end
    requires !(s.row == r && s.start <= c <= s.end)
    ensures Touches(s, r, c) <==> s.row - 1 <= r <= s.row + 1 && s.start - 1 <= c <= s.end + 1
  {
    var n := Neighbours(r, c);
    if s.row - 1 <= r <= s.row + 1 && s.start - 1 <= c <= s.end + 1 {
      var dc := if c < s.start then 1 else if c > s.end then -1 else 0;
      if s.row == r {
        var t := if c < s.start then 4 else 3;
        assert SpanHas(s, n[t]);
      } else if s.row == r - 1 {
        var t := 1 + dc;
        assert SpanHas(s, n[t]);
      } else {
        var t := 6 + dc;
        assert SpanHas(s, n[t]);
      }
    }
  }

  /** Each number appears among a gear's matches as often as in the list if it touches the gear, else never. */
  lemma {:induction false} TouchingCounts(spans: seq<Span>, r: int, c: int)
    ensures forall x :: multiset(Touching(spans, r, c))[x] == if Touches(x, r, c) then multiset(spans)[x] else 0
  {
    if spans != [] {
      var init := spans[..|spans| - 1];
      TouchingCounts(init, r, c);
      assert spans == init + [spans[|spans| - 1]];
    }
  }
}
