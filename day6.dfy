/**
 * Day 6 (src/day6/mod.rs): boat races. Holding the button for `h`
 * milliseconds of a race lasting `T` charges the boat to speed `h`, and it
 * then travels `h * (T - h)`; a hold time wins when that beats the record
 * distance. Durations are whole milliseconds, so they are natural numbers.
 */
module Day6 {
  import opened Wrappers
  import opened Text

  /** A race: its duration in milliseconds and the record distance. */
  datatype Race = Race(time: nat, distance: int)

  /** A boat whose speed is the `u128` millisecond count it was charged for. */
  datatype ToyBoat = ToyBoat(speed: nat)

  /** The `as i64` cast of a non-negative `u128`: its low 64 bits read as two's complement. */
  function WrapI64(x: nat): (r: int)
    ensures I64_MIN <= r <= I64_MAX
    ensures x <= I64_MAX ==> r == x
  {
    var low := x % 0x1_0000_0000_0000_0000;
    if low <= I64_MAX then low else low - 0x1_0000_0000_0000_0000
  }

  /** ToyBoat::charge: the speed is the charging time. */
  function Charge(duration: nat): ToyBoat
  {
    ToyBoat(duration)
  }

  /** ToyBoat::release: speed times the time left, cast to `i64`. */
  function Release(boat: ToyBoat, timeLeft: nat): int
  {
    WrapI64(boat.speed * timeLeft)
  }

  /** Charging for `h` and releasing for `t` travels `h * t`, as long as that fits in `i64`. */
  lemma ChargeRelease(h: nat, t: nat)
    requires h * t <= I64_MAX
    ensures Release(Charge(h), t) == h * t
  {
  }

  /** Holding for `h` milliseconds beats the record. */
  predicate Wins(race: Race, h: nat)
    requires h <= race.time
  {
    Release(Charge(h), race.time - h) > race.distance
  }

  /** The number of winning hold times `h` with `1 <= h < k`. */
  function WinsBelow(race: Race, k: nat): nat
    requires k <= race.time
  {
    if k <= 1 then 0 else WinsBelow(race, k - 1) + if Wins(race, k - 1) then 1 else 0
  }

  /** The number of winning hold times `h` with `1 <= h < T`, the ones the loop tries. */
  function BeatableWaysOf(race: Race): nat
  {
    if race.time == 0 then 0 else WinsBelow(race, race.time)
  }

  /** The winning hold times `h` with `1 <= h < k`. */
  function WinningTimes(race: Race, k: nat): set<nat>
    requires k <= race.time
  {
    set h: nat | 1 <= h < k && Wins(race, h)
  }

  /** The count is the size of the set of winning hold times. */
  lemma {:induction false} WinsBelowCountsWinningTimes(race: Race, k: nat)
    requires k <= race.time
    ensures WinsBelow(race, k) == |WinningTimes(race, k)|
  {
    if k <= 1 {
      assert WinningTimes(race, k) == {};
    } else {
      WinsBelowCountsWinningTimes(race, k - 1);
      if Wins(race, k - 1) {
        assert WinningTimes(race, k) == WinningTimes(race, k - 1) + {k - 1};
      } else {
        assert WinningTimes(race, k) == WinningTimes(race, k - 1);
      }
    }
  }

  /** The loop tries `T - 1` hold times, so at most `max(T - 1, 0)` win, and none when `T <= 1`. */
  lemma {:induction false} BeatableWaysBound(race: Race)
    ensures BeatableWaysOf(race) <= if race.time == 0 then 0 else race.time - 1
    ensures race.time <= 1 ==> BeatableWaysOf(race) == 0
  {
    if race.time > 0 {
      WinsBelowBound(race, race.time);
    }
  }

  lemma {:induction false} WinsBelowBound(race: Race, k: nat)
    requires 1 <= k <= race.time
    ensures WinsBelow(race, k) <= k - 1
  {
    if k > 1 {
      WinsBelowBound(race, k - 1);
    }
  }

  /** The distance is symmetric: holding for `h` wins exactly when holding for `T - h` does. */
  lemma WinsSymmetric(race: Race, h: nat)
    requires h <= race.time
    ensures Wins(race, h) <==> Wins(race, race.time - h)
  {
    var other := race.time - h;
    assert race.time - other == h;
    assert Release(Charge(h), other) == WrapI64(h * other);
    assert Release(Charge(other), h) == WrapI64(other * h);
    assert h * other == other * h;
  }

  /** The counting loop of puzzle_1 and puzzle_2: tries every hold time `1 .. T - 1`. */
  method BeatableWays(race: Race) returns (beatableWays: int)
    ensures beatableWays == BeatableWaysOf(race)
    ensures beatableWays == if race.time == 0 then 0 else |WinningTimes(race, race.time)|
  {
    beatableWays := 0;
    if race.time == 0 {
      return;
    }
    for millis := 1 to race.time
      invariant beatableWays == WinsBelow(race, millis)
    {
      var boat := Charge(millis);
      var timeLeft := race.time - millis;
      if Release(boat, timeLeft) > race.distance {
        beatableWays := beatableWays + 1;
      }
    }
    WinsBelowCountsWinningTimes(race, race.time);
  }

  /** The product of the races' counts, starting from 1. */
  function WaysProduct(races: seq<Race>): int
  {
    if races == [] then 1 else WaysProduct(races[..|races| - 1]) * BeatableWaysOf(races[|races| - 1])
  }

  /** puzzle_1: multiplies the counts of all races. */
  method PuzzleOne(races: seq<Race>) returns (result: int)
    ensures result == WaysProduct(races)
  {
    result := 1;
    for i := 0 to |races|
      invariant result == WaysProduct(races[..i])
    {
      assert races[..i + 1][..i] == races[..i];
      var beatableWays := BeatableWays(races[i]);
      result := result * beatableWays;
    }
    assert races[..|races|] == races;
  }

  /** The product is 0 exactly when some race cannot be won. */
  lemma {:induction false} WaysProductZero(races: seq<Race>)
    ensures WaysProduct(races) == 0 <==> exists i :: 0 <= i < |races| && BeatableWaysOf(races[i]) == 0
  {
    if races != [] {
      var init := races[..|races| - 1];
      WaysProductZero(init);
      assert forall i :: 0 <= i < |init| ==> init[i] == races[i];
      if WaysProduct(init) == 0 {
        var i :| 0 <= i < |init| && BeatableWaysOf(init[i]) == 0;
        assert BeatableWaysOf(races[i]) == 0;
      }
    }
  }

  // ---- Parsing ----

  /** The text after the label of a line `<label>: <values>`; `None` unless it has exactly one `:`. */
  function Values(line: string): Option<string>
  {
    var input := Split(line, ":");
    if |input| != 2 then None else Some(input[1])
  }

  /** `zip(times, distances)`: as many races as the shorter list has entries. */
  function Zip(times: seq<nat>, distances: seq<int>): (races: seq<Race>)
    ensures |races| == if |times| <= |distances| then |times| else |distances|
    ensures forall i :: 0 <= i < |races| ==> races[i] == Race(times[i], distances[i])
  {
    if times == [] || distances == [] then []
    else [Race(times[0], distances[0])] + Zip(times[1..], distances[1..])
  }

  /** The values as naturals (a parsed `u64` is never negative). */
  function Naturals(values: seq<int>): (naturals: seq<nat>)
    requires forall k :: 0 <= k < |values| ==> values[k] >= 0
    ensures naturals == values
  {
    seq(|values|, k requires 0 <= k < |values| => values[k] as nat)
  }

  /** parse_input: the times line and the distances line, one race per column. */
  function ParseRaces(content: string): Option<seq<Race>>
  {
    var lines := Lines(content);
    if |lines| < 2 then None
    else
      var timeInput := Values(lines[0]);
      var distanceInput := Values(lines[1]);
      if timeInput.None? || distanceInput.None? then None
      else
        var times := Collect(U64Values(SplitWhitespace(timeInput.value)));
        var distances := Collect(I64Values(SplitWhitespace(distanceInput.value)));
        if times.None? || distances.None? then None
        else
          CollectAll(U64Values(SplitWhitespace(timeInput.value)));
          Some(Zip(Naturals(times.value), distances.value))
  }

  /** The words of the text glued together (`join("")`) and parsed as an `i64`. */
  function JoinedNumber(text: string): Option<int>
  {
    ParseI64(Concat(SplitWhitespace(text)))
  }

  /** The `as u64` cast of an `i64`: a negative value wraps around. */
  function WrapU64(v: int): (r: nat)
    ensures v >= 0 && v <= U64_MAX ==> r == v
  {
    v % 0x1_0000_0000_0000_0000
  }

  /** parse_input_for_single_race: each line's digit groups read as one number. */
  function ParseSingleRace(content: string): Option<Race>
  {
    var lines := Lines(content);
    if |lines| < 2 then None
    else
      var timeInput := Values(lines[0]);
      var distanceInput := Values(lines[1]);
      if timeInput.None? || distanceInput.None? then None
      else
        var time := JoinedNumber(timeInput.value);
        var distance := JoinedNumber(distanceInput.value);
        if time.None? || distance.None? then None
        else Some(Race(WrapU64(time.value), distance.value))
  }

  /** Digit groups separated by whitespace read as the one number their digits spell when put together. */
  lemma JoinedDigitGroups(text: string)
    requires |RemoveWhitespace(text)| > 0 && AllDigits(RemoveWhitespace(text))
    requires Decimal(RemoveWhitespace(text)) <= I64_MAX
    ensures JoinedNumber(text) == Some(Decimal(RemoveWhitespace(text)))
  {
    ConcatSplitWhitespace(text);
    DigitsParse(RemoveWhitespace(text), I64_MIN, I64_MAX);
  }

  /** puzzle_2: the count for the single race. */
  method PuzzleTwo(content: string) returns (beatableWays: Option<int>)
    ensures ParseSingleRace(content).None? ==> beatableWays.None?
    ensures ParseSingleRace(content).Some? ==> beatableWays == Some(BeatableWaysOf(ParseSingleRace(content).value))
  {
    var race := ParseSingleRace(content);
    if race.None? {
      return None;
    }
    var ways := BeatableWays(race.value);
    return Some(ways);
  }
}
