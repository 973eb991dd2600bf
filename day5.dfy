/**
 * Day 5 (src/day5/mod.rs): the almanac. Each mapper turns values of one
 * category into values of the next through a list of ranges, each source
 * range shifted onto the destination range at the same index; values that no
 * source range contains pass through. Seeds are followed along the chain of
 * mappers from `seed` to the last category.
 */
module Day5 {
  import opened Wrappers
  import opened Text

  /** `Range<i64>`: the half-open interval `start..end`. */
  datatype Span = Span(start: int, end: int)
  {
    predicate Contains(v: int) { start <= v < end }
  }

  datatype Category = Category(name: string, ranges: seq<Span>)

  datatype Mapper = Mapper(source: Category, destination: Category)

  /** The seeds and the mappers, keyed by the name of their source category. */
  datatype Almanac = Almanac(seeds: seq<int>, mappers: map<string, Mapper>)

  /** `destination.ranges[index]` cannot panic for any index of a source range. */
  predicate Indexable(m: Mapper)
  {
    |m.source.ranges| <= |m.destination.ranges|
  }

  // ---- Mapper::convert ----

  /** The index of the first range containing `v`, if any. */
  function FirstMatch(ranges: seq<Span>, v: int): (r: Option<nat>)
    ensures r.Some? ==> r.value < |ranges| && ranges[r.value].Contains(v)
    ensures r.Some? ==> forall j :: 0 <= j < r.value ==> !ranges[j].Contains(v)
    ensures r.None? <==> forall j :: 0 <= j < |ranges| ==> !ranges[j].Contains(v)
  {
    if ranges == [] then None
    else if ranges[0].Contains(v) then Some(0)
    else
      var rest := FirstMatch(ranges[1..], v);
      assert forall j :: 1 <= j < |ranges| ==> ranges[j] == ranges[1..][j - 1];
      if rest.None? then None else Some(rest.value + 1)
  }

  /** What `convert` returns: the first containing source range shifts `v` onto its destination range. */
  function Converted(m: Mapper, v: int): int
    requires Indexable(m)
  {
    match FirstMatch(m.source.ranges, v)
    case None => v
    case Some(i) => m.destination.ranges[i].start + (v - m.source.ranges[i].start)
  }

  /**
   * Mapper::convert: the loop over the source ranges returns at the first one
   * that contains the value, and the value itself when none does.
   */
  method Convert(m: Mapper, value: int) returns (r: int)
    requires Indexable(m)
    ensures r == Converted(m, value)
  {
    var index := 0;
    while index < |m.source.ranges|
      invariant index <= |m.source.ranges|
      invariant forall j :: 0 <= j < index ==> !m.source.ranges[j].Contains(value)
    {
      var range := m.source.ranges[index];
      if !range.Contains(value) {
        index := index + 1;
        continue;
      }
      var valueIndex := value - range.start;
      var destinationRange := m.destination.ranges[index];
      return destinationRange.start + valueIndex;
    }
    return value;
  }

  /**
   * The lowest-index source range containing `v` decides: `v` moves by the
   * offset from that range's start to its destination's start.
   */
  lemma ConvertedByFirstRange(m: Mapper, v: int, i: nat)
    requires Indexable(m) && i < |m.source.ranges| && m.source.ranges[i].Contains(v)
    requires forall j :: 0 <= j < i ==> !m.source.ranges[j].Contains(v)
    ensures Converted(m, v) == m.destination.ranges[i].start + (v - m.source.ranges[i].start)
  {
  }

  /** When the matching source range and its destination range have equal lengths, the result lies in the destination range. */
  lemma ConvertedInDestination(m: Mapper, v: int, i: nat)
    requires Indexable(m) && i < |m.source.ranges| && m.source.ranges[i].Contains(v)
    requires forall j :: 0 <= j < i ==> !m.source.ranges[j].Contains(v)
    requires m.source.ranges[i].end - m.source.ranges[i].start == m.destination.ranges[i].end - m.destination.ranges[i].start
    ensures m.destination.ranges[i].Contains(Converted(m, v))
  {
    ConvertedByFirstRange(m, v, i);
  }

  /** A value that no source range contains is returned unchanged. */
  lemma ConvertedPassesThrough(m: Mapper, v: int)
    requires Indexable(m)
    requires forall j :: 0 <= j < |m.source.ranges| ==> !m.source.ranges[j].Contains(v)
    ensures Converted(m, v) == v
  {
  }

  // ---- Parsing ----

  /** The `i64` numbers of a whitespace-separated list; `None` if a word is not one (the `unwrap` panics). */
  function Numbers(text: string): Option<seq<int>>
  {
    Collect(I64Values(SplitWhitespace(text)))
  }

  /** A map line `d s r`: exactly three `i64` numbers. */
  function ParseMapLine(line: string): Option<(int, int, int)>
  {
    var numbers := Numbers(line);
    if numbers.None? || |numbers.value| != 3 then None
    else Some((numbers.value[0], numbers.value[1], numbers.value[2]))
  }

  /** The source and destination names of a chunk's header `<source>-to-<destination> map:`. */
  function MapperHeader(chunk: string): Option<(string, string)>
  {
    var mapperInput := Split(chunk, " ")[0];
    var parts := Split(mapperInput, "-");
    if |parts| != 3 then None else Some((parts[0], parts[2]))
  }

  /** The map lines of a chunk: all its lines but the header. */
  function MapLines(chunk: string): seq<string>
  {
    var lines := Lines(chunk);
    if lines == [] then [] else lines[1..]
  }

  function LineTriples(lines: seq<string>): (opts: seq<Option<(int, int, int)>>)
    ensures |opts| == |lines| && forall k :: 0 <= k < |lines| ==> opts[k] == ParseMapLine(lines[k])
  {
    seq(|lines|, k requires 0 <= k < |lines| => ParseMapLine(lines[k]))
  }

  /** The source ranges `s..s + r` of the map lines `d s r`. */
  function SourceRanges(triples: seq<(int, int, int)>): (ranges: seq<Span>)
    ensures |ranges| == |triples|
    ensures forall i :: 0 <= i < |triples| ==> ranges[i] == Span(triples[i].1, triples[i].1 + triples[i].2)
  {
    if triples == [] then []
    else
      var t := triples[|triples| - 1];
      SourceRanges(triples[..|triples| - 1]) + [Span(t.1, t.1 + t.2)]
  }

  /** The destination ranges `d..d + r` of the map lines `d s r`. */
  function DestinationRanges(triples: seq<(int, int, int)>): (ranges: seq<Span>)
    ensures |ranges| == |triples|
    ensures forall i :: 0 <= i < |triples| ==> ranges[i] == Span(triples[i].0, triples[i].0 + triples[i].2)
  {
    if triples == [] then []
    else
      var t := triples[|triples| - 1];
      DestinationRanges(triples[..|triples| - 1]) + [Span(t.0, t.0 + t.2)]
  }

  /** The mapper of a chunk; `None` where the source panics (a bad header or map line). */
  function MapperOf(chunk: string): Option<Mapper>
  {
    match MapperHeader(chunk)
    case None => None
    case Some((source, destination)) =>
      match Collect(LineTriples(MapLines(chunk)))
      case None => None
      case Some(triples) =>
        Some(Mapper(Category(source, SourceRanges(triples)), Category(destination, DestinationRanges(triples))))
  }

  /** A parsed mapper pairs every source range with a destination range of the same length, so it is indexable. */
  lemma MapperRangesPaired(chunk: string)
    requires MapperOf(chunk).Some?
    ensures Indexable(MapperOf(chunk).value)
    ensures var m := MapperOf(chunk).value;
      |m.source.ranges| == |m.destination.ranges| &&
      forall i :: 0 <= i < |m.source.ranges| ==>
        m.source.ranges[i].end - m.source.ranges[i].start == m.destination.ranges[i].end - m.destination.ranges[i].start
  {
  }

  /** Appending a map line `d s r` appends `s..s + r` to the source ranges and `d..d + r` to the destination ranges. */
  lemma RangesStep(triples: seq<(int, int, int)>, d: int, s: int, r: int)
    ensures SourceRanges(triples + [(d, s, r)]) == SourceRanges(triples) + [Span(s, s + r)]
    ensures DestinationRanges(triples + [(d, s, r)]) == DestinationRanges(triples) + [Span(d, d + r)]
  {
    assert (triples + [(d, s, r)])[..|triples|] == triples;
  }

  /** The map-line loop of parse_input: pushes a destination and a source range per line. */
  method ParseRanges(lines: seq<string>) returns (ranges: Option<(seq<Span>, seq<Span>)>)
    ensures ranges.None? <==> Collect(LineTriples(lines)).None?
    ensures ranges.Some? ==> ranges.value == (SourceRanges(Collect(LineTriples(lines)).value), DestinationRanges(Collect(LineTriples(lines)).value))
  {
    ghost var opts := LineTriples(lines);
    ghost var triples: seq<(int, int, int)> := [];
    var sourceRanges: seq<Span> := [];
    var destinationRanges: seq<Span> := [];
    for index := 0 to |lines|
      invariant Collect(opts[..index]) == Some(triples)
      invariant sourceRanges == SourceRanges(triples) && destinationRanges == DestinationRanges(triples)
    {
      var numbers := ParseMapLine(lines[index]);
      if numbers.None? {
        CollectFailFromPrefix(opts, index + 1);
        return None;
      }
      var (destinationStart, sourceStart, range) := numbers.value;
      CollectStep(opts, index, triples);
      RangesStep(triples, destinationStart, sourceStart, range);
      triples := triples + [numbers.value];
      destinationRanges := destinationRanges + [Span(destinationStart, destinationStart + range)];
      sourceRanges := sourceRanges + [Span(sourceStart, sourceStart + range)];
    }
    assert opts[..|lines|] == opts;
    return Some((sourceRanges, destinationRanges));
  }

  /** The mapper of one chunk, as parse_input builds it. */
  method ParseMapper(chunk: string) returns (mapper: Option<Mapper>)
    ensures mapper == MapperOf(chunk)
  {
    var header := MapperHeader(chunk);
    if header.None? {
      return None;
    }
    var (source, destination) := header.value;
    var ranges := ParseRanges(MapLines(chunk));
    if ranges.None? {
      return None;
    }
    mapper := Some(Mapper(Category(source, ranges.value.0), Category(destination, ranges.value.1)));
  }

  /** The parse of each mapper chunk. */
  function ChunkMappers(chunks: seq<string>): (opts: seq<Option<Mapper>>)
    ensures |opts| == |chunks| && forall k :: 0 <= k < |chunks| ==> opts[k] == MapperOf(chunks[k])
  {
    seq(|chunks|, k requires 0 <= k < |chunks| => MapperOf(chunks[k]))
  }

  /** `HashMap::insert` of each mapper under its source name in turn: a later mapper replaces an earlier one with that name. */
  function Keyed(mappers: seq<Mapper>): map<string, Mapper>
  {
    if mappers == [] then map[]
    else
      var last := mappers[|mappers| - 1];
      Keyed(mappers[..|mappers| - 1])[last.source.name := last]
  }

  /** Each stored mapper is one of the inserted ones, stored under its source name, and every inserted name is present. */
  lemma {:induction false} KeyedBySource(mappers: seq<Mapper>)
    ensures forall key :: key in Keyed(mappers) ==> Keyed(mappers)[key].source.name == key && Keyed(mappers)[key] in mappers
    ensures forall i :: 0 <= i < |mappers| ==> mappers[i].source.name in Keyed(mappers)
  {
    if mappers != [] {
      var init := mappers[..|mappers| - 1];
      KeyedBySource(init);
      assert forall i :: 0 <= i < |init| ==> init[i] == mappers[i];
    }
  }

  /** The mappers of the chunks, when every chunk parses. */
  function MappersOf(chunks: seq<string>): Option<map<string, Mapper>>
  {
    var mappers := Collect(ChunkMappers(chunks));
    if mappers.None? then None else Some(Keyed(mappers.value))
  }

  /** The seeds of the first chunk `seeds: <numbers>`. */
  function SeedsOf(chunk: string): Option<seq<int>>
  {
    var input := Split(chunk, ": ");
    if |input| < 2 then None else Numbers(input[1])
  }

  /** parse_input: the file split into blank-line separated chunks, seeds first. */
  function AlmanacOf(content: string): Option<Almanac>
  {
    var chunks := Split(content, "\n\n");
    var seeds := SeedsOf(chunks[0]);
    var mappers := MappersOf(chunks[1..]);
    if seeds.None? || mappers.None? then None else Some(Almanac(seeds.value, mappers.value))
  }

  /** Every stored mapper is stored under its own source name and pairs ranges of equal lengths. */
  predicate MappersKeyed(mappers: map<string, Mapper>)
  {
    forall key :: key in mappers ==>
      (mappers[key].source.name == key && Indexable(mappers[key]) &&
       |mappers[key].source.ranges| == |mappers[key].destination.ranges|)
  }

  /** Parsed mappers are keyed by their source names and indexable. */
  lemma MappersOfKeyed(chunks: seq<string>)
    requires MappersOf(chunks).Some?
    ensures MappersKeyed(MappersOf(chunks).value)
  {
    var opts := ChunkMappers(chunks);
    CollectAll(opts);
    var mappers := Collect(opts).value;
    KeyedBySource(mappers);
    forall key | key in Keyed(mappers)
      ensures Indexable(Keyed(mappers)[key]) &&
        |Keyed(mappers)[key].source.ranges| == |Keyed(mappers)[key].destination.ranges|
    {
      var i :| 0 <= i < |mappers| && mappers[i] == Keyed(mappers)[key];
      MapperRangesPaired(chunks[i]);
    }
  }

  lemma KeyedStep(mappers: seq<Mapper>, mapper: Mapper)
    ensures Keyed(mappers + [mapper]) == Keyed(mappers)[mapper.source.name := mapper]
  {
    assert (mappers + [mapper])[..|mappers|] == mappers;
  }

  /** parse_input on the file's text. */
  method ParseInput(content: string) returns (almanac: Option<Almanac>)
    ensures almanac == AlmanacOf(content)
    ensures almanac.Some? ==> MappersKeyed(almanac.value.mappers)
  {
    almanac := ParseChunks(Split(content, "\n\n"));
    if almanac.Some? {
      MappersOfKeyed(Split(content, "\n\n")[1..]);
    }
  }

  /** The chunk loop of parse_input: the seeds from chunk 0, then one mapper inserted per chunk. */
  method ParseChunks(chunks: seq<string>) returns (almanac: Option<Almanac>)
    requires |chunks| >= 1
    ensures almanac.None? <==> SeedsOf(chunks[0]).None? || MappersOf(chunks[1..]).None?
    ensures almanac.Some? ==> almanac.value == Almanac(SeedsOf(chunks[0]).value, MappersOf(chunks[1..]).value)
  {
    var seeds := SeedsOf(chunks[0]);
    if seeds.None? {
      return None;
    }
    ghost var opts := ChunkMappers(chunks[1..]);
    ghost var done: seq<Mapper> := [];
    var mappers: map<string, Mapper> := map[];
    for index := 1 to |chunks|
      invariant Collect(opts[..index - 1]) == Some(done) && mappers == Keyed(done)
    {
      var mapper := ParseMapper(chunks[index]);
      assert opts[index - 1] == mapper;
      if mapper.None? {
        CollectFailFromPrefix(opts, index);
        return None;
      }
      CollectStep(opts, index - 1, done);
      KeyedStep(done, mapper.value);
      done := done + [mapper.value];
      mappers := mappers[mapper.value.source.name := mapper.value];
    }
    assert opts[..|chunks| - 1] == opts;
    return Some(Almanac(seeds.value, mappers));
  }

  // ---- find_location ----

  /** Every mapper can convert without panicking. */
  predicate AllIndexable(mappers: map<string, Mapper>)
  {
    forall key :: key in mappers ==> Indexable(mappers[key])
  }

  /** Following the chain of destination names from `key` leaves the mappers within `n` steps. */
  predicate EndsWithin(mappers: map<string, Mapper>, key: string, n: nat)
    decreases n
  {
    key !in mappers || (n > 0 && EndsWithin(mappers, mappers[key].destination.name, n - 1))
  }

  /** The value after applying every mapper along the chain from `key`. */
  function Locate(mappers: map<string, Mapper>, key: string, value: int, n: nat): int
    requires AllIndexable(mappers) && EndsWithin(mappers, key, n)
    decreases n
  {
    if key !in mappers then value
    else Locate(mappers, mappers[key].destination.name, Converted(mappers[key], value), n - 1)
  }

  /** The result of following the chain does not depend on the bound used to show that it ends. */
  lemma {:induction false} LocateAnyBound(mappers: map<string, Mapper>, key: string, value: int, n: nat, n': nat)
    requires AllIndexable(mappers) && EndsWithin(mappers, key, n) && EndsWithin(mappers, key, n')
    ensures Locate(mappers, key, value, n) == Locate(mappers, key, value, n')
    decreases n
  {
    if key in mappers {
      LocateAnyBound(mappers, mappers[key].destination.name, Converted(mappers[key], value), n - 1, n' - 1);
    }
  }

  /** The location of a seed: its value after the chain of mappers from `seed`. */
  function Location(mappers: map<string, Mapper>, seed: int, n: nat): int
    requires AllIndexable(mappers) && EndsWithin(mappers, "seed", n)
  {
    Locate(mappers, "seed", seed, n)
  }

  /**
   * find_location: converts the value with the mapper of the current category
   * and moves to its destination category, while there is such a mapper; the
   * seed itself when there is no `seed` mapper. The chain must end (`n` bounds
   * its length); a cyclic chain loops forever in the source.
   */
  method FindLocation(seed: int, mappers: map<string, Mapper>, ghost n: nat) returns (value: int)
    requires AllIndexable(mappers) && EndsWithin(mappers, "seed", n)
    ensures value == Location(mappers, seed, n)
    ensures "seed" !in mappers ==> value == seed
  {
    var mapperKey := "seed";
    value := seed;
    ghost var fuel := n;
    while mapperKey in mappers
      invariant EndsWithin(mappers, mapperKey, fuel)
      invariant Locate(mappers, mapperKey, value, fuel) == Location(mappers, seed, n)
      decreases fuel
    {
      var mapper := mappers[mapperKey];
      value := Convert(mapper, value);
      mapperKey := mapper.destination.name;
      fuel := fuel - 1;
    }
  }

  // ---- Puzzle 1 ----

  /** The least element, `None` for an empty sequence (`iter().min()`). */
  function Minimum(s: seq<int>): (r: Option<int>)
    ensures r.None? <==> s == []
    ensures r.Some? ==> r.value in s && forall k :: 0 <= k < |s| ==> r.value <= s[k]
  {
    if s == [] then None
    else
      var init := Minimum(s[..|s| - 1]);
      if init.Some? && init.value <= s[|s| - 1] then init else Some(s[|s| - 1])
  }

  /** The locations of the seeds. */
  function Locations(mappers: map<string, Mapper>, seeds: seq<int>, n: nat): (locations: seq<int>)
    requires AllIndexable(mappers) && EndsWithin(mappers, "seed", n)
    ensures |locations| == |seeds| && forall i :: 0 <= i < |seeds| ==> locations[i] == Location(mappers, seeds[i], n)
  {
    seq(|seeds|, i requires 0 <= i < |seeds| => Location(mappers, seeds[i], n))
  }

  /** puzzle_1: the least location of the listed seeds. */
  method PuzzleOne(almanac: Almanac, ghost n: nat) returns (minLocation: Option<int>)
    requires AllIndexable(almanac.mappers) && EndsWithin(almanac.mappers, "seed", n)
    ensures minLocation == Minimum(Locations(almanac.mappers, almanac.seeds, n))
  {
    var locations: seq<int> := [];
    for i := 0 to |almanac.seeds|
      invariant locations == Locations(almanac.mappers, almanac.seeds[..i], n)
    {
      var location := FindLocation(almanac.seeds[i], almanac.mappers, n);
      locations := locations + [location];
    }
    assert almanac.seeds[..|almanac.seeds|] == almanac.seeds;
    minLocation := Minimum(locations);
  }

  // ---- Puzzle 2 ----

  /** `seeds.chunks(2)` as ranges: each pair `(a, b)` is the range `a..a + b`. */
  function SeedRanges(seeds: seq<int>): (ranges: seq<Span>)
    requires |seeds| % 2 == 0
    ensures |ranges| == |seeds| / 2
    ensures forall i :: 0 <= i < |ranges| ==> ranges[i] == Span(seeds[2 * i], seeds[2 * i] + seeds[2 * i + 1])
  {
    if seeds == [] then []
    else
      var rest := SeedRanges(seeds[2..]);
      assert forall i :: 0 <= i < |rest| ==> seeds[2..][2 * i] == seeds[2 * (i + 1)];
      [Span(seeds[0], seeds[0] + seeds[1])] + rest
  }

  /**
   * The scan over the seeds `start .. stop`: the minimum starts at the
   * sentinel 0 and is replaced by a location while it is 0 or when the
   * location is smaller.
   */
  function Scan(mappers: map<string, Mapper>, n: nat, start: int, stop: int): int
    requires AllIndexable(mappers) && EndsWithin(mappers, "seed", n)
    decreases stop - start
  {
    if stop <= start then 0
    else
      var previous := Scan(mappers, n, start, stop - 1);
      var location := Location(mappers, stop - 1, n);
      if previous == 0 || location < previous then location else previous
  }

  /** With no location equal to 0 (all positive), the scan of a non-empty range is the least location in it. */
  lemma {:induction false} ScanIsMinimum(mappers: map<string, Mapper>, n: nat, start: int, stop: int) returns (seed: int)
    requires AllIndexable(mappers) && EndsWithin(mappers, "seed", n)
    requires start < stop
    requires forall s :: start <= s < stop ==> Location(mappers, s, n) > 0
    ensures start <= seed < stop && Scan(mappers, n, start, stop) == Location(mappers, seed, n)
    ensures forall s :: start <= s < stop ==> Scan(mappers, n, start, stop) <= Location(mappers, s, n)
    decreases stop - start
  {
    if stop - 1 == start {
      seed := start;
    } else {
      var previous := ScanIsMinimum(mappers, n, start, stop - 1);
      if Location(mappers, stop - 1, n) < Scan(mappers, n, start, stop - 1) {
        seed := stop - 1;
      } else {
        seed := previous;
      }
    }
  }

  /** The per-range scan of puzzle_2's threads, run sequentially: 0 for an empty range. */
  method ScanRange(range: Span, mappers: map<string, Mapper>, ghost n: nat) returns (minLocation: int)
    requires AllIndexable(mappers) && EndsWithin(mappers, "seed", n)
    ensures minLocation == Scan(mappers, n, range.start, range.end)
    ensures range.end <= range.start ==> minLocation == 0
  {
    minLocation := 0;
    var seed := range.start;
    while seed < range.end
      invariant range.start <= seed && (range.start <= range.end ==> seed <= range.end)
      invariant range.end <= range.start ==> seed == range.start
      invariant minLocation == Scan(mappers, n, range.start, seed)
      decreases range.end - seed
    {
      var location := FindLocation(seed, mappers, n);
      if minLocation == 0 || location < minLocation {
        minLocation := location;
      }
      seed := seed + 1;
    }
  }

  /** The scan result of each range. */
  function RangeMinima(mappers: map<string, Mapper>, n: nat, ranges: seq<Span>): (minima: seq<int>)
    requires AllIndexable(mappers) && EndsWithin(mappers, "seed", n)
    ensures |minima| == |ranges| && forall i :: 0 <= i < |ranges| ==> minima[i] == Scan(mappers, n, ranges[i].start, ranges[i].end)
  {
    seq(|ranges|, i requires 0 <= i < |ranges| => Scan(mappers, n, ranges[i].start, ranges[i].end))
  }

  /** puzzle_2: scans every seed range and takes the least of the per-range results. */
  method PuzzleTwo(almanac: Almanac, ghost n: nat) returns (minLocation: Option<int>)
    requires AllIndexable(almanac.mappers) && EndsWithin(almanac.mappers, "seed", n)
    requires |almanac.seeds| % 2 == 0
    ensures minLocation == Minimum(RangeMinima(almanac.mappers, n, SeedRanges(almanac.seeds)))
  {
    var ranges := SeedRanges(almanac.seeds);
    var locations: seq<int> := [];
    for i := 0 to |ranges|
      invariant locations == RangeMinima(almanac.mappers, n, ranges[..i])
    {
      var result := ScanRange(ranges[i], almanac.mappers, n);
      locations := locations + [result];
    }
    assert ranges[..|ranges|] == ranges;
    minLocation := Minimum(locations);
  }
}
