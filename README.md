# Advent of Code 2023, days 1 to 8, in Dafny

This project models the eight daily puzzle solvers of the repository
(`src/day1/mod.rs` to `src/day8/mod.rs`) and proves what their code computes.
Each day reads a text file, parses it into a small structure and computes
two answers. One Dafny module per day (`Day1` … `Day8`) holds the model.
Two shared modules complete it:

- `Wrappers` holds `Option` and collecting a sequence of options.
- `Text` models the parts of Rust's `str` API that the days use:
  `split`, `lines`, `split_whitespace`, `parse::<i32/i64/u64>`, `starts_with`,
  `ends_with` and `to_string`.

Parsing is modelled as functions returning `Option`, where `None` stands for
the input on which the Rust code panics (an `unwrap`, a failed `try_from`,
an index out of bounds). The loops of the solvers are methods. Each method
is proved against a specification function, and the lemmas state what that
function means:

- Day 1: the digits of a line, including overlapping spelled digits.
- Day 2: the minimal bag of a game.
- Day 3: the maximal digit runs of the engine schematic, and the gears.
- Day 4: the recursive card copies.
- Day 5: the first-match range conversion and the minimum over a seed range.
- Day 6: the symmetric winning hold times.
- Day 7: the hand classification, which does not depend on hash-map order,
  and the ranking order, which is a total preorder.
- Day 8: the first arrival at `ZZZ` or `..Z`, and the pseudo-LCM, which is a
  common multiple of the counts when every count is a multiple of the number
  of instructions.

The Day 3 `Number` is a class, because `add_part` and the parser update its
value and span in place. Its `end` is inclusive, as the code makes it.

The code's quirks are modelled as written:

- Day 1 stops at a spelled word that ends the line.
- Day 5 uses 0 as the "no minimum yet" sentinel in the per-range scan: it
  replaces the minimum while it is 0, so a true location of 0 is not kept,
  and `Day5.ScanRange` gives 0 for an empty range. `Day5.Minimum` gives
  `None` when there are no values.
- Day 8 puzzle 1 checks for `ZZZ` only between whole passes over the
  instructions.
- Day 8 puzzle 2 combines the counts by multiplying them pairwise and
  dividing by the number of instructions.

## Model

| member | source | states |
|---|---|---|
| Day1.TableShape | src/day1/mod.rs:9-19 | the table holds the nine digits 1..9 in order, each name 3 to 5 letters long |
| Day1.NameOf | src/day1/mod.rs:9-19 | each digit's name as written in SPELLED_NUMBERS |
| Day1.NamesPrefixFree | src/day1/mod.rs:9-19 | no spelled name is a prefix of a different one, so the `starts_with` filter of get_spelled admits at most one complete name |
| Day1.NamePrefixUnique | src/day1/mod.rs:9-19 | a text starts with at most one spelled name |
| Day1.FindName | src/day1/mod.rs:23 | the table search returns the digit whose name equals the word, and nothing when no name does |
| Day1.GetSpelled | src/day1/mod.rs:21-29 | get_spelled returns digit d exactly when the word is d's name, and only digits 1..9 |
| Day1.SpelledPrefix | src/day1/mod.rs:38-46 | the digit whose name the text starts with, or none when no name starts it |
| Day1.DigitsFrom | src/day1/mod.rs:31-58 | every digit found is 0..9 |
| Day1.PlainDigits | src/day1/mod.rs:54-56 | without spelled digits the digits of a line are exactly its digit characters in order |
| Day1.FoundWordIsPrefix | src/day1/mod.rs:38-44 | a word that the inner loop grows and recognises is the spelled name starting at that letter |
| Day1.PrefixIsWord | src/day1/mod.rs:38-46 | a spelled name at a letter is reached by growing the word from that letter |
| Day1.NoWordIsNoPrefix | src/day1/mod.rs:38-48 | when no grown word is a name, no spelled digit starts at the letter |
| Day1.NoNameInsideName | src/day1/mod.rs:48-51 | no spelled name starts strictly inside another |
| Day1.NameTailContributesNothing | src/day1/mod.rs:47-51 | after a name that ends the line, the letters inside it add no digit, so the outer `break` loses nothing |
| Day1.LetterWithName | src/day1/mod.rs:34-53 | a letter where a name starts contributes that name's digit |
| Day1.LetterWithoutName | src/day1/mod.rs:34-53 | a letter where no name starts contributes nothing |
| Day1.OtherStep | src/day1/mod.rs:54-56 | any other character contributes its digit value if it is a digit, else nothing |
| Day1.GrowWord | src/day1/mod.rs:35-47 | the inner loop either finds the name starting at the letter, or ends with no proper prefix being a name and the whole rest as the word |
| Day1.LetterNoWord | src/day1/mod.rs:47-52 | a word search that ends without a name contributes nothing |
| Day1.LetterLastWord | src/day1/mod.rs:47-51 | a name that is the rest of the line gives the line's last digit |
| Day1.FindDigits | src/day1/mod.rs:31-59 | find_digits returns the digits of the line in position order, overlapping names included |
| Day1.CalibrationValue | src/day1/mod.rs:66 | the value is at most 99 |
| Day1.CalibrationValueDigits | src/day1/mod.rs:66 | its tens digit is the first digit found and its units digit the last |
| Day1.CalibrationSum | src/day1/mod.rs:61-72 | the sum is at most 99 per line |
| Day1.CalibrationSumStep | src/day1/mod.rs:64-69 | each line adds its calibration value to the sum |
| Day1.Calculate | src/day1/mod.rs:61-72 | calculate returns the sum of the calibration values of all lines |
| Day1.NothingAt | src/day1/mod.rs:34-56 | a non-digit that does not open a name contributes nothing |
| Day1.WordAt | src/day1/mod.rs:34-53 | a letter that starts a name contributes its digit |
| Day1.OneightWords | src/day1/mod.rs:33-53 | in "oneight" both "one" and "eight" are found |
| Day1.OneightGaps | src/day1/mod.rs:33-53 | no other column of "oneight" contributes |
| Day1.OverlappingWords | src/day1/mod.rs:31-59 | overlapping names both count: "oneight" gives 1 and 8 |
| Day2.ColorFromStr | src/day2/mod.rs:14-21 | exactly the three colour words parse, each to its colour |
| Day2.CountColor | src/day2/mod.rs:38-42 | a colour's count is at most the number of cubes |
| Day2.CountColorAppend | src/day2/mod.rs:84-86 | counting is additive over concatenated cube lists |
| Day2.Cubes | src/day2/mod.rs:84-86 | pushing for `0..n` gives n cubes, none when n <= 0 |
| Day2.CountCubes | src/day2/mod.rs:84-86 | n cubes of one colour count n for it and 0 for the others |
| Day2.CanFit | src/day2/mod.rs:36-44 | can_fit holds exactly when the sample shows at most `count` cubes of the colour |
| Day2.MaxCount | src/day2/mod.rs:56 | the maximum bounds every sample's count and is attained by one |
| Day2.MaxCubes | src/day2/mod.rs:55-57 | none exactly for a game without samples; otherwise the attained maximum per sample |
| Day2.IsPossible | src/day2/mod.rs:107 | the nested `all` holds exactly when every sample fits every set of the bag |
| Day2.PuzzleOneBagLimits | src/day2/mod.rs:103-107 | with puzzle 1's bag a game is possible iff no sample shows more than 12 red, 13 green, 14 blue |
| Day2.PuzzleOne | src/day2/mod.rs:101-112 | puzzle_1 adds the ids of exactly the possible games |
| Day2.MaxOrZeroAttained | src/day2/mod.rs:119-125 | some sample shows the maximum used in the bag |
| Day2.MinimalBagFits | src/day2/mod.rs:119-125 | the game is possible with the bag puzzle_2 builds |
| Day2.MinimalBagIsLeast | src/day2/mod.rs:119-125 | every red/green/blue bag the game fits holds at least that bag's counts |
| Day2.MissingIsZero | src/day2/mod.rs:121-123 | a colour's count is 0 exactly when no sample shows it |
| Day2.PowerZero | src/day2/mod.rs:126 | the power is the product of the three maxima and is 0 iff some colour never shows |
| Day2.PuzzleTwo | src/day2/mod.rs:114-131 | puzzle_2 adds the powers of all games |
| Day2.ParseCubeGroup | src/day2/mod.rs:80-86 | a parsed count is an `i32` |
| Day2.GroupWords | src/day2/mod.rs:80-81 | `N colour` splits at its one space into count and colour |
| Day2.GroupRoundTrip | src/day2/mod.rs:80-86 | the group ` N colour` parses back to N cubes of that colour for every `i32` count |
| Day2.PushCubes | src/day2/mod.rs:84-86 | the push loop appends the cubes, raising that colour's count and no other |
| Day2.ParseSample | src/day2/mod.rs:76-89 | a sample's cubes are those of its comma-separated groups, none where a group panics |
| Day2.ParseLine | src/day2/mod.rs:68-96 | a line parses into its game exactly as ParseGame states |
| Day2.SampleCubes | src/day2/mod.rs:75-77 | the cubes of each `;`-separated piece, in order |
| Day2.ParseSamplesOpts | src/day2/mod.rs:73-90 | proof step: parsing the samples folds the pieces' cubes |
| Day2.SamplesOfEach | src/day2/mod.rs:73-90 | the fold succeeds iff every piece's cubes parse, giving one sample per piece with its cubes |
| Day2.SamplesEach | src/day2/mod.rs:73-90 | the samples parse iff every `;` piece parses, and then sample i holds the cubes of piece i |
| Day2.GameLine | src/day2/mod.rs:71-95 | `Game <id>:<samples>` gives the game with that id and the samples of the `;` pieces, for every `i32` id, and fails iff a sample fails |
| Day2.ParseSampleList | src/day2/mod.rs:73-90 | the sample loop yields the samples in order, or fails at a sample that panics |
| Day3.PartFromStr | src/day3/mod.rs:15-25 | a part exists iff the first character is a digit or ASCII punctuation, and a digit gives its value |
| Day3.PartRoundTrip | src/day3/mod.rs:15-25 | reading a part's character back gives the part |
| Day3.Number.constructor | src/day3/mod.rs:97 | a new number holds one digit at one column |
| Day3.Number.AddPart | src/day3/mod.rs:35-39 | appending a digit's text and re-parsing gives 10 × value + digit, with the span unchanged |
| Day3.Number.HasPosition | src/day3/mod.rs:41-43 | for a span with start <= end, a position is on the number iff it is on its row within start..=end |
| Day3.Number.Surroundings | src/day3/mod.rs:45-65 | the positions listed are exactly the cells near the span (the row above only if it exists) |
| Day3.Snaps | src/day3/mod.rs:71 | the values of the numbers, one per number |
| Day3.FitsIsInGrid | src/day3/mod.rs:75-79 | a position fits iff its row is below the height and its column below the width of row 0; with no row narrower than row 0, a fitting position is a cell of the grid |
| Day3.RunEnd | src/day3/mod.rs:92-95 | the run from a digit extends to the last digit before a non-digit or the line's end |
| Day3.RunEndUnique | src/day3/mod.rs:92-95 | any maximal digit run from a column ends where RunEnd says |
| Day3.RowRunsAreMaximalRuns | src/day3/mod.rs:86-113 | a row's numbers are exactly its maximal digit runs, in column order, with their decimal values |
| Day3.RunsFromSound | src/day3/mod.rs:89-108 | every span found is a maximal digit run with its value |
| Day3.RunsFromOrdered | src/day3/mod.rs:89-108 | the spans found do not overlap and go left to right |
| Day3.RunsFromComplete | src/day3/mod.rs:89-108 | every maximal digit run is among the spans found |
| Day3.RunsFromRun | src/day3/mod.rs:89-108 | a digit run yields one span and the scan resumes after it |
| Day3.ScanDigit | src/day3/mod.rs:92-99 | a digit opens a number, or extends the open one by one column and one decimal place |
| Day3.ScanOther | src/day3/mod.rs:100-105 | any other part closes the open number |
| Day3.ScanEnd | src/day3/mod.rs:109-111 | at the row's end the closed and open numbers are the row's numbers |
| Day3.ExtendNumber | src/day3/mod.rs:93-95 | add_part and `end += 1` grow the number by one digit and one column |
| Day3.TakeDigit | src/day3/mod.rs:92-99 | a digit starts a fresh number or extends the current one, keeping the scan state |
| Day3.ScanPart | src/day3/mod.rs:89-108 | one character keeps the scan state, pushing the closed number |
| Day3.ParseRow | src/day3/mod.rs:86-112 | a row's parts are its characters' parts and its numbers are its maximal digit runs |
| Day3.PartsOfStep | src/day3/mod.rs:90-107 | one more parsed character appends its part |
| Day3.PartsFailFromPrefix | src/day3/mod.rs:90 | a character that is not a part makes the whole row fail |
| Day3.RowsOfLines | src/day3/mod.rs:86-113 | the grid exists iff every line parses, and holds each line's parts |
| Day3.RowsFailFromPrefix | src/day3/mod.rs:86-113 | a line that fails makes the whole grid fail |
| Day3.RowsStep | src/day3/mod.rs:112 | one more line appends its row |
| Day3.AllRunsStep | src/day3/mod.rs:109-112 | one more line appends its numbers |
| Day3.SnapsAppend | src/day3/mod.rs:102-110 | the values of appended numbers are appended |
| Day3.ParseInput | src/day3/mod.rs:82-115 | parse_input fails exactly when a character is not a part; otherwise it gives the grid and the numbers of all rows in order |
| Day3.ParseLines | src/day3/mod.rs:86-114 | the line loop gives the rows and the numbers of all lines in order |
| Day3.PuzzleOne | src/day3/mod.rs:117-135 | puzzle_1 sums the values of the part numbers (those next to a symbol), each once |
| Day3.MatchGear | src/day3/mod.rs:156-163 | the numbers matched to a gear are exactly those touching one of its eight neighbours, in order, each once |
| Day3.PuzzleTwo | src/day3/mod.rs:137-173 | puzzle_2 sums, over every `*`, the product of its two numbers when exactly two touch it |
| Day3.RowGears | src/day3/mod.rs:141-170 | one row's gear ratios, left to right |
| Day3.TouchesBox | src/day3/mod.rs:146-163 | a number touches a gear iff the gear lies in the box one row and column around it |
| Day3.TouchingCounts | src/day3/mod.rs:156-163 | a number is matched as often as it is listed if it touches the gear, else never |
| Day4.ParsedNumbersAreParsedWords | src/day4/mod.rs:20-21 | a number is kept iff some word parses to it; other words are dropped |
| Day4.CardLine | src/day4/mod.rs:15-25 | a line `header:winning\|given` parses to the header's number minus one and the two number sets |
| Day4.NumbersPartHasNoColon | src/day4/mod.rs:15 | the numbers part has no `:`, so the line splits at the header's colon |
| Day4.CardOfPartsSplits | src/day4/mod.rs:18-19 | the numbers part splits at its one `\|` |
| Day4.CardOfListsNumber | src/day4/mod.rs:23-25 | the id is the header's number after `Card`, minus one |
| Day4.LineCards | src/day4/mod.rs:14-25 | the card of every line |
| Day4.ParseInput | src/day4/mod.rs:11-28 | parse_input gives the cards of the lines |
| Day4.ParseLines | src/day4/mod.rs:14-26 | the loop succeeds iff every line parses, and then holds each line's card |
| Day4.Pow2 | src/day4/mod.rs:37-40 | a power of two is positive |
| Day4.PointsStep | src/day4/mod.rs:36-41 | one more match turns 0 into 1 and doubles otherwise; 0 points iff no match |
| Day4.CardPoints | src/day4/mod.rs:34-42 | in any set order, the points loop gives 2^(k-1) for k matches, 0 without one |
| Day4.PuzzleOne | src/day4/mod.rs:30-45 | puzzle_1 adds up every card's points |
| Day4.FindCopies | src/day4/mod.rs:48-65 | the worklist counts the copies a card wins, recursively |
| Day4.PushWon | src/day4/mod.rs:52-61 | the cards a reachable card wins are reachable, and its copies are theirs plus one each |
| Day4.StackPush | src/day4/mod.rs:58-60 | pushing an id adds its copies to the worklist's total |
| Day4.IndexedCardsDefined | src/day4/mod.rs:53-58 | with ids equal to indexes and wins inside the list, no lookup panics |
| Day4.CopiesAtLeastMatches | src/day4/mod.rs:56-61 | a card wins at least as many copies as it has matches |
| Day4.RangeCopiesAtLeast | src/day4/mod.rs:58-61 | each card won counts at least one |
| Day4.PuzzleTwo | src/day4/mod.rs:67-77 | puzzle_2 totals each card plus its copies, at least one per card |
| Day5.FirstMatch | src/day5/mod.rs:22-25 | the index of the first range containing the value, or none when no range does |
| Day5.Convert | src/day5/mod.rs:21-31 | convert returns the first match's shifted value, else the value |
| Day5.ConvertedByFirstRange | src/day5/mod.rs:26-28 | the first containing source range moves the value by its offset to the destination start |
| Day5.ConvertedInDestination | src/day5/mod.rs:26-28 | with ranges of equal length the result lies in the destination range |
| Day5.ConvertedPassesThrough | src/day5/mod.rs:30 | a value in no source range is returned unchanged |
| Day5.LineTriples | src/day5/mod.rs:61-67 | the three numbers of every map line |
| Day5.SourceRanges | src/day5/mod.rs:70 | each line `d s r` gives the source range s..s+r |
| Day5.DestinationRanges | src/day5/mod.rs:69 | each line `d s r` gives the destination range d..d+r |
| Day5.MapperRangesPaired | src/day5/mod.rs:59-71 | a parsed mapper pairs source and destination ranges of equal lengths, so convert cannot panic |
| Day5.RangesStep | src/day5/mod.rs:69-70 | one more map line appends one range to each list |
| Day5.ParseRanges | src/day5/mod.rs:59-71 | the map-line loop gives the source and destination ranges of the lines |
| Day5.ParseMapper | src/day5/mod.rs:53-71 | a chunk parses into its mapper |
| Day5.ChunkMappers | src/day5/mod.rs:45-72 | the mapper of every chunk |
| Day5.KeyedBySource | src/day5/mod.rs:72 | every inserted mapper's name is a key, and each key holds an inserted mapper with that source name |
| Day5.KeyedStep | src/day5/mod.rs:72 | an insert replaces the entry under the mapper's source name |
| Day5.MappersOfKeyed | src/day5/mod.rs:45-73 | parsed mappers are keyed by their source names and indexable |
| Day5.ParseInput | src/day5/mod.rs:40-75 | parse_input gives the almanac, keyed by source name |
| Day5.ParseChunks | src/day5/mod.rs:45-74 | seeds come from chunk 0 and one mapper per later chunk, failing iff one does not parse |
| Day5.LocateAnyBound | src/day5/mod.rs:77-86 | the location does not depend on the bound that shows the chain ends |
| Day5.FindLocation | src/day5/mod.rs:77-86 | find_location follows the mapper chain from `seed`, and returns the seed when there is no `seed` mapper |
| Day5.Minimum | src/day5/mod.rs:98 | `min()` is none for no values, else a least element |
| Day5.Locations | src/day5/mod.rs:93-97 | the location of every seed |
| Day5.PuzzleOne | src/day5/mod.rs:88-99 | puzzle_1 gives the least location of the seeds |
| Day5.SeedRanges | src/day5/mod.rs:104-105 | each seed pair (a, b) is the range a..a+b |
| Day5.ScanIsMinimum | src/day5/mod.rs:116-127 | with all locations positive, a range's scan is its least location, attained by a seed |
| Day5.ScanRange | src/day5/mod.rs:116-127 | the per-range loop gives the scan, 0 for an empty range |
| Day5.RangeMinima | src/day5/mod.rs:112-136 | each range's scan |
| Day5.PuzzleTwo | src/day5/mod.rs:101-138 | puzzle_2 gives the least of the per-range scans |
| Day6.WrapI64 | src/day6/mod.rs:23 | `as i64` stays in range and keeps every value that fits |
| Day6.ChargeRelease | src/day6/mod.rs:18-24 | charging for h and releasing for t travels h × t when that fits in i64 |
| Day6.WinsBelowCountsWinningTimes | src/day6/mod.rs:69-75 | the count is the number of winning hold times |
| Day6.BeatableWaysBound | src/day6/mod.rs:69 | at most T − 1 hold times win, none when T <= 1 |
| Day6.WinsSymmetric | src/day6/mod.rs:70-72 | holding h wins iff holding T − h wins |
| Day6.BeatableWays | src/day6/mod.rs:67-75 | the counting loop gives the number of winning hold times 1..T−1 |
| Day6.PuzzleOne | src/day6/mod.rs:62-81 | puzzle_1 multiplies the races' counts |
| Day6.WaysProductZero | src/day6/mod.rs:77 | the product is 0 iff some race cannot be won |
| Day6.Zip | src/day6/mod.rs:40-42 | zip pairs times and distances, as many as the shorter list |
| Day6.Naturals | src/day6/mod.rs:33 | proof step: parsed `u64` times are natural durations |
| Day6.JoinedDigitGroups | src/day6/mod.rs:52-56 | digit groups joined with `join("")` read as the number their digits spell |
| Day6.WrapU64 | src/day6/mod.rs:52 | `as u64` keeps every non-negative value |
| Day6.PuzzleTwo | src/day6/mod.rs:83-103 | puzzle_2 counts the winning hold times of the single race |
| Day7.LabelStrengths | src/day7/mod.rs:16-35 | the labels A K Q J T 9..1 get strengths 14 down to 1, and nothing else is a label |
| Day7.ParseLabel | src/day7/mod.rs:153-156 | a `J` has strength 1 when jokers are played; otherwise the label is from_str's |
| Day7.CompareLabelsEqual | src/day7/mod.rs:44-48 | label lists compare equal iff they have the same length and strengths |
| Day7.CompareLabelsFlip | src/day7/mod.rs:44-48 | swapping label lists flips their order |
| Day7.CompareLabelsTransitive | src/day7/mod.rs:44-48 | "not greater" is transitive on label lists |
| Day7.ClassifyRange | src/day7/mod.rs:102-110 | every pattern gets a strength 1..7, 1 exactly for a high card |
| Day7.InsertInt | src/day7/mod.rs:100 | inserting keeps a sequence sorted and adds the value to the multiset |
| Day7.SortInts | src/day7/mod.rs:100 | `values.sort()` gives a sorted permutation |
| Day7.SortedUnique | src/day7/mod.rs:99-100 | the sorted sizes do not depend on the map's value order |
| Day7.KeptAndJokers | src/day7/mod.rs:74-80 | the kept labels are those that are not jokers, and kept plus jokers is the hand |
| Day7.KeptStep | src/day7/mod.rs:74-80 | each label is either counted as a joker or kept |
| Day7.GroupsCount | src/day7/mod.rs:79 | the groups hold each kept label with its number of occurrences |
| Day7.GroupsStep | src/day7/mod.rs:79 | `entry(label).or_insert(0) += 1` |
| Day7.Distinct | src/day7/mod.rs:98 | each kept label once |
| Day7.GroupLabels | src/day7/mod.rs:82-98 | the keys of the filled groups, each once |
| Day7.Lookup | src/day7/mod.rs:99 | the value at each key, in order |
| Day7.MaxOf | src/day7/mod.rs:90-95 | the largest size, attained |
| Day7.FirstIndex | src/day7/mod.rs:90-95 | the first position of the largest size |
| Day7.WithJokers | src/day7/mod.rs:96 | adding the jokers to a largest size replaces it in the multiset and adds the jokers to the sum |
| Day7.KeptOfJokers | src/day7/mod.rs:75 | a hand of jokers keeps no label |
| Day7.AllJokersFiveOfAKind | src/day7/mod.rs:82-85 | five jokers make five of a kind |
| Day7.BagOfLookup | src/day7/mod.rs:99 | the values collected from the map are the looked-up values as a multiset |
| Day7.AddJokers | src/day7/mod.rs:96 | adding the jokers keeps the same groups |
| Day7.JokersBag | src/day7/mod.rs:96 | the group that takes the jokers has its size replaced by the larger one |
| Day7.JokersToAnyLargestGroup | src/day7/mod.rs:86-96 | any largest group can take the jokers with the same sizes, so map order does not matter |
| Day7.GroupLabelsKeys | src/day7/mod.rs:98 | the group labels are the map's keys |
| Day7.CountsBag | src/day7/mod.rs:96-100 | adding the jokers at the first largest size equals adding them to any largest group |
| Day7.LookupMax | src/day7/mod.rs:90-95 | the largest looked-up size is that of a largest group |
| Day7.CountsToBag | src/day7/mod.rs:96-100 | looked-up sizes with the jokers added equal the map's sizes with the jokers added |
| Day7.KeptCountsBag | src/day7/mod.rs:96-100 | the classified sizes are the map's sizes after the jokers are added |
| Day7.GroupsEmpty | src/day7/mod.rs:82-85 | no groups exactly when every label is a joker |
| Day7.StrengthOfGroups | src/day7/mod.rs:86-110 | any enumeration of the sizes, with jokers added to any largest group, classifies to the hand's strength |
| Day7.CountGroups | src/day7/mod.rs:72-80 | the counting loop gives the groups of the kept labels and the number of jokers |
| Day7.LargestGroup | src/day7/mod.rs:86-95 | in any map order the search ends at a largest group |
| Day7.GroupSizes | src/day7/mod.rs:99 | the collected values are the group sizes as a multiset |
| Day7.FromLabels | src/day7/mod.rs:71-111 | from_labels gives the rule RuleOf specifies, whatever the map order |
| Day7.SumAppend | src/day7/mod.rs:72-80 | proof step: appending adds to the sum |
| Day7.SumUpdate | src/day7/mod.rs:96 | proof step: replacing an element changes the sum by the difference |
| Day7.LookupOutside | src/day7/mod.rs:79 | proof step: a new key does not change the looked-up values of the others |
| Day7.LookupBump | src/day7/mod.rs:79 | proof step: bumping a counted label adds one to the sum |
| Day7.GroupsSum | src/day7/mod.rs:72-80 | the group sizes add up to the number of kept labels |
| Day7.GroupsSumOne | src/day7/mod.rs:79 | one kept label makes one group of size one |
| Day7.GroupsSumStep | src/day7/mod.rs:79 | one more kept label adds one to the total |
| Day7.GroupsSumSeen | src/day7/mod.rs:79 | a label seen before grows its group by one |
| Day7.GroupsSumNew | src/day7/mod.rs:79 | a new label starts a group of one |
| Day7.HandCountsSum | src/day7/mod.rs:72-96 | with the jokers added, the sizes add up to the hand's length |
| Day7.CompareRulesFlip | src/day7/mod.rs:115-123 | swapping rules flips their order |
| Day7.CompareRulesTransitive | src/day7/mod.rs:115-123 | "not greater" is transitive on rules |
| Day7.CompareHandsByRule | src/day7/mod.rs:139-145 | the stronger rule wins; under equal rules the hands compare equal iff their strengths match label by label |
| Day7.CompareHandsFlip | src/day7/mod.rs:139-145 | swapping hands of one joker setting flips their order |
| Day7.CompareHandsTransitive | src/day7/mod.rs:139-145 | "not greater" is transitive on hands of one joker setting |
| Day7.InsertBy | src/day7/mod.rs:178 | inserting adds the hand to the multiset |
| Day7.SortBy | src/day7/mod.rs:178 | sorting is a permutation |
| Day7.InsertByRanked | src/day7/mod.rs:178 | inserting into a ranked list keeps it ranked |
| Day7.SortHandsRanked | src/day7/mod.rs:178 | `hands.sort()` gives a ranked permutation of hands of one setting |
| Day7.HandLabels | src/day7/mod.rs:153-157 | the label of every character |
| Day7.ParsedHand | src/day7/mod.rs:150-159 | a line parses iff it has two words, the first all labels and the second an i32; the hand then has those labels, with jokers at strength 1 |
| Day7.LineHands | src/day7/mod.rs:150-160 | the hand of every line |
| Day7.ParseLines | src/day7/mod.rs:147-162 | parse_input gives one hand per line, all with the given joker setting |
| Day7.WinningsAppend | src/day7/mod.rs:167-170 | hands ranked later have their ranks raised by the number before them |
| Day7.CalculateTotalWinnings | src/day7/mod.rs:164-173 | the total is the sum of bid × rank |
| Day7.Puzzle | src/day7/mod.rs:175-191 | puzzle_1 and puzzle_2 give the winnings of the ranked hands, none where parsing panics |
| Day8.InstructionLetters | src/day8/mod.rs:15-21 | exactly `L` and `R` parse, each back to its instruction |
| Day8.InstructionOpts | src/day8/mod.rs:35 | the instruction of every character |
| Day8.ParsedInstructions | src/day8/mod.rs:35 | the instruction line parses iff it holds only `L` and `R`, and then spells the instructions |
| Day8.ParseNodeLine | src/day8/mod.rs:38-42 | `KEY = (X, Y)` of names parses to KEY with successors X and Y |
| Day8.NodeOpts | src/day8/mod.rs:37-43 | the parse of every node line |
| Day8.InsertAllSome | src/day8/mod.rs:37-43 | the node map exists iff every line parses |
| Day8.InsertAllKeys | src/day8/mod.rs:42 | the map's keys are the keys of the lines |
| Day8.InsertAllLatest | src/day8/mod.rs:42 | a key has the successors of the last line naming it |
| Day8.InsertAllStep | src/day8/mod.rs:42 | each line inserts its node |
| Day8.ParseNodeLines | src/day8/mod.rs:37-43 | the node loop builds the node map of the lines |
| Day8.ParseInput | src/day8/mod.rs:30-46 | parse_input gives the network of the text |
| Day8.StepFromLine | src/day8/mod.rs:56-60 | a node read from `KEY = (X, Y)` steps to X on `L` and to Y on `R` |
| Day8.WalkFailFromPrefix | src/day8/mod.rs:55-62 | a missing node part-way panics the whole pass |
| Day8.PassesToZZZFirst | src/day8/mod.rs:54-63 | the pass count is the first pass boundary at ZZZ, every earlier one reached |
| Day8.PassesToZZZArrives | src/day8/mod.rs:54-63 | a pass boundary at ZZZ within the fuel yields a count no larger |
| Day8.WalkPass | src/day8/mod.rs:55-62 | one pass over the instructions, one step each |
| Day8.PuzzleOne | src/day8/mod.rs:48-66 | puzzle_1 gives the pass count times the number of instructions |
| Day8.WholePassExample | src/day8/mod.rs:54-63 | ZZZ reached mid-pass is not noticed: one step reaches it, the answer is 2 |
| Day8.StepsToZFirst | src/day8/mod.rs:78-88 | the count is the first step of the cyclic walk at a node ending in Z |
| Day8.StepsToZArrives | src/day8/mod.rs:78-88 | a Z node within the fuel yields a count no larger |
| Day8.StepsToZZero | src/day8/mod.rs:78-81 | the count is 0 iff the start ends in Z or there are no instructions |
| Day8.CountSteps | src/day8/mod.rs:76-89 | the cycling loop gives the start's count |
| Day8.AllCountsEach | src/day8/mod.rs:75-90 | the counts exist iff every start's does, one per start |
| Day8.AllCountsStop | src/day8/mod.rs:75-90 | the first start without a count decides the outcome |
| Day8.CountAll | src/day8/mod.rs:75-90 | the per-start loop gives the counts in order |
| Day8.CollectStarts | src/day8/mod.rs:70 | the starts are the keys ending in A, each once |
| Day8.FoldRestMultiples | src/day8/mod.rs:93-95 | popping multiples of g keeps the fold g × product of the quotients |
| Day8.FoldOfMultiples | src/day8/mod.rs:91-95 | when every count is g × q, the pseudo-LCM is g × product of the q |
| Day8.Without | src/day8/mod.rs:91-95 | proof step: one element fewer |
| Day8.ProductFactor | src/day8/mod.rs:91-95 | proof step: every element is a factor of the product |
| Day8.FoldCommonMultiple | src/day8/mod.rs:91-95 | when every count is g × q for the g instructions, the pseudo-LCM is a common multiple of the counts (count i times the product of the other quotients) |
| Day8.FoldSteps | src/day8/mod.rs:91-95 | the popping loop gives the fold |
| Day8.PuzzleTwo | src/day8/mod.rs:68-98 | puzzle_2 enumerates the starts each once and folds their counts |
| Text.IndexOf | src/day8/mod.rs:38 | the first occurrence of a pattern at or after a position, or none |
| Text.Split | src/day5/mod.rs:42 | `split` gives at least one piece, each no longer than the text |
| Text.SplitJoin | src/day5/mod.rs:42 | joining the pieces of a split with the pattern gives the text back |
| Text.SplitPiecesAvoidPattern | src/day8/mod.rs:32 | no piece of a split contains the pattern |
| Text.SplitWithoutPattern | src/day8/mod.rs:38-41 | a text without the pattern splits into itself |
| Text.SplitFirstPiece | src/day8/mod.rs:38-41 | the first piece ends at the first occurrence |
| Text.SplitTwo | src/day2/mod.rs:71-72 | `a c b` splits at the one character c into a and b |
| Text.SplitInTwo | src/day8/mod.rs:38-41 | `a pat b` with one occurrence splits into a and b |
| Text.WordLength | src/day4/mod.rs:20 | the leading run of non-whitespace ends at whitespace |
| Text.SplitWhitespace | src/day4/mod.rs:20-21 | `split_whitespace` gives non-empty words without whitespace |
| Text.ConcatSplitWhitespace | src/day6/mod.rs:52 | gluing the words gives the text without its whitespace |
| Text.ParseInt | src/day4/mod.rs:24 | a parsed integer is in the type's range and comes from non-empty text |
| Text.NatToString | src/day3/mod.rs:36 | `to_string` gives the decimal digits of the value |
| Text.DecimalAppend | src/day3/mod.rs:36-38 | appending a digit is ten times plus the digit |
| Text.DigitsParse | src/day3/mod.rs:38 | a digit string parses as its value when it fits the type |

## Left out

- Reading the input files, `println!`, the indicatif progress bars and the `Mutex` around them are left out. Each solver takes the file's text (or the parsed structure) as a parameter and returns its answer.
- `lines()` is modelled for text without carriage returns, and characters are ASCII. `is_alphabetic`, `is_numeric` and `is_whitespace` are restricted to ASCII.
- Day1.Calculate, Day1.CalibrationSum and Day1.CalibrationSumStep require every line to have a digit (`EveryLineHasDigit`). On a line without one, such as an empty line inside the text, `digits.first().unwrap()` panics (src/day1/mod.rs:66); the model does not report that panic.
- Day5.SeedRanges and Day5.PuzzleTwo require an even number of seeds. With an odd number, the last chunk of `seeds.chunks(2)` has one element and `chunk[1]` panics (src/day5/mod.rs:104-105); the model does not report that panic.
- Day5.PuzzleTwo: the one thread per seed range is modelled as sequential scans, because the per-range results are only combined by a minimum.
- Day5.FindLocation: a cycle in the mapper chain makes the source loop forever. The model requires a bound within which the chain leaves the mappers (`EndsWithin`), instead of modelling non-termination.
- Day5.ScanIsMinimum: states the minimum only when every location in the range is positive, because the code's 0 sentinel lets a later location replace a true location of 0.
- Day8.PuzzleOne, Day8.CountSteps and Day8.PuzzleTwo: a walk that never arrives loops forever in the source. The model takes a `fuel` bound and reports `OutOfFuel` past it, so answers beyond the fuel are not modelled.
- Day8.PuzzleTwo: the order in which the `HashMap` yields the start nodes is left open and returned as an out-parameter. The pseudo-LCM depends on that order only through integer division.
- Integer widths are modelled where they decide a result: the `i32` of `add_part` and of the parsers, the `as i64` and `as u64` casts of Day 6, and the `i32` subtraction of the Day 4 card id. Overflow of the running sums and products is not modelled, because the integers are unbounded. That covers the Day 1/2/3/4 sums, the Day 2 `i32` power `product()` (src/day2/mod.rs:126), the Day 4 `i32` points doubling `result *= 2` (src/day4/mod.rs:39), the Day 5 `i64` range ends, the Day 6 `i32` product and counter, the Day 7 `i32` winnings, the Day 8 `i32` step count of puzzle_1 (src/day8/mod.rs:52) and the `i64` counts and fold of puzzle_2.
- Day5.SourceRanges, Day5.DestinationRanges, Day5.SeedRanges: the `i64` sums `start + range` (src/day5/mod.rs:69-70) and `chunk[0] + chunk[1]` (src/day5/mod.rs:105) panic on overflow in the source; the model adds unbounded integers, so it does not report that panic.
- Day7.SortHandsRanked: Rust's stable merge sort is modelled as a stable insertion sort by the same comparison. The model proves that the result is a ranked permutation, but not that it equals the merge sort's output element for element.
- Day7.CalculateTotalWinnings: the rule computed in calculate_total_winnings is only printed, so it is left out, together with the unused `with_jokers` parameter.
- Day3.PuzzleOne requires that no row is narrower than row 0 and that the grid has a row when there are numbers. This excludes some ragged grids that the source handles without a panic; on a ragged grid the source panics when a number's neighbourhood holds a position that fits by row 0's width but lies past the end of a shorter row.
- Day3.PuzzleTwo requires that no `*` lies in row 0 or column 0, where the source's `usize` subtraction underflows.
- Day3.ParseInput requires every digit run to fit an `i32`, where `add_part`'s `unwrap` would otherwise panic.
- Day4.FindCopies and Day4.PuzzleTwo require that every card reachable through wins lies in the list (`CopiesDefined`), where `cards[current_id as usize]` would otherwise panic.
- Day2.CanFit and the other Day 2 counts do not model `i32` wrap-around of the remaining count.
