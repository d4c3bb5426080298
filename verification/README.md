# Advent of Code 2023, days 1 to 18, in Dafny

This project models the puzzle solvers of an Advent of Code 2023 repository written in Rust, one binary per puzzle part, and proves what each solver computes. Each solver is a pure function from the puzzle text to a number. Here each one becomes a Dafny module (`Day07Part2`, …) of datatypes, functions and methods that follow the Rust code branch by branch, next to an independent statement of what the puzzle asks for and lemmas that connect the two.

- `text.dfy` (module `Text`) restates the parts of the Rust standard library the solvers use. These are `split`, `split_once`, `split_whitespace`, `trim`, `lines`, `replace`, `step_by` and `parse` for the integer types. Integer widths are explicit bounds: `usize` is 64 bits wide.
- `day01.dfy` … `day18.dfy` hold one module per part. A part 2 module imports part 1 where the Rust code is shared. Day 7 also has a `CamelCards` module for the hand types, the order and the sort, which both parts use.
- Covered: both parts of days 1 to 4, 6 to 8, 10 to 15 and 18; only part 2 of days 5, 9 and 17; only part 1 of day 16.
- The Rust code's `unwrap` and indexing panics and its fixed-width arithmetic become preconditions. Where the code has an error path (`None`, a skipped line, a returned 0) the model keeps it.
- Day 12 part 1 looks up its cache under the line followed by the runs' debug rendering but inserts under the line alone. `Day12Part1.ArrangeCached` models the cache as written and proves that no lookup ever hits, on every input: each line the recursion reaches is a tail of the original line, and no such tail followed by a rendering of runs is one of those tails. So the count is always the uncached one.
- Day 14 part 2 detects a cycle with a cache keyed by the grid's text. `Day14Part2.SkipCycles` proves that the grid it stops at is the grid after all 1 000 000 000 spins.

## Model

| member | source | states |
|---|---|---|
| Day01Part1.TwoDigits | day-01/src/bin/part1.rs:14-24 | two digit characters pushed one after the other parse as a `u32` worth ten times the first plus the second |
| Day01Part1.NumberFromString | day-01/src/bin/part1.rs:11-25 | the value is ten times the line's first digit plus its last digit; it fails exactly when the line holds no digit |
| Day01Part1.NonDigitIgnored | day-01/src/bin/part1.rs:12 | inserting a character that is not a digit anywhere in a line never changes its value |
| Day01Part1.SingleDigit | day-01/src/bin/part1.rs:16-22 | a line with exactly one digit `d` is worth 11·d: the digit is both first and last |
| Day01Part1.CalibrationTotalBound | day-01/src/bin/part1.rs:27-38 | no line adds more than 99 to the total |
| Day01Part1.CalibrationValuesSum | day-01/src/bin/part1.rs:27-38 | the sum adds the value of every line that parses and skips the lines that fail |
| Day01Part2.ToChar | day-01/src/bin/part2.rs:36-48 | every number is drawn as a digit from '1' to '9' |
| Day01Part2.FromChar | day-01/src/bin/part2.rs:86-103 | a character converts exactly when it is '1' to '9'; '0' is rejected |
| Day01Part2.FromCharToChar | day-01/src/bin/part2.rs:36-103 | converting a character and drawing a number are inverse |
| Day01Part2.Word | day-01/src/bin/part2.rs:51-65 | every spelled-out number is three to five letters long |
| Day01Part2.FromWordWord | day-01/src/bin/part2.rs:51-84 | reading a word and spelling a number are inverse |
| Day01Part2.WordLetters | day-01/src/bin/part2.rs:51-65 | no spelled-out number contains a digit |
| Day01Part2.OneWordAt | day-01/src/bin/part2.rs:112-119 | at most one spelled-out number starts at any position of a token |
| Day01Part2.NoOverlap | day-01/src/bin/part2.rs:114 | two occurrences of the same word never overlap, so `match_indices` finds them all |
| Day01Part2.MatchIndices | day-01/src/bin/part2.rs:114 | the matches are increasing positions from the search start at which the word occurs |
| Day01Part2.MatchIndicesAll | day-01/src/bin/part2.rs:114 | for a word that cannot overlap itself, a position is matched exactly when the word occurs there |
| Day01Part2.Tagged | day-01/src/bin/part2.rs:115-118 | each matched position is paired with the number that was searched for |
| Day01Part2.OccurrencesAll | day-01/src/bin/part2.rs:112-120 | a (position, number) pair is collected exactly when the number's word occurs at that position |
| Day01Part2.OccurrencesDistinct | day-01/src/bin/part2.rs:112-120 | no two collected pairs share a position |
| Day01Part2.SortByPosition | day-01/src/bin/part2.rs:122 | the sort keeps the length and exactly the same entries |
| Day01Part2.SortStrict | day-01/src/bin/part2.rs:122 | sorting pairs with distinct positions leaves them strictly increasing by position |
| Day01Part2.StrictlySortedUnique | day-01/src/bin/part2.rs:122 | two lists strictly sorted by position with the same entries are equal, so the stable sort's order is determined |
| Day01Part2.WordAt | day-01/src/bin/part2.rs:112-119 | the word found at a position is one that occurs there, and any word occurring there is the one found |
| Day01Part2.WordsFromAll | day-01/src/bin/part2.rs:111-125 | the left-to-right reading from a position holds exactly the words occurring at or after it |
| Day01Part2.WordsFromSorted | day-01/src/bin/part2.rs:111-125 | the left-to-right reading is strictly increasing by position |
| Day01Part2.SameEntries | day-01/src/bin/part2.rs:111-125 | the sorted matches and the left-to-right reading hold the same entries |
| Day01Part2.MatchesInOrderScan | day-01/src/bin/part2.rs:111-125 | sorting all matches by position reads the token's spelled-out numbers left to right |
| Day01Part2.NumbersFromToken | day-01/src/bin/part2.rs:111-125 | the method returns the token's spelled-out numbers in the order they are written |
| Day01Part2.FirstLastValue | day-01/src/bin/part2.rs:154-164 | a value is found only when there is a number, and it lies between 11 and 99 |
| Day01Part2.WordInRun | day-01/src/bin/part2.rs:141-143 | a word occurs in a run of letters exactly when it occurs at the same place in the line |
| Day01Part2.RunNumbers | day-01/src/bin/part2.rs:130-148 | the words of a token are what the whole line reads over the token's positions |
| Day01Part2.DigitStep | day-01/src/bin/part2.rs:133-140 | at a digit, the token's words and then the digit (none for '0') extend the reading by the token and the digit |
| Day01Part2.LastToken | day-01/src/bin/part2.rs:146-148 | the words of the trailing token complete the reading of the line |
| Day01Part2.FirstAndLast | day-01/src/bin/part2.rs:154-164 | the value is ten times the first number plus the last; none when no number was read |
| Day01Part2.NumberFromStringScan | day-01/src/bin/part2.rs:127-165 | the token scan gives the value of the reference reading, which orders every digit and spelled-out number by position |
| Day01Part2.CalibrationValuesSum | day-01/src/bin/part2.rs:167-178 | the sum adds the value of every line that has one |
| Day01Part2.PlainRange | day-01/src/bin/part2.rs:127-165 | on a line without words the reading is the line's digits |
| Day01Part2.AgreesWithPart1 | day-01/src/bin/part2.rs:127-165 | without spelled-out words and without '0' a line is worth what part 1 gives it |
| Day02Part1.ParseColourName | day-02/src/bin/part1.rs:30-40 | a colour is parsed from its own name and from no other text |
| Day02Part1.SetValidAll | day-02/src/bin/part1.rs:49-64 | a set is valid exactly when every cube in it is within its colour's limit of 12 red, 13 green and 14 blue |
| Day02Part1.PossibleAll | day-02/src/bin/part1.rs:72-76 | a game is possible exactly when every cube of every set fits in the bag |
| Day02Part1.ParseCube | day-02/src/bin/part1.rs:84-107 | a parsed cube's amount fits a `u8`, and a piece with fewer than two tokens is no cube |
| Day02Part1.ParseSetCubes | day-02/src/bin/part1.rs:109-122 | a set holds the cubes of the comma-separated pieces that parse, in order, and fails when there are none |
| Day02Part1.ParseSetNone | day-02/src/bin/part1.rs:109-122 | a set fails to parse exactly when none of its pieces is a cube |
| Day02Part1.ParseSetsList | day-02/src/bin/part1.rs:125-135 | the sets are those of the ';'-separated pieces that parse, in order, and the list fails when there are none |
| Day02Part1.ParseSetsNone | day-02/src/bin/part1.rs:125-135 | the sets fail to parse exactly when no piece is a set |
| Day02Part1.ParseGameId | day-02/src/bin/part1.rs:137-145 | the game id is a `u32` |
| Day02Part1.ParseGame | day-02/src/bin/part1.rs:147-166 | a parsed game's id fits a `u32` |
| Day02Part1.ParseRenderCube | day-02/src/bin/part1.rs:84-107 | the text of a cube with a `u8` amount parses back to the same cube |
| Day02Part1.ParseRenderSet | day-02/src/bin/part1.rs:109-122 | the text of a set of such cubes parses back to the same set |
| Day02Part1.ParseGameIdRendered | day-02/src/bin/part1.rs:137-145 | "Game n" names game n |
| Day02Part1.ParseRenderGame | day-02/src/bin/part1.rs:147-166 | the text of a well-formed game parses back to the same game |
| Day02Part1.GameIdSum | day-02/src/bin/part1.rs:168-174 | the sum adds the ids of the lines that parse as possible games |
| Day02Part1.PossibleId | day-02/src/bin/part1.rs:168-174 | one line adds the id of a possible game and nothing otherwise |
| Day02Part1.LineIdRendered | day-02/src/bin/part1.rs:147-174 | the line of a well-formed game adds its id exactly when the game is possible |
| Day02Part1.IdSumRendered | day-02/src/bin/part1.rs:168-174 | appending a well-formed game's line adds its id exactly when it is possible |
| Day02Part2.OfColourMembers | day-02/src/bin/part2.rs:57-61 | the filter keeps exactly the cubes of one colour |
| Day02Part2.OfColourSplit | day-02/src/bin/part2.rs:57-77 | the three colour filters together keep every cube once |
| Day02Part2.DrawnMembers | day-02/src/bin/part2.rs:57-77 | the flattened filter holds exactly the game's cubes of that colour |
| Day02Part2.Sort | day-02/src/bin/part2.rs:63-79 | the sort returns the cubes in ascending amount |
| Day02Part2.SortPermutes | day-02/src/bin/part2.rs:63-79 | the sorted cubes are a permutation of the cubes |
| Day02Part2.Largest | day-02/src/bin/part2.rs:87-97 | the last sorted cube is none exactly when there is no cube, else one of the cubes |
| Day02Part2.LargestIsMax | day-02/src/bin/part2.rs:87-97 | the last sorted cube has the largest amount |
| Day02Part2.MinimumSetNone | day-02/src/bin/part2.rs:81-83 | there is no minimum set exactly when the game shows no cube at all |
| Day02Part2.MinimumSetColours | day-02/src/bin/part2.rs:85-99 | the minimum set holds at most one cube per colour, red before green before blue |
| Day02Part2.MinimumSetShown | day-02/src/bin/part2.rs:85-99 | each cube of the minimum set is one the game shows |
| Day02Part2.MinimumSetCovers | day-02/src/bin/part2.rs:56-100 | the minimum set holds, for every cube shown, a cube of its colour at least as large |
| Day02Part2.MinimumSetLeast | day-02/src/bin/part2.rs:56-100 | no bag that covers the game holds fewer cubes of a colour than the minimum set |
| Day02Part2.Power | day-02/src/bin/part2.rs:41-46 | the power is the product of the amounts; it is 0 exactly when some amount is 0 |
| Day02Part2.PowerBound | day-02/src/bin/part2.rs:41-46 | at most three `u8` amounts multiply to at most 255³, so the `u32` product cannot overflow |
| Day02Part2.MinimumSetPowerFits | day-02/src/bin/part2.rs:41-100 | a well-formed game has a minimum set and its power fits a `u32` |
| Day02Part2.MinimumPowerSum | day-02/src/bin/part2.rs:193-199 | the sum adds the power of the minimum set of every line that parses |
| Day02Part2.MinimumPower | day-02/src/bin/part2.rs:193-199 | one line adds its minimum set's power, and nothing when it does not parse or shows no cube |
| Day02Part2.LinePowerRendered | day-02/src/bin/part2.rs:172-199 | a well-formed game's line adds the power of its minimum set |
| Day02Part2.PowerSumRendered | day-02/src/bin/part2.rs:193-199 | appending a well-formed game's line adds the power of its minimum set |
| Day02Part1.ParseSet | day-02/src/bin/part1.rs:109-122 | a set that parses holds at least one cube |
| Day02Part1.ParseSets | day-02/src/bin/part1.rs:125-135 | a game's sets, when they parse, are at least one |
| Day02Part1.ParseRenderedSets | day-02/src/bin/part1.rs:109-135 | sets written out as text parse back to the same sets, and no written set holds a ';' or ':' |
| Day02Part2.DrawnNone | day-02/src/bin/part2.rs:57-83 | no cube of any colour is drawn exactly when the game shows no cube at all |
| Day02Part2.InsertPermutes | day-02/src/bin/part2.rs:63-79 | inserting a cube into a sorted list keeps every cube and adds that one |
| Day02Part2.MinimumSet | day-02/src/bin/part2.rs:56-100 | the minimum set, when there is one, has between one and three cubes |
| Day03Part1.RunStart | day-03/src/bin/part1.rs:71-79 | a run of digits extends back to the first column after a non-digit |
| Day03Part1.RowNumbersAreRuns | day-03/src/bin/part1.rs:58-90 | every number a row yields is a maximal run of digits carrying every digit's note |
| Day03Part1.ScanRowState | day-03/src/bin/part1.rs:50-90 | after c characters of a row the scanner has pushed the runs already ended, holds the open run, and remembers the last position's note |
| Day03Part1.ScanRowsState | day-03/src/bin/part1.rs:37-48 | after n rows the scanner has pushed all numbers of earlier rows plus the ended runs of the last row |
| Day03Part1.FinishRow | day-03/src/bin/part1.rs:38-48 | a row start pushes the open number with its last note, completing the previous row's numbers |
| Day03Part1.ScannedCorrectedIsNumbers | day-03/src/bin/part1.rs:37-147 | with the end treated like a row start, the scanner pushes exactly the maximal digit runs with all their notes |
| Day03Part1.ScannedIsNumbers | day-03/src/bin/part1.rs:143-147 | as written, every number is exact except the one open at the end, which lacks its last digit's note |
| Day03Part1.SymbolAmongNear | day-03/src/bin/part1.rs:92-139 | the corrected window finds a symbol iff one is at most one row and one column away |
| Day03Part1.NoteOfAny | day-03/src/bin/part1.rs:41-53 | OR-ing notes makes a number valid iff one of its digits' notes is true |
| Day03Part1.CorrectedValid | day-03/src/bin/part1.rs:121-139 | with the correction a number is a part number iff a symbol touches one of its digits, diagonals included |
| Day03Part1.EnginePartSum | day-03/src/bin/part1.rs:22-156 | the nested scan returns the sum of the numbers marked valid whose digits parse as `u32` |
| Day03Part1.ColumnsSkipRight | day-03/src/bin/part1.rs:103-112 | on the grid "...", "...", "...", ".1*" the sum as written is 0 and the corrected sum is 1 |
| Day03Part1.LastDigitSkipped | day-03/src/bin/part1.rs:143-147 | on the one-row grid "*1" the sum as written is 0 and the corrected sum is 1 |
| Day03Part2.StarIn | day-03/src/bin/part2.rs:129-137 | the inner loop finds a '*' in a row iff one is among the window's columns |
| Day03Part2.GearAmongLowest | day-03/src/bin/part2.rs:124-142 | current_gear is None iff the window has no '*', else the leftmost '*' of the lowest row holding one |
| Day03Part2.NoteOfFirst | day-03/src/bin/part2.rs:42-59 | a number's gear is the gear of its first digit that has one |
| Day03Part2.CorrectedGear | day-03/src/bin/part2.rs:100-142 | with the correction a number has no gear iff no '*' touches any digit; a gear it has touches one |
| Day03Part2.StarsMembers | day-03/src/bin/part2.rs:65-66 | gears lists exactly the '*' positions |
| Day03Part2.AttachedMembers | day-03/src/bin/part2.rs:157-161 | a gear's numbers are exactly the numbers remembering it |
| Day03Part2.RatioNeedsTwo | day-03/src/bin/part2.rs:163-168 | only a gear with exactly two numbers has a ratio |
| Day03Part2.GearRatioSum | day-03/src/bin/part2.rs:22-174 | the answer adds, over every '*' in reading order, the product of its two numbers when exactly two numbers remember it |
| Day03Part2.ScanGears | day-03/src/bin/part2.rs:38-150 | the loop yields the numbers, each with the first gear seen next to it, and every '*' position in reading order |
| Day03Part2.GearRatio | day-03/src/bin/part2.rs:156-168 | a gear's ratio is the product of its two numbers, and 0 when it has another number of them |
| Day03Part2.Gather | day-03/src/bin/part2.rs:157-161 | the filter keeps, in order, the numbers that remember that gear |
| Day03Part1.RowThreeNotes | day-03/src/bin/part1.rs:103-112 | on the grid with a '*' right of the digit in the last row, the window as written misses the '*' and the corrected one finds it |
| Day03Part2.WindowNear | day-03/src/bin/part2.rs:100-120 | the corrected window holds exactly the positions next to the tile, diagonals included |
| Day03Part2.LastDigitGearSkipped | day-03/src/bin/part2.rs:146-150 | on the one-row grid "1*1" the ratio sum as written is 0 and the corrected one is 1 |
| Day04Part1.ParseNumbers | day-04/src/bin/part1.rs:59-67 | a side keeps only tokens that parse as `u8`, so it has no more numbers than words and each is at most 255 |
| Day04Part1.ParseCard | day-04/src/bin/part1.rs:35-74 | a parsed card needs a ':' and an id within the integer width; both sides hold only `u8` values |
| Day04Part1.IdOf | day-04/src/bin/part1.rs:42-52 | the id, when there is one, fits the id's integer width |
| Day04Part1.ParseCardNoBar | day-04/src/bin/part1.rs:54-57 | a line without a '|' after its ':' is not a card |
| Day04Part1.SideNumbers | day-04/src/bin/part1.rs:59-67 | a side written as space-separated decimals parses back to exactly those numbers |
| Day04Part1.ParseCardSteps | day-04/src/bin/part1.rs:38-73 | once the ':' split, the id and the '|' split succeed, the card is the id with the two parsed sides |
| Day04Part1.IdOfRendered | day-04/src/bin/part1.rs:42-52 | "Card <id>" yields the id back |
| Day04Part1.ParseRenderCard | day-04/src/bin/part1.rs:35-74 | parsing a card written in the puzzle's layout gives that card back |
| Day04Part1.MatchCount | day-04/src/bin/part1.rs:15-19 | the match count is at most the owned numbers, zero exactly when no owned number wins and all of them exactly when every owned number wins |
| Day04Part1.MatchCountAppend | day-04/src/bin/part1.rs:15-19 | the matches of a split owned side add up |
| Day04Part1.CountMatching | day-04/src/bin/part1.rs:15-19 | the counting loop yields the number of owned numbers found among the winning ones |
| Day04Part1.PointsDouble | day-04/src/bin/part1.rs:21-25 | no match is worth nothing, one match one point, and each further match doubles the value |
| Day04Part1.PointsFit | day-04/src/bin/part1.rs:22 | the `u32` power fits exactly when a card has at most 32 matches |
| Day04Part1.CardValue | day-04/src/bin/part1.rs:14-26 | a line's value is its card's points, or nothing when it does not parse, and fits a `u32` |
| Day04Part1.CardValueSum | day-04/src/bin/part1.rs:76-81 | the answer is the sum of the line values over the lines that parse |
| Day04Part1.LineValueRendered | day-04/src/bin/part1.rs:76-81 | a card in the puzzle's layout contributes the points of its matches |
| Day04Part2.Won | day-04/src/bin/part2.rs:77-81 | a line wins copies only when it parses as a card |
| Day04Part2.Copies | day-04/src/bin/part2.rs:83-87 | the copies are the existing lines at positions id .. id + matches - 1, in order, cut short only by the end of the input |
| Day04Part2.CopiesSnoc | day-04/src/bin/part2.rs:83-87 | one more match adds the next line when it exists |
| Day04Part2.RoundSnoc | day-04/src/bin/part2.rs:74-88 | a round's copies are those of the earlier lines followed by those of the next line |
| Day04Part2.NumberedForward | day-04/src/bin/part2.rs:83-87 | when every card's id is its 1-based position, each card copies only later lines |
| Day04Part2.CopiesAfter | day-04/src/bin/part2.rs:83-87 | the copies a line at position p wins all sit after p |
| Day04Part2.RoundFrom | day-04/src/bin/part2.rs:74-88 | a round produced from lines at positions at least `floor` only holds lines after `floor` |
| Day04Part2.TotalCards | day-04/src/bin/part2.rs:69-95 | the total is at least the number of lines processed |
| Day04Part2.SumCardsAppend | day-04/src/bin/part2.rs:69-95 | the cards a list of lines amounts to add up over a split of the list |
| Day04Part2.RangeIsSum | day-04/src/bin/part2.rs:69-95 | a block of positions amounts to the cards of the lines there |
| Day04Part2.CopiesCards | day-04/src/bin/part2.rs:83-92 | the cards a line amounts to are itself plus those its copies amount to |
| Day04Part2.RoundCards | day-04/src/bin/part2.rs:74-92 | the cards a list of lines amounts to are the lines themselves plus those of the round of copies they win |
| Day04Part2.TotalCardsStep | day-04/src/bin/part2.rs:72-94 | one call counts its lines and recurses on the round of copies, which lies strictly later in the input |
| Day04Part2.TotalIsSum | day-04/src/bin/part2.rs:69-95 | the recursion counts exactly the cards its lines amount to, whatever the number of rounds |
| Day04Part2.TotalIsInstances | day-04/src/bin/part2.rs:69-95 | the answer for the whole input is the sum over positions of the cards each amounts to |
| Day04Part2.Wins | day-04/src/bin/part2.rs:77-81 | the loop body finds the id and match count of a line |
| Day04Part2.PushCopies | day-04/src/bin/part2.rs:83-87 | the inner loop appends exactly the copies that exist |
| Day04Part2.CountTotalCards | day-04/src/bin/part2.rs:69-95 | the method's total is the recursive count |
| Day05Part2.Get | day-05/src/bin/part2.rs:11-17 | a map matches a value from its source start up to and including source start + range |
| Day05Part2.Lookup | day-05/src/bin/part2.rs:11-17 | the almanac's meaning of a map: exactly `range` values match, the bound source start + range excluded |
| Day05Part2.GetLookup | day-05/src/bin/part2.rs:12-13 | the written `get` agrees with the almanac's lookup everywhere except at source start + range, where only `get` matches |
| Day05Part2.ParseLine | day-05/src/bin/part2.rs:26-43 | a line is a map exactly when at least three of its words parse as `u64` |
| Day05Part2.FilterMapNatAppend | day-05/src/bin/part2.rs:29-32 | the numbers of two space-joined parts are those of each part, in order |
| Day05Part2.ParseRenderLine | day-05/src/bin/part2.rs:29-42 | a map written as three numbers parses back to itself, whatever follows it |
| Day05Part2.Pairs | day-05/src/bin/part2.rs:51-59 | the seed numbers are paired as (start, length) in order, one pair per two numbers |
| Day05Part2.Blocks | day-05/src/bin/part2.rs:47 | splitting at blank lines always gives at least one block |
| Day05Part2.Stages | day-05/src/bin/part2.rs:63-129 | the maps come in exactly seven blocks, in almanac order |
| Day05Part2.HitsMembers | day-05/src/bin/part2.rs:151-155 | one map's results are exactly the values it takes some input to |
| Day05Part2.MatchesMembers | day-05/src/bin/part2.rs:151-155 | a block's results are exactly the values some map takes some input to |
| Day05Part2.StageMembers | day-05/src/bin/part2.rs:151-159 | a stage yields x exactly when some map takes some input to x, or when nothing matched and x was an input |
| Day05Part2.PipelineNonEmpty | day-05/src/bin/part2.rs:140-223 | seven stages given some value always yield some value |
| Day05Part2.MatchesNone | day-05/src/bin/part2.rs:151-155 | with the bound excluded, a value no map covers matches nothing |
| Day05Part2.StageSingle | day-05/src/bin/part2.rs:151-159 | with non-overlapping maps and the bound excluded, a stage takes one value to exactly its almanac lookup |
| Day05Part2.PipelineSingle | day-05/src/bin/part2.rs:137-224 | with non-overlapping maps and the bound excluded, a seed ends in exactly one location, the almanac's |
| Day05Part2.Range | day-05/src/bin/part2.rs:136 | `start..start + length` holds length consecutive values from start |
| Day05Part2.ExpandMembers | day-05/src/bin/part2.rs:133-136 | the seeds are exactly the values inside some pair's range |
| Day05Part2.LocationsNonEmpty | day-05/src/bin/part2.rs:133-233 | there is some location exactly when there is some seed, so `first().unwrap()` succeeds exactly then |
| Day05Part2.LocationsThrough | day-05/src/bin/part2.rs:133-229 | with non-overlapping maps and the bound excluded, the locations are the seeds carried through the blocks one for one |
| Day05Part2.FindLowestLocation | day-05/src/bin/part2.rs:46-234 | the answer is one of the locations and no location is lower |
| Day05Part2.CollectLocations | day-05/src/bin/part2.rs:133-229 | the outer loop collects the locations of every seed of every pair in order |
| Day05Part2.CollectRange | day-05/src/bin/part2.rs:136-225 | the inner loop appends the locations of the seeds of one pair |
| Day05Part2.LocationsSnoc | day-05/src/bin/part2.rs:137-225 | one more seed appends exactly its own locations |
| Day05Part2.Lowest | day-05/src/bin/part2.rs:231-233 | sorting and taking the first yields a location no other location is below |
| Day05Part2.EmptyStages | day-05/src/bin/part2.rs:145-147 | blocks without maps pass every value through unchanged |
| Day05Part2.UpperBoundIncluded | day-05/src/bin/part2.rs:12 | seed 100 through a map covering 98..99 lands on 52 as written but stays 100 as meant |
| Day06Part1.MulIsProduct | day-06/src/bin/part1.rs:72 | the checked product used for `usize` multiplication is the product |
| Day06Part1.MulCommutes | day-06/src/bin/part1.rs:72 | the order of the factors does not change the product |
| Day06Part1.Search | day-06/src/bin/part1.rs:9-29 | the search always returns a hold from the slice it is given |
| Day06Part1.SearchPrefix | day-06/src/bin/part1.rs:9-29 | when the holds that do not beat the record come first, the search returns the last of them, or the first hold when there are none |
| Day06Part1.Holds | day-06/src/bin/part1.rs:57 | `(1..time)` lists the holds 1 to time - 1 in order |
| Day06Part1.DistanceRises | day-06/src/bin/part1.rs:24 | the distance grows as the hold moves towards the middle of the race |
| Day06Part1.DistanceStep | day-06/src/bin/part1.rs:24 | holding one unit longer below the middle adds time - 2·hold - 1 to the distance |
| Day06Part1.DistanceSymmetric | day-06/src/bin/part1.rs:24 | holding x or time - x travels the same distance |
| Day06Part1.DistancePeak | day-06/src/bin/part1.rs:24 | holding half the time travels furthest |
| Day06Part1.LastLosing | day-06/src/bin/part1.rs:56-57 | the last hold at or below x that does not beat the record, with every hold after it up to x winning |
| Day06Part1.WinsBand | day-06/src/bin/part1.rs:55-68 | in a race whose record can be beaten, a hold wins exactly when it lies strictly between the last losing hold of the first half and its mirror |
| Day06Part1.WinsLowHalf | day-06/src/bin/part1.rs:55-68 | in the first half of the race a hold wins exactly when it is after the last losing one |
| Day06Part1.WinsCount | day-06/src/bin/part1.rs:61-63 | the winning holds number (time + 1) - 2 - 2·(last losing hold), the count the code's comment derives |
| Day06Part1.SearchFindsLow | day-06/src/bin/part1.rs:56-57 | over 1..time the search returns the last losing hold, or 1 when every hold from 1 wins |
| Day06Part1.WaysCorrectedCounts | day-06/src/bin/part1.rs:61-68 | the corrected count is the number of holds that beat the record |
| Day06Part1.WaysCounts | day-06/src/bin/part1.rs:55-68 | whenever holding 1 loses, the count as written is the number of holds that beat the record |
| Day06Part1.FirstHoldWins | day-06/src/bin/part1.rs:56-63 | a 7 ms race against a record of 0 counts 4 ways as written although 6 holds win |
| Day06Part1.PowerCounts | day-06/src/bin/part1.rs:52-72 | when holding 1 loses every race, the answer is the product of the numbers of winning holds |
| Day06Part1.BinarySearch | day-06/src/bin/part1.rs:9-29 | the loop returns what the recursive halving returns |
| Day06Part1.Travel | day-06/src/bin/part1.rs:24 | the distance travelled for a hold |
| Day06Part1.RaceWays | day-06/src/bin/part1.rs:55-69 | one race's count as the source computes it |
| Day06Part1.PowerWaysToWinRaces | day-06/src/bin/part1.rs:31-73 | the answer for the whole input, 0 without a second line or with unequal numbers of times and distances |
| Day06Part1.ProductOfRaces | day-06/src/bin/part1.rs:52-72 | the product of every race's count |
| Day06Part2.KernedDigits | day-06/src/bin/part2.rs:37-50 | digits spread over a line, with anything else between them, read as one number |
| Day06Part2.PowerCounts | day-06/src/bin/part2.rs:31-64 | when holding 1 loses, the answer is the number of holds that beat the record of the one race |
| Day06Part2.PowerWaysToWinRace | day-06/src/bin/part2.rs:31-64 | the answer for the whole input, 0 when a line is missing or does not read as a number |
| CamelCards.MaxType | day-07/src/bin/part2.rs:268-270 | the stronger of two hand types is one of them and at least as strong as both |
| CamelCards.CountOf | day-07/src/bin/part1.rs:177-180 | a value's count is at most the hand's size |
| CamelCards.Counts | day-07/src/bin/part1.rs:120-181 | the table has one entry per card value, each the number of cards of that value |
| CamelCards.CountOfMultiset | day-07/src/bin/part1.rs:177-180 | a value's count is its multiplicity in the hand |
| CamelCards.NaturalTypePermutation | day-07/src/bin/part1.rs:119-223 | the hand type depends only on which cards a hand holds, not on their order |
| CamelCards.TotalBump | day-07/src/bin/part1.rs:177-180 | one more card adds one to the table's total |
| CamelCards.TotalIsSize | day-07/src/bin/part1.rs:176-181 | every card is counted under exactly one value, so the table sums to the hand's size |
| CamelCards.TotalByTally | day-07/src/bin/part1.rs:183-196 | the table's total is the sum of k times the number of values seen k times |
| CamelCards.Classification | day-07/src/bin/part1.rs:183-222 | the counts of a five-card hand form a partition of 5 and the hand type names it: 5, 4+1, 3+2, 3+1+1, 2+2+1, 2+1+1+1 or 1+1+1+1+1 |
| CamelCards.PartitionsOfFive | day-07/src/bin/part1.rs:198-222 | every partition of 5 gets the one hand type that names it |
| CamelCards.LexLessCons | day-07/src/bin/part1.rs:69-84 | card order is decided at the first differing card |
| CamelCards.CompareCardsSpec | day-07/src/bin/part1.rs:69-86 | the card loop answers Equal exactly for equal cards and Less exactly when the cards are lexicographically smaller |
| CamelCards.CmpSpec | day-07/src/bin/part1.rs:67-90 | a hand is smaller when its type is weaker or the types agree and its cards are lexicographically smaller; equal exactly when type and cards agree; swapping the hands reverses the answer |
| CamelCards.LexLessTransitive | day-07/src/bin/part1.rs:69-84 | the card order is transitive |
| CamelCards.CmpTransitive | day-07/src/bin/part1.rs:67-90 | the hand order is transitive, so sorting by it is well defined |
| CamelCards.Insert | day-07/src/bin/part1.rs:265 | inserting a hand adds exactly that hand |
| CamelCards.Sort | day-07/src/bin/part1.rs:265 | sorting keeps exactly the hands it is given |
| CamelCards.InsertSorted | day-07/src/bin/part1.rs:265 | inserting into a sorted list keeps it sorted |
| CamelCards.SortSorted | day-07/src/bin/part1.rs:265 | the sorted hands ascend under the hand order |
| CamelCards.TiesAppend | day-07/src/bin/part1.rs:265 | the hands tied with a key in a joined list are those of each part in order |
| CamelCards.InsertTies | day-07/src/bin/part1.rs:265 | inserting a hand puts it after every hand it ties with |
| CamelCards.SortStable | day-07/src/bin/part1.rs:265 | the sort is stable: hands that compare Equal, whatever their bids, keep their input order |
| CamelCards.WeightedSnoc | day-07/src/bin/part1.rs:271-275 | one more hand adds its bid times its rank |
| CamelCards.Winnings | day-07/src/bin/part1.rs:269-277 | the loop sums each bid times its 1-based rank in the sorted list |
| CamelCards.SortedUnique | day-07/src/bin/part1.rs:265 | two sorted lists of the same hands, no two tied, are the same list |
| CamelCards.SortedHeads | day-07/src/bin/part1.rs:265 | the first of a sorted list without ties is its unique least hand |
| CamelCards.SortOrderIndependent | day-07/src/bin/part1.rs:260-277 | when no two hands tie, the sorted list and so the winnings do not depend on the order of the input lines |
| Day07Part1.FromCharTable | day-07/src/bin/part1.rs:5-40 | exactly the thirteen card characters are cards, and the i-th of them, weakest first, has rank i |
| Day07Part1.Ranks | day-07/src/bin/part1.rs:5-20 | each card is replaced by its place in the value order |
| Day07Part1.ParseCards | day-07/src/bin/part1.rs:232-237 | every character of the hand string becomes its card, in order |
| Day07Part1.ParseHand | day-07/src/bin/part1.rs:225-258 | a parsed hand has five cards, a `u32` bid and the type of its cards; a line is rejected exactly when it has no space, the hand is not five cards long or the bid is not a `u32` |
| Day07Part1.CardChar | day-07/src/bin/part1.rs:23-40 | every rank has a character that parses to it |
| Day07Part1.ParseRender | day-07/src/bin/part1.rs:225-258 | a hand written as its cards, a space and its bid parses back to itself |
| Day07Part1.ParseHands | day-07/src/bin/part1.rs:261 | the parsed hands are well formed and no more than the lines |
| Day07Part1.CalculateWinnings | day-07/src/bin/part1.rs:260-278 | the answer weights each bid by its rank among the sorted parsed hands |
| Day07Part2.FromCharTable | day-07/src/bin/part2.rs:5-40 | exactly the thirteen card characters are cards; the Joker is weakest and the other values keep their order |
| Day07Part2.Ranks | day-07/src/bin/part2.rs:5-20 | each card is replaced by its place in the value order, Joker first |
| Day07Part2.OverridingAgrees | day-07/src/bin/part2.rs:219-243 | the overriding assignments classify every hand exactly as part 1's early returns do |
| Day07Part2.JokerCount | day-07/src/bin/part2.rs:245-248 | no Joker is counted exactly when the hand holds none |
| Day07Part2.ReplaceJokers | day-07/src/bin/part2.rs:255-264 | every Joker, and only a Joker, becomes the chosen value |
| Day07Part2.JokerFree | day-07/src/bin/part2.rs:245-249 | a hand without Jokers gets its natural type; the recursion stops after one level |
| Day07Part2.BestSubstituteIsMax | day-07/src/bin/part2.rs:250-275 | the substitution loop, early stop included, yields the strongest of the types it tries |
| Day07Part2.GetHandTypeIsMax | day-07/src/bin/part2.rs:140-279 | a hand's type is the strongest of its natural type and the natural types of all twelve substitutions of its Jokers, so it is never weaker than the natural type |
| Day07Part2.ParseCards | day-07/src/bin/part2.rs:288-293 | every character of the hand string becomes its card, in order |
| Day07Part2.ParseHand | day-07/src/bin/part2.rs:281-314 | a line is rejected exactly when it has no space, the hand is not five cards long or the bid is not a `u32`; a parsed hand carries the Joker-aware type |
| Day07Part2.ParseHands | day-07/src/bin/part2.rs:317 | the parsed hands are well formed and no more than the lines |
| Day07Part2.CalculateWinnings | day-07/src/bin/part2.rs:316-334 | the answer weights each bid by its rank among the sorted parsed hands, Jokers weakest in tie-breaks |
| Day08Part1.FromChar | day-08/src/bin/part1.rs:10-16 | 'L' is Left, 'R' is Right, and nothing else is an instruction |
| Day08Part1.InstructionsOf | day-08/src/bin/part1.rs:67-71 | the first line yields one instruction per 'L' or 'R' it holds |
| Day08Part1.InstructionsRoundTrip | day-08/src/bin/part1.rs:67-71 | instructions written as letters read back unchanged, whatever other characters precede them |
| Day08Part1.Strip | day-08/src/bin/part1.rs:41 | the stripped text holds no parenthesis and no comma |
| Day08Part1.StripAppend | day-08/src/bin/part1.rs:41 | stripping distributes over joining |
| Day08Part1.StripFree | day-08/src/bin/part1.rs:41 | text without parentheses or commas is left alone |
| Day08Part1.ParseNode | day-08/src/bin/part1.rs:32-52 | a node needs an '=' and a space in the stripped edges; its name is the trimmed text before the '=' |
| Day08Part1.TrimAfter | day-08/src/bin/part1.rs:39 | trimming a name followed by a space gives the name back |
| Day08Part1.TrimBefore | day-08/src/bin/part1.rs:41 | trimming a space before text without edge whitespace gives the text back |
| Day08Part1.StripEdges | day-08/src/bin/part1.rs:41 | "(l, r)" loses exactly its punctuation, leaving "l r" |
| Day08Part1.RenderSplits | day-08/src/bin/part1.rs:35 | the first '=' of a node line follows its name |
| Day08Part1.ParseNodeParts | day-08/src/bin/part1.rs:35-51 | once both splits succeed the node is the trimmed name with the two edges |
| Day08Part1.EdgesSplit | day-08/src/bin/part1.rs:41-45 | the trimmed, stripped edges split at their first space into the left and right edge |
| Day08Part1.ParseRenderNode | day-08/src/bin/part1.rs:32-52 | "NAME = (LEFT, RIGHT)" parses back to its node |
| Day08Part1.Nodes | day-08/src/bin/part1.rs:57-63 | the nodes are no more than the lines |
| Day08Part1.Position | day-08/src/bin/part1.rs:76-77 | a found position holds a node with the name |
| Day08Part1.PositionFirst | day-08/src/bin/part1.rs:93-96 | the position is the first node with the name, and none is found only when no node has it |
| Day08Part1.Move | day-08/src/bin/part1.rs:87-96 | a move lands on an existing node |
| Day08Part1.Walk | day-08/src/bin/part1.rs:79-98 | move k follows instruction k modulo their count, since the instruction list restarts after its last entry |
| Day08Part1.WalkLost | day-08/src/bin/part1.rs:93-96 | a walk that lost its way stays lost |
| Day08Part1.WalkPrevious | day-08/src/bin/part1.rs:79-98 | a walk of n + 1 moves extends the walk of n moves by the next instruction |
| Day08Part1.WalkOn | day-08/src/bin/part1.rs:79-98 | a walk that will arrive within a bound but has not yet can make one more move |
| Day08Part1.ComputePathSteps | day-08/src/bin/part1.rs:54-101 | the answer is the least number of moves that brings AAA to ZZZ, and it fits a `u32` |
| Day08Part1.PathSteps | day-08/src/bin/part1.rs:75-100 | the loop stops at the first move count that stands on the final node |
| Day08Part1.ExampleSteps | day-08/src/bin/part1.rs:118-129 | the three-node example under LLR needs six moves and no fewer |
| Day08Part2.TimesIsProduct | day-08/src/bin/part2.rs:69 | the recursive product used by the lcm is the product |
| Day08Part2.Remainder | day-08/src/bin/part2.rs:69 | the remainder is below the divisor |
| Day08Part2.Division | day-08/src/bin/part2.rs:69 | quotient and remainder recompose the dividend |
| Day08Part2.Gcd | day-08/src/bin/part2.rs:69 | the gcd of two numbers, not both zero, is positive |
| Day08Part2.GcdDivides | day-08/src/bin/part2.rs:69 | the gcd divides both arguments |
| Day08Part2.Bezout | day-08/src/bin/part2.rs:69 | the gcd is an integer combination of the two arguments |
| Day08Part2.LcmMultiple | day-08/src/bin/part2.rs:69 | the lcm is a multiple of both arguments |
| Day08Part2.LcmLeast | day-08/src/bin/part2.rs:69 | the lcm divides every common multiple |
| Day08Part2.LcmOfMultiple | day-08/src/bin/part2.rs:64-70 | the lcm of a list is a multiple of each of its elements |
| Day08Part2.LcmOfLeast | day-08/src/bin/part2.rs:64-70 | the lcm of a list divides every common multiple of its elements |
| Day08Part2.LcmOfLeastMultiple | day-08/src/bin/part2.rs:64-70 | `calculate_lcm` yields the least common multiple of its list |
| Day08Part2.LeastMultipleSameElements | day-08/src/bin/part2.rs:115-117 | being the least common multiple depends only on which lengths occur, not how often |
| Day08Part2.FitsBelow | day-08/src/bin/part2.rs:64-70 | when a positive `usize` is a multiple of every length, no lcm the recursion computes overflows |
| Day08Part2.Starts | day-08/src/bin/part2.rs:95-99 | the walkers start on exactly the nodes whose name ends in 'A', in order |
| Day08Part2.FirstEnd | day-08/src/bin/part2.rs:107-151 | the move count at which a walker first stands on a node ending in 'Z' |
| Day08Part2.WalkSome | day-08/src/bin/part2.rs:141-144 | up to its first ending a walker never loses its way |
| Day08Part2.Alive | day-08/src/bin/part2.rs:123-149 | the current nodes after n rounds are those of the walkers not yet ended, in walker order |
| Day08Part2.LastEnd | day-08/src/bin/part2.rs:107-121 | the last first ending bounds every walker's first ending |
| Day08Part2.AllEndedLast | day-08/src/bin/part2.rs:119-121 | all walkers have ended by round n exactly when the last first ending is at most n |
| Day08Part2.EndingOf | day-08/src/bin/part2.rs:109-113 | the ending nodes are exactly the current nodes whose name ends in 'Z' |
| Day08Part2.EndingOfAll | day-08/src/bin/part2.rs:119-121 | the filter keeps every current node exactly when all of them end in 'Z', the loop's stopping test |
| Day08Part2.Retain | day-08/src/bin/part2.rs:123-127 | retained nodes are existing nodes |
| Day08Part2.RetainUnfinished | day-08/src/bin/part2.rs:123-127 | dropping every node named like an ending node drops exactly the ending nodes |
| Day08Part2.Advance | day-08/src/bin/part2.rs:133-149 | every current node moves to one existing node |
| Day08Part2.EndingAlive | day-08/src/bin/part2.rs:109-117 | the nodes ending in 'Z' in round n are those of the walkers whose first ending is n |
| Day08Part2.AllEndingAlive | day-08/src/bin/part2.rs:119-121 | every current node of round n ends in 'Z' exactly when no walker's first ending comes later |
| Day08Part2.AdvanceAlive | day-08/src/bin/part2.rs:123-149 | retaining and then moving the nodes of round n gives the nodes of round n + 1, and no lookup fails |
| Day08Part2.RecordedMembers | day-08/src/bin/part2.rs:115-117 | a length is recorded in the first n rounds exactly when some walker first ends at it, below n |
| Day08Part2.RecordedFirstEnds | day-08/src/bin/part2.rs:107-151 | the recorded lengths are exactly the walkers' first endings |
| Day08Part2.Round | day-08/src/bin/part2.rs:108-149 | one round records the walkers ending now, stops exactly when none ends later, and otherwise moves on to the next round's nodes |
| Day08Part2.Step | day-08/src/bin/part2.rs:109-149 | one pass of the inner loop as the source performs it |
| Day08Part2.RecordLengths | day-08/src/bin/part2.rs:93-151 | the rounds record every walker's first ending and stop after the last |
| Day08Part2.AnswerFits | day-08/src/bin/part2.rs:153 | some length is recorded and no lcm on the way overflows a `usize` |
| Day08Part2.FirstEnds | day-08/src/bin/part2.rs:107-151 | one first ending per walker |
| Day08Part2.WalkersSteps | day-08/src/bin/part2.rs:93-153 | the answer is the least common multiple of the walkers' first endings and fits a `usize` |
| Day08Part2.ComputePathSteps | day-08/src/bin/part2.rs:72-154 | the answer is the least positive move count that is a multiple of every walker's first ending |
| Day08Part2.RecordedAreFirstEnds | day-08/src/bin/part2.rs:107-151 | once the last walker has first ended, the recorded lengths are exactly the walkers' first ending steps |
| Day09Part2.Differences | day-09/src/bin/part2.rs:9-21 | a row of n > 0 values has n - 1 differences, and an empty row none |
| Day09Part2.DifferencesAt | day-09/src/bin/part2.rs:14-16 | each difference is the step from one value to the next |
| Day09Part2.DifferencesTelescope | day-09/src/bin/part2.rs:9-21 | the differences lose only the first value: summing a prefix of them rebuilds the row |
| Day09Part2.DifferencesOfZero | day-09/src/bin/part2.rs:31-34 | the differences of an all-zero row are all zero |
| Day09Part2.Depth | day-09/src/bin/part2.rs:31-34 | a row reaches all zeros after fewer rounds than it has values |
| Day09Part2.PreviousExtends | day-09/src/bin/part2.rs:36-42 | the extrapolated value extends the row without raising its degree: with it in front, the row is all zero after as many rounds of differencing |
| Day09Part2.PreviousUnique | day-09/src/bin/part2.rs:36-42 | no other value in front keeps the row's degree |
| Day09Part2.ExtrapolateNextValue | day-09/src/bin/part2.rs:23-47 | the difference rows walked back up yield the one value before the first that keeps the row's degree |
| Day09Part2.PreviousSampleFirst | day-09/src/bin/part2.rs:90-95 | 0 3 6 9 12 15 extrapolates back to -3 |
| Day09Part2.PreviousSampleSecond | day-09/src/bin/part2.rs:97-101 | 1 3 6 10 15 21 extrapolates back to 0 |
| Day09Part2.PreviousSampleThird | day-09/src/bin/part2.rs:103-107 | 10 13 16 21 30 45 extrapolates back to 5 |
| Day09Part2.SumExtrapolatedValues | day-09/src/bin/part2.rs:57-61 | the answer sums, over the lines, the value extrapolated before each history |
| Day10Part1.Opposite | day-10/src/bin/part1.rs:12-19 | the side across a tile differs from the side and lies on the same axis |
| Day10Part1.OppositeInvolution | day-10/src/bin/part1.rs:12-19 | crossing a tile twice faces the original side again |
| Day10Part1.FromChar | day-10/src/bin/part1.rs:35-46 | the seven named characters give their tile and every other character is ground |
| Day10Part1.FromCharGlyph | day-10/src/bin/part1.rs:35-46 | every tile read from its own character is that tile |
| Day10Part1.NextOpenings | day-10/src/bin/part1.rs:48-98 | a pipe entered through one of its openings is left through the other, and entered any other way it leads nowhere |
| Day10Part1.InitialDirection | day-10/src/bin/part1.rs:100-106 | the walk enters a pipe-shaped start through one of its openings |
| Day10Part1.StartShape | day-10/src/bin/part1.rs:130-187 | the start gets a pipe shape whose both openings face neighbours that open back, and one exists exactly when two sides are pointed at |
| Day10Part1.StartShapeFirst | day-10/src/bin/part1.rs:136-186 | the chosen shape is the first that fits in the order the source tries them, and none is chosen when none fits |
| Day10Part1.Get | day-10/src/bin/part1.rs:273-275 | a tile is found exactly at positions inside the grid |
| Day10Part1.Move | day-10/src/bin/part1.rs:299-304 | a move always changes the position |
| Day10Part1.MoveApart | day-10/src/bin/part1.rs:299-304 | moves in two different directions end on different tiles |
| Day10Part1.TwoOpenings | day-10/src/bin/part1.rs:48-62 | no tile opens on three different sides |
| Day10Part1.Parse | day-10/src/bin/part1.rs:192-210 | the grid has one row per line and one tile per character |
| Day10Part1.LastStartIn | day-10/src/bin/part1.rs:198-203 | the column found holds a start tile and no start tile follows it in the row |
| Day10Part1.FindStart | day-10/src/bin/part1.rs:190-214 | the remembered start holds a start tile and is the last one in reading order, since each one met overwrites the last |
| Day10Part1.Neighbour | day-10/src/bin/part1.rs:220-246 | a neighbour the source looks up is the tile one step from the start on that side |
| Day10Part1.Prepare | day-10/src/bin/part1.rs:189-258 | the walk is set up exactly when a start exists and two of its sides are pointed at; the start then holds its pipe shape and every other tile its character's |
| Day10Part1.Trace | day-10/src/bin/part1.rs:260-307 | a finished walk extends the walk so far, ends back at the start without meeting it in between, each tile opens towards both of its neighbours on the walk, and the walk never turns straight back |
| Day10Part1.HalfLoopSize | day-10/src/bin/part1.rs:189-312 | the answer is 0 without a start, without a shape for it or when the walk breaks, and otherwise half the steps of the closed walk |
| Day10Part1.LoopVisitsOnce | day-10/src/bin/part1.rs:260-307 | the closed walk visits every tile at most once before it returns to the start |
| Day10Part1.WalkColours | day-10/src/bin/part1.rs:299-304 | along a walk of linked tiles the chessboard colour flips at every step |
| Day10Part1.HalfLoopIsHalfTheLoop | day-10/src/bin/part1.rs:114-122 | the closed walk starts and ends at the start, takes an even number of steps, and the answer is exactly half of them, the distance to the farthest tile |
| Day10Part2.CanContainTilesBelow | day-10/src/bin/part2.rs:108-110 | a tile flips the inside flag exactly when it opens south |
| Day10Part2.ScanRow | day-10/src/bin/part2.rs:302-316 | the scan of a row counts the tiles off the loop with an odd number of south-opening loop tiles to their left |
| Day10Part2.ScanRows | day-10/src/bin/part2.rs:299-319 | the scan counts every row's enclosed tiles |
| Day10Part2.CountTilesContainedWithinLoop | day-10/src/bin/part2.rs:179-320 | the answer is 0 when the loop cannot be set up or breaks, and otherwise the tiles the row scans find enclosed |
| Day10Part2.EnclosedHasCrossing | day-10/src/bin/part2.rs:307-315 | a tile is counted only if some south-opening loop tile lies to its left in its row |
| Day10Part2.MoveRow | day-10/src/bin/part2.rs:289-294 | only a step south adds one to the row and only a step north takes one away |
| Day10Part2.Telescope | day-10/src/bin/part2.rs:254-297 | a walk along linked tiles crosses the line below a row upward as often as downward, up to where it ends relative to where it began |
| Day10Part2.LoopLength | day-10/src/bin/part2.rs:254-297 | a closed walk holds at least the start, two tiles and the start again |
| Day10Part2.SouthStep | day-10/src/bin/part2.rs:307-310 | a loop tile opens south exactly when the walk reaches it from below or leaves it downward, and never both |
| Day10Part2.SouthsSplit | day-10/src/bin/part2.rs:307-310 | the south-opening tiles of a row are the walk's downward plus upward crossings of the line below it |
| Day10Part2.HitsOnce | day-10/src/bin/part2.rs:307 | before the walk returns to the start each tile occurs at most once |
| Day10Part2.CrossingsAreSouths | day-10/src/bin/part2.rs:307-310 | the flips left of a column are the walk's south-opening tiles there |
| Day10Part2.CrossingsEven | day-10/src/bin/part2.rs:301-317 | on a loop that closes through the start's shape every row holds an even number of flips |
| Day10Part2.CrossingsSides | day-10/src/bin/part2.rs:304-316 | the flips up to a column and those after it make up the row's flips |
| Day10Part2.EnclosedFromEitherSide | day-10/src/bin/part2.rs:301-317 | a tile counted from the left has an odd number of flips to its right too, so the scan does not depend on the side it starts from |
| Day11Part1.GalaxyColumnsSound | day-11/src/bin/part1.rs:23 | the columns found are exactly the line's '#' positions, in increasing order |
| Day11Part1.GalaxyColumnsEmpty | day-11/src/bin/part1.rs:23-30 | a line yields no column exactly when it has no '#', which makes it an empty row |
| Day11Part1.RowGalaxies | day-11/src/bin/part1.rs:32-34 | one galaxy per column found, at that row |
| Day11Part1.SkySound | day-11/src/bin/part1.rs:20-35 | every drawn galaxy stands on a '#' of the image |
| Day11Part1.SkyNext | day-11/src/bin/part1.rs:20-35 | one more line adds its galaxies after the others |
| Day11Part1.SkyComplete | day-11/src/bin/part1.rs:20-35 | every '#' of the image is a galaxy |
| Day11Part1.OccupiedAt | day-11/src/bin/part1.rs:44 | a column is occupied exactly when some galaxy stands in it |
| Day11Part1.ExpandAll | day-11/src/bin/part1.rs:41-60 | expansion keeps every galaxy, in order |
| Day11Part1.ExpandNothing | day-11/src/bin/part1.rs:41-60 | with nothing added per gap, no galaxy moves |
| Day11Part1.ExpandDistance | day-11/src/bin/part1.rs:64-88 | expanding stretches two galaxies' distance by `extra` per empty row or column between them |
| Day11Part1.ExpandPairSum | day-11/src/bin/part1.rs:64-88 | the expanded pair sum is the drawn one plus `extra` for every gap between every pair |
| Day11Part1.RowShifted | day-11/src/bin/part1.rs:20-35 | the row loop moves every galaxy and only moves it down |
| Day11Part1.ColumnShifted | day-11/src/bin/part1.rs:41-60 | the column loop moves every galaxy and only moves it right |
| Day11Part1.ScanRows | day-11/src/bin/part1.rs:14-35 | the row loop pushes the drawn galaxies moved down by the empty rows above them |
| Day11Part1.PushRow | day-11/src/bin/part1.rs:32-34 | a row's galaxies are pushed left to right after the others |
| Day11Part1.RowStep | day-11/src/bin/part1.rs:20-35 | one more line pushes its galaxies at its row moved down by the empty rows above it, and an empty line is one more gap |
| Day11Part1.ColumnAt | day-11/src/bin/part1.rs:41-44 | where the loop checks column n exactly the galaxies drawn in column n stand, and those drawn right of it stand right of it |
| Day11Part1.ColumnNext | day-11/src/bin/part1.rs:43-59 | checking column n moves a galaxy by `extra` exactly when it lies right of an empty column n |
| Day11Part1.ColumnOccupied | day-11/src/bin/part1.rs:44 | a checked column is occupied exactly when some galaxy was drawn there |
| Day11Part1.MoveRight | day-11/src/bin/part1.rs:49-58 | moving galaxies right keeps every galaxy |
| Day11Part1.PassEmptyColumn | day-11/src/bin/part1.rs:44-59 | past an empty column the galaxies right of where it now stands move right |
| Day11Part1.PassOccupiedColumn | day-11/src/bin/part1.rs:44 | past an occupied column nothing moves |
| Day11Part1.ExpandColumns | day-11/src/bin/part1.rs:39-60 | the column loop moves each galaxy right by `extra` per empty column left of it |
| Day11Part1.RowShiftedColumns | day-11/src/bin/part1.rs:20-60 | shifting rows leaves columns, and so the empty columns, as they were |
| Day11Part1.BothShifts | day-11/src/bin/part1.rs:14-60 | the two loops together expand every galaxy by its empty rows above and empty columns to its left |
| Day11Part1.SumExpandedPairDistances | day-11/src/bin/part1.rs:9-89 | the answer is 0 without a newline, else the pairwise Manhattan distances of the expanded galaxies summed |
| Day11Part1.PairDistancesLinear | day-11/src/bin/part1.rs:9-89 | the answer is the unexpanded pair sum plus `extra` times the gaps between all pairs |
| Day11Part1.PairGapsFixed | day-11/src/bin/part1.rs:9-89 | how much the answer grows per unit of expansion does not depend on the expansion |
| Day11Part1.SumGalaxyPairDistances | day-11/src/bin/part1.rs:9-89 | every empty row and column counts twice: the unexpanded pair sum plus the gaps between all pairs |
| Day11Part2.SumGalaxyPairDistances | day-11/src/bin/part2.rs:9-91 | each empty row and column counts as `expansion_rate` of them: the unexpanded pair sum plus rate - 1 times a gap count independent of the rate |
| Day12Part1.Candidate | day-12/src/bin/part1.rs:47-51 | the candidate prefix is n operational springs, a run of the group's damaged ones and one operational spring |
| Day12Part1.CandidateAt | day-12/src/bin/part1.rs:47-51 | the candidate prefix is damaged exactly at positions n to n + g - 1 |
| Day12Part1.Difference | day-12/src/bin/part1.rs:53-57 | the difference is zero exactly when every known spring of the line agrees with the candidate prefix where both exist |
| Day12Part1.RunLength | day-12/src/bin/part1.rs:25-66 | the leading run of damaged springs is maximal |
| Day12Part1.Choices | day-12/src/bin/part1.rs:56 | every entry of the line stands for at least one spring |
| Day12Part1.FillingsSpec | day-12/src/bin/part1.rs:56 | the resolutions listed are exactly the ways to replace each '?' by a spring |
| Day12Part1.RunsDots | day-12/src/bin/part1.rs:47-51 | operational springs in front change no run |
| Day12Part1.RunsBlock | day-12/src/bin/part1.rs:47-51 | a block of g damaged springs closed by an operational one or the end is one run of g |
| Day12Part1.RunsNone | day-12/src/bin/part1.rs:25-27 | without runs a resolved line is all operational |
| Day12Part1.RunsPositive | day-12/src/bin/part1.rs:47-51 | every run holds at least one damaged spring |
| Day12Part1.RunsBound | day-12/src/bin/part1.rs:33-36 | the runs and the springs separating them fit in the line |
| Day12Part1.PlacementFits | day-12/src/bin/part1.rs:33-46 | wherever the loop tries the first run, the run and the springs before it fit in the line |
| Day12Part1.RunsPlaced | day-12/src/bin/part1.rs:47-64 | a resolution starting with the candidate prefix has the group as its first run, followed by the runs of what comes after |
| Day12Part1.Decompose | day-12/src/bin/part1.rs:46-66 | a resolution whose first run is g starts with some candidate prefix and continues with a resolution of the rest |
| Day12Part1.SolutionsCount | day-12/src/bin/part1.rs:16-71 | the count `arrange` returns is the length of the list of resolutions it builds |
| Day12Part1.PlaceFills | day-12/src/bin/part1.rs:59-64 | an agreeing candidate prefix followed by a resolution of the rest resolves the line |
| Day12Part1.Sound | day-12/src/bin/part1.rs:16-71 | every counted resolution resolves the line and has the listed runs |
| Day12Part1.FillsAgree | day-12/src/bin/part1.rs:53-59 | a resolution agrees with the prefix it starts with, so the loop keeps that placement |
| Day12Part1.SlackCovers | day-12/src/bin/part1.rs:33-46 | the loop tries every position a resolution can put the first run at |
| Day12Part1.CompleteNone | day-12/src/bin/part1.rs:25-27 | without runs the all-operational resolution is counted when nothing is damaged |
| Day12Part1.Complete | day-12/src/bin/part1.rs:16-71 | every resolution of the line with the listed runs is counted |
| Day12Part1.DistinctSolutions | day-12/src/bin/part1.rs:46-66 | no resolution is counted twice |
| Day12Part1.DistinctCard | day-12/src/bin/part1.rs:16-71 | a list without repetitions has as many members as entries |
| Day12Part1.ArrangeCounts | day-12/src/bin/part1.rs:16-71 | `arrange` counts exactly the resolutions of the line whose runs of damaged springs are the listed ones |
| Day12Part1.Debug | day-12/src/bin/part1.rs:19 | the runs' debug rendering starts with '[' |
| Day12Part1.Key | day-12/src/bin/part1.rs:19 | the key is the line followed by a '[' and the runs |
| Day12Part1.DebugChars | day-12/src/bin/part1.rs:19 | the runs' debug rendering holds only brackets, commas, spaces and digits, has '[' only first and ends with ']' |
| Day12Part1.EnteredRest | day-12/src/bin/part1.rs:59-64 | the recursive call's line is again a tail of the original line, entered after an operational or unknown spring or empty after a spring |
| Day12Part1.EnteredTail | day-12/src/bin/part1.rs:59-64 | the tail of a reached line that starts just after an operational or unknown spring is reached in the same way |
| Day12Part1.EnteredPastEnd | day-12/src/bin/part1.rs:60-62 | when a candidate runs past the end of a reached line that ends with a spring, the empty line it leaves is reached in the same way |
| Day12Part1.BeforeRepeat | day-12/src/bin/part1.rs:19-23 | a line followed by a non-empty text `d` that also ends with the line has a character of `d` just before that ending, which is how a lookup key would have to look to be an inserted key |
| Day12Part1.EnteredKeyBefore | day-12/src/bin/part1.rs:19-23 | when the original line ends with a reached line and also with that line followed by a rendering of runs, the character before the reached line and the last character of the original line both come from the rendering |
| Day12Part1.NoHit | day-12/src/bin/part1.rs:19-23 | a lookup key never equals an inserted key, since the character before a reached line is a spring and a debug rendering holds none |
| Day12Part1.ArrangeCached | day-12/src/bin/part1.rs:16-71 | for every line the cache never hits, since lookups use the key but inserts use the line, so the count is the uncached one and every inserted key stays a reached line |
| Day12Part1.PlaceRun | day-12/src/bin/part1.rs:46-66 | one pass of the placement loop adds the arrangements that put the first run at that position, keeping every inserted key a reached line |
| Day12Part1.PossibleArrangements | day-12/src/bin/part1.rs:73-88 | a line without a space has no arrangement |
| Day12Part1.PossibleArrangementsCached | day-12/src/bin/part1.rs:73-88 | with a fresh cache the count is the uncached count of the springs against the runs |
| Day12Part1.SumPossibleArrangements | day-12/src/bin/part1.rs:90-92 | the answer sums the lines' counts |
| Day12Part1.Decimals | day-12/src/bin/part1.rs:80-83 | each run is written as its decimal |
| Day12Part1.ParseDecimals | day-12/src/bin/part1.rs:80-83 | runs written as decimals parse back to themselves |
| Day12Part1.RecordParts | day-12/src/bin/part1.rs:76-83 | a record written as springs, a space and comma-separated runs splits back into them |
| Day12Part1.RecordArrangements | day-12/src/bin/part1.rs:73-88 | a written record counts as the arrangements of its springs with its runs |
| Day12Part2.DebugInjective | day-12/src/bin/part2.rs:21 | the runs' debug rendering loses nothing |
| Day12Part2.KeyInjective | day-12/src/bin/part2.rs:21 | a key names one line and one list of runs, whatever characters the line holds |
| Day12Part2.StoreKeepsConsistent | day-12/src/bin/part2.rs:41-70 | storing the correct count under its key keeps every cached entry correct |
| Day12Part2.ArrangeMemo | day-12/src/bin/part2.rs:18-73 | with a correct cache the memoised count is the uncached one and the cache stays correct |
| Day12Part2.Copies | day-12/src/bin/part2.rs:91-99 | n copies of one value |
| Day12Part2.Repeated | day-12/src/bin/part2.rs:98 | the runs five times over are five times as many |
| Day12Part2.UnfoldSpringsLayout | day-12/src/bin/part2.rs:91-97 | the unfolded springs are five copies with a '?' between each two |
| Day12Part2.UnfoldKeepsSprings | day-12/src/bin/part2.rs:91-97 | unfolding keeps a line of springs a line of springs |
| Day12Part2.RepeatedAt | day-12/src/bin/part2.rs:98 | copy k of the runs starts at k times their number |
| Day12Part2.RepeatedSum | day-12/src/bin/part2.rs:98 | repeating the runs multiplies their total and keeps them positive |
| Day12Part2.Unfold | day-12/src/bin/part2.rs:82-99 | the loop builds the unfolded springs and runs |
| Day12Part2.PossibleArrangements | day-12/src/bin/part2.rs:75-104 | a line without a space has no arrangement |
| Day12Part2.PossibleArrangementsMemo | day-12/src/bin/part2.rs:75-104 | on every line the memoised count is the count of the unfolded record |
| Day12Part2.RecordArrangementsUnfolded | day-12/src/bin/part2.rs:75-104 | a written record counts as the arrangements of its unfolded springs with its unfolded runs |
| Day12Part2.SumPossibleArrangements | day-12/src/bin/part2.rs:106-108 | the answer sums the lines' counts, the parallel sum taken in order |
| Day13Part1.CodeBound | day-13/src/bin/part1.rs:97 | a line's binary code is below 2 to the power of its length |
| Day13Part1.CodeInjective | day-13/src/bin/part1.rs:97 | lines of ash and rocks of one length have the same code exactly when they are the same line |
| Day13Part1.ColumnTexts | day-13/src/bin/part1.rs:105-119 | one column string per character of the first line, none when that line is empty |
| Day13Part1.DrawnParses | day-13/src/bin/part1.rs:97 | on a line of ash and rocks the parsed value is the binary reading, and the parse succeeds exactly when that fits a `u32` |
| Day13Part1.Values | day-13/src/bin/part1.rs:94-99 | one value per line, each the number `from_str_radix` reads after an optional '+', in order |
| Day13Part1.Parse | day-13/src/bin/part1.rs:84-128 | on every pattern whose rows and column strings `u32::from_str_radix(_, 2)` accepts (an optional '+', then '0', '1', '.' or '#' digits), one value per row and one per column of the first line, each fitting a `u32` |
| Day13Part1.ParseFaithful | day-13/src/bin/part1.rs:84-128 | on a rectangular pattern of ash and rocks the column strings are the transposed rows, and two rows or two columns share a code exactly when they are the same string |
| Day13Part1.Candidates | day-13/src/bin/part1.rs:16-23 | the candidate mirrors are ends of adjacent pairs, in increasing order |
| Day13Part1.CandidatesExact | day-13/src/bin/part1.rs:16-23 | exactly the adjacent equal pairs are candidates |
| Day13Part1.MirrorScore | day-13/src/bin/part1.rs:27-44 | a candidate scores the number of rows before it when every mirrored pair that exists is equal, and 0 otherwise |
| Day13Part1.CandidatesScore | day-13/src/bin/part1.rs:16-46 | scoring only the candidates loses nothing, since a mirror whose innermost pair differs does not reflect |
| Day13Part1.SideScore | day-13/src/bin/part1.rs:16-46 | one side's total is the sum over all mirror positions of the rows before each perfect reflection |
| Day13Part1.SummariseGrid | day-13/src/bin/part1.rs:15-81 | a pattern's summary is its column reflections plus 100 times its row reflections |
| Day13Part1.Summarise | day-13/src/bin/part1.rs:130-136 | the answer adds the summaries of the blank-line-separated patterns |
| Day13Part2.Parse | day-13/src/bin/part2.rs:169-210 | on every pattern with a first line, even an empty one, the rows are the pattern's lines and there is one column string per character of the first line |
| Day13Part2.ParseTransposes | day-13/src/bin/part2.rs:187-203 | on a rectangular pattern the column strings are the transposed rows |
| Day13Part2.DifferencesZero | day-13/src/bin/part2.rs:46-50 | strings of one length without differences are equal, and a difference makes them unequal |
| Day13Part2.SingleDifference | day-13/src/bin/part2.rs:54-63 | a single difference sits at the position `find` reports and nowhere else |
| Day13Part2.SmudgeScore | day-13/src/bin/part2.rs:38-86 | as written, a mirror scores when every mirrored pair is equal or one character apart and all one-character differences sit at one position; the flag says a smudge was seen |
| Day13Part2.Candidates | day-13/src/bin/part2.rs:17-31 | the candidate mirrors are ends of adjacent pairs, in increasing order |
| Day13Part2.CandidatesExact | day-13/src/bin/part2.rs:17-31 | exactly the adjacent pairs that are equal or one character apart are candidates |
| Day13Part2.CandidatesScore | day-13/src/bin/part2.rs:17-88 | scoring only the candidates loses nothing, since a mirror whose innermost pair is not close does not survive |
| Day13Part2.SideScore | day-13/src/bin/part2.rs:17-88 | one side's total adds the scores of the mirrors that survive with a smudge |
| Day13Part2.SummariseGrid | day-13/src/bin/part2.rs:16-166 | a pattern's summary is its column mirrors plus 100 times its row mirrors |
| Day13Part2.Summarise | day-13/src/bin/part2.rs:212-217 | the answer adds the summaries of the blank-line-separated patterns |
| Day13Part2.SmudgeScoreCorrected | day-13/src/bin/part2.rs:38-86 | with the intended rule a mirror scores exactly when at most one mirrored pair differs, by one character |
| Day13Part2.CorrectedExactlyOne | day-13/src/bin/part2.rs:85-87 | a mirror that scores with a smudge under the intended rule has exactly one pair one character apart and all others equal |
| Day13Part2.TwoSmudgesSameColumn | day-13/src/bin/part2.rs:65-78 | rows "#", "#", ".", "." reflect after the second row with two smudges in one column: as written it scores 2, under the intended rule nothing |
| Day14Part1.RollSection | day-14/src/bin/part1.rs:40-50 | a section between two '#'s keeps its length and its number of round rocks, and holds nothing but 'O' and '.' once rolled |
| Day14Part1.RollSectionIdempotent | day-14/src/bin/part1.rs:40-50 | rolling a section that has already rolled changes nothing |
| Day14Part1.RollSectionShape | day-14/src/bin/part1.rs:40-50 | after rolling, the rocks fill exactly the first (north or west) or last (south or east) cells of the section, as many as there were |
| Day14Part1.RollAll | day-14/src/bin/part1.rs:34-51 | each section split off at the '#'s is rolled on its own, in order |
| Day14Part1.JoinLike | day-14/src/bin/part1.rs:52 | re-joining sections of the same lengths and rock counts with '#' gives a line of the same length, the same '#' cells and the same rock count |
| Day14Part1.JoinSettled | day-14/src/bin/part1.rs:52 | a line re-joined from rolled sections holds only 'O', '.' and '#' |
| Day14Part1.TiltLineSpec | day-14/src/bin/part1.rs:29-53 | tilting one line keeps its length, every cube rock in place and the number of round rocks; each section between cube rocks is that section rolled; tilting twice is tilting once |
| Day14Part1.TiltColumns | day-14/src/bin/part1.rs:9-70 | a north or south tilt keeps the grid's height and width |
| Day14Part1.TiltRows | day-14/src/bin/part2.rs:76-113 | a west or east tilt tilts every row on its own |
| Day14Part1.TiltColumnsSpec | day-14/src/bin/part1.rs:9-70 | a north or south tilt keeps every cube rock in its cell and makes each column the tilt of the original column |
| Day14Part1.TiltColumnsIdempotent | day-14/src/bin/part1.rs:9-70 | tilting north (or south) a grid already tilted that way changes nothing |
| Day14Part1.TiltRowsIdempotent | day-14/src/bin/part2.rs:76-113 | tilting west (or east) a grid already tilted that way changes nothing |
| Day14Part1.Push | day-14/src/bin/part1.rs:56-64 | zipping rows with a column keeps as many rows as the shorter of the two |
| Day14Part1.RebuildColumns | day-14/src/bin/part1.rs:56-64 | pushing columns onto rows appends to row `i` the `i`-th character of each column, in column order |
| Day14Part1.RebuildTransposes | day-14/src/bin/part1.rs:29-64 | starting from one empty row per line, pushing the columns transposes them back into rows |
| Day14Part1.TiltedColumns | day-14/src/bin/part1.rs:16-53 | one tilted column per character of the first line, each as long as the grid is high |
| Day14Part1.RebuildTilted | day-14/src/bin/part1.rs:16-64 | the rows rebuilt from the tilted columns are the column-wise tilt of the grid |
| Day14Part1.TiltIsTiltColumns | day-14/src/bin/part1.rs:9-70 | `tilt` on the puzzle text computes the column-wise tilt of its grid |
| Day14Part1.LoadByColumns | day-14/src/bin/part1.rs:72-82 | the load summed row by row (rocks in a row times the rows from it to the south edge) equals the load summed column by column |
| Day14Part1.RowLoad | day-14/src/bin/part1.rs:75-81 | on a one-row grid the column loads add up to the number of rocks in that row |
| Day14Part1.ColumnStep | day-14/src/bin/part1.rs:75-81 | a column's load is the top cell's share (the grid height when it holds a rock) plus the load of the column below it |
| Day14Part1.LoadStep | day-14/src/bin/part1.rs:75-81 | the column loads of a grid are those of the grid without its top row plus that row's rocks times the grid height |
| Day14Part1.ComputeLoadByColumns | day-14/src/bin/part1.rs:72-82 | part 1's answer is the sum over columns of the load of the north tilt, and each column of that tilt is the original column tilted on its own |
| Day14Part2.CleanText | day-14/src/bin/part2.rs:228-234 | a grid free of line breaks, joined with line feeds, is valid puzzle text whose lines are the grid again |
| Day14Part2.ColumnsSettled | day-14/src/bin/part2.rs:13-176 | after a north or south tilt every row holds only 'O', '.' and '#' |
| Day14Part2.RowsSettled | day-14/src/bin/part2.rs:76-215 | a west or east tilt keeps the grid rectangular with the same width, and every row then holds only 'O', '.' and '#' |
| Day14Part2.SpinGrid | day-14/src/bin/part2.rs:228-234 | a spin cycle (north, west, south, east) keeps the grid's size and leaves it free of line breaks |
| Day14Part2.Spin | day-14/src/bin/part2.rs:228-234 | the loop's spin, which re-joins the text before each tilt, is the grid-level spin cycle |
| Day14Part2.Step | day-14/src/bin/part2.rs:227-246 | a loop step keeps a clean grid clean |
| Day14Part2.StepClean | day-14/src/bin/part2.rs:227-246 | a loop step always yields a clean grid |
| Day14Part2.IterateAdd | day-14/src/bin/part2.rs:227-246 | `a + b` steps are `a` steps followed by `b` more |
| Day14Part2.Periodic | day-14/src/bin/part2.rs:236-241 | once the grid after `m` steps recurs after `m + p`, every later grid recurs every `p` steps |
| Day14Part2.GridTextClean | day-14/src/bin/part2.rs:220-223 | the grid read from valid puzzle text is clean |
| Day14Part2.JoinInjective | day-14/src/bin/part2.rs:218-245 | two clean grids with the same text are the same grid, so the text is a sound cache key |
| Day14Part2.CycleFound | day-14/src/bin/part2.rs:236-241 | when the grid after `n + 1` steps repeats the one after `m + 1` and `n − m` divides the cycles still to go, the grid after `n` steps is the grid after all cycles |
| Day14Part2.SkipCycles | day-14/src/bin/part2.rs:217-246 | the cached loop, stopping early at a repeat whose distance divides the rest, returns the state after exactly the requested number of steps |
| Day14Part2.ComputeLoad | day-14/src/bin/part2.rs:217-255 | part 2's answer is the north load of the grid after 1 000 000 000 spin cycles |
| Day14Part2.LinesFrom | day-14/src/bin/part2.rs:220-223 | a line of text without carriage returns has none either |
| Day15Part1.HashStep | day-15/src/bin/part1.rs:14 | one character folded into the running value leaves it below 256 |
| Day15Part1.HashFrom | day-15/src/bin/part1.rs:12-14 | the fold over a non-empty string, or from a value below 256, ends below 256 |
| Day15Part1.Hash | day-15/src/bin/part1.rs:9-15 | the HASH of a string is below 256, and that of the empty string is 0 |
| Day15Part1.HashFromAppend | day-15/src/bin/part1.rs:12-14 | hashing a concatenation continues from the value the first part reached |
| Day15Part1.HashSnoc | day-15/src/bin/part1.rs:12-14 | one more character is one more fold step on the hash so far |
| Day15Part1.Steps | day-15/src/bin/part1.rs:20 | the text without line feeds splits at commas into at least one step, none holding a comma or a line feed |
| Day15Part1.SumOfHashes | day-15/src/bin/part1.rs:20 | the sum of the step hashes is at most 255 per step |
| Day15Part1.SumOfHashesAppend | day-15/src/bin/part1.rs:20 | the sum over two lists of steps is the sum of their sums |
| Day15Part1.SumHashesAppend | day-15/src/bin/part1.rs:17-21 | two texts joined by a comma sum to the sum of their own hash sums |
| Day15Part1.SumHashesSingle | day-15/src/bin/part1.rs:17-21 | a text of a single step sums to that step's hash |
| Day15Part1.HashChars | day-15/src/bin/part1.rs:12-14 | the hash of a three- or four-character step is the fold over its characters one at a time |
| Day15Part1.HashSamples | day-15/src/bin/part1.rs:47-66 | "rn=1" hashes to 30, "cm-" to 253 and "qp=3" to 97 |
| Day15Part1.HashSamplesRest | day-15/src/bin/part1.rs:38-45 | the remaining eight steps of the worked example hash to 47, 14, 180, 9, 197, 48, 214 and 231 |
| Day15Part1.SumHashesJoined | day-15/src/bin/part1.rs:17-21 | steps free of commas and line feeds, joined with commas, sum to the sum of their own hashes |
| Day15Part1.SumHashesSample | day-15/src/bin/part1.rs:38-45 | the eleven steps of the worked example have hashes summing to 1320 |
| Day15Part2.ParseLens | day-15/src/bin/part2.rs:22-51 | a step with '=' is a replacement, else one with '-' a removal, else nothing; the label is the text before the first such separator; a replacement's focal length is its digits read as a `u8` when they fit, a removal has none |
| Day15Part2.ParseReplacement | day-15/src/bin/part2.rs:22-51 | a replacement written as a digit-free label, '=' and a `u8` focal length parses back to that lens |
| Day15Part2.ParseRemoval | day-15/src/bin/part2.rs:22-51 | a removal written as a separator-free label and '-' parses back to that lens |
| Day15Part2.ParseLenses | day-15/src/bin/part2.rs:65-70 | parsing the steps drops the unparsable ones, so yields at most one lens per step |
| Day15Part2.Position | day-15/src/bin/part2.rs:80-92 | the slot found is the first holding a lens with that label, and none is found exactly when no lens has it |
| Day15Part2.Without | day-15/src/bin/part2.rs:78-97 | the box without the label holds no lens with that label |
| Day15Part2.WithoutAppend | day-15/src/bin/part2.rs:78-97 | dropping a label from two boxes in a row drops it from each |
| Day15Part2.WithoutAbsent | day-15/src/bin/part2.rs:89-96 | dropping an absent label changes nothing |
| Day15Part2.WithoutSlot | day-15/src/bin/part2.rs:94 | when the lens at a slot is the only one with its label, dropping the label removes exactly that slot |
| Day15Part2.RemoveSlot | day-15/src/bin/part2.rs:94 | removing a slot keeps labels unique |
| Day15Part2.ReplaceSlot | day-15/src/bin/part2.rs:84 | overwriting the slot of a lens with the same label keeps labels unique and the rest of the box unchanged |
| Day15Part2.AppendNew | day-15/src/bin/part2.rs:86 | pushing a lens whose label is absent keeps labels unique and the rest of the box unchanged |
| Day15Part2.ApplySpec | day-15/src/bin/part2.rs:78-97 | on a box with unique labels an operation keeps them unique; a removal leaves exactly the box without the label; a replacement keeps the other lenses in order and puts the new lens in the old one's slot, or at the end when there was none |
| Day15Part2.WithoutAbsentAfter | day-15/src/bin/part2.rs:94 | with unique labels, removing a lens's slot leaves no lens with its label |
| Day15Part2.FillUnique | day-15/src/bin/part2.rs:75-98 | replaying any steps into an empty box gives a box with unique labels |
| Day15Part2.InBox | day-15/src/bin/part2.rs:77 | the steps kept for box `n` are exactly those whose label hashes to `n` |
| Day15Part2.EmptyBoxes | day-15/src/bin/part2.rs:74-75 | there are 256 boxes and all start empty |
| Day15Part2.Boxes | day-15/src/bin/part2.rs:74-98 | applying every step to its own box gives 256 boxes |
| Day15Part2.BoxesByFilter | day-15/src/bin/part2.rs:74-98 | replaying each box's filtered steps on their own gives the same box as applying all steps in turn to their boxes |
| Day15Part2.BoxesSpec | day-15/src/bin/part2.rs:74-98 | in every box labels are unique and every lens sits in the box its label hashes to |
| Day15Part2.FillHashed | day-15/src/bin/part2.rs:77-98 | replaying steps that all hash to `n` leaves only lenses whose labels hash to `n` |
| Day15Part2.InBoxStep | day-15/src/bin/part2.rs:77 | one more step joins box `n`'s steps exactly when its label hashes to `n` |
| Day15Part2.FillSnoc | day-15/src/bin/part2.rs:77-98 | replaying one more step applies it to the box reached so far |
| Day15Part2.FillStep | day-15/src/bin/part2.rs:77-98 | one more step either goes to box `n` and is applied there, or leaves box `n` alone |
| Day15Part2.FocusingPowerNext | day-15/src/bin/part2.rs:74-109 | the power of one more box adds that box's power |
| Day15Part2.FillBox | day-15/src/bin/part2.rs:75-98 | the inner loop builds box `n` as it stands after every step has been applied to its box |
| Day15Part2.SumBox | day-15/src/bin/part2.rs:102-108 | a box's power is, summed over its slots, the box number plus one times the slot number times the focal length |
| Day15Part2.CalculateFocusingPower | day-15/src/bin/part2.rs:62-112 | the answer is the focusing power of the 256 boxes obtained by applying every step, in input order, to the box its label hashes to |
| Day16Part1.NewDirections | day-16/src/bin/part1.rs:19-57 | a beam goes on in one or two directions, never straight back; '.' and other tiles keep its direction; a mirror turns it a quarter turn; a splitter met side-on sends it both ways along the splitter, and met end-on lets it pass |
| Day16Part1.MirrorReversible | day-16/src/bin/part1.rs:27-38 | a mirror's turn can be walked backwards: if it turns `d` into `e`, it turns the reverse of `e` into the reverse of `d` |
| Day16Part1.Longest | day-16/src/bin/part1.rs:152 | no row of the grid is longer than the longest one |
| Day16Part1.StraightSpec | day-16/src/bin/part1.rs:84-131 | the straight run from a start energises exactly the tiles between the start and where it stops, all in the grid; every tile but the last lets the beam pass; it stops at the edge (or where the next cell is missing) with its direction unchanged, or on a tile that turns or splits it, with that tile's new directions |
| Day16Part1.UnseenShrinks | day-16/src/bin/part1.rs:69-73 | recording a new start leaves fewer starts that can still be traced, which is why the recursion ends |
| Day16Part1.UnseenMonotone | day-16/src/bin/part1.rs:69-73 | recording more starts never leaves more to trace |
| Day16Part1.RunEndInUniverse | day-16/src/bin/part1.rs:122-141 | where a run stops is in the grid or is its start, so the recursive traces start from positions the measure counts |
| Day16Part1.Trace | day-16/src/bin/part1.rs:59-147 | tracing keeps every start already recorded and records its own |
| Day16Part1.TraceAll | day-16/src/bin/part1.rs:133-142 | the loop over new directions keeps what was recorded and records the run's end in each of those directions |
| Day16Part1.LitUnion | day-16/src/bin/part1.rs:135 | the tiles lit by two sets of starts are the union of what each lights |
| Day16Part1.LitSingle | day-16/src/bin/part1.rs:75-131 | a single start lights the tiles of its straight run |
| Day16Part1.TraceCovers | day-16/src/bin/part1.rs:59-147 | a trace energises exactly the tiles of the starts it newly records; each of those starts has every successor recorded, and each is the trace's own start or a successor of another newly recorded one |
| Day16Part1.CoverStep | day-16/src/bin/part1.rs:73-141 | one new start's run tiles, together with what tracing its successors energised, are the tiles of all the starts newly recorded, which are closed and grow from that start |
| Day16Part1.TraceAllCovers | day-16/src/bin/part1.rs:133-142 | the same for the loop over the run's new directions, whose roots are the run's end in each direction |
| Day16Part1.TraceInGrid | day-16/src/bin/part1.rs:59-147 | a trace started on a grid tile energises grid tiles only |
| Day16Part1.TraceAllInGrid | day-16/src/bin/part1.rs:133-142 | the traces from a grid tile in several directions energise grid tiles only |
| Day16Part1.CountEnergisedTiles | day-16/src/bin/part1.rs:149-179 | the count is the number of tiles lit by the starts the first trace records, plus the top-left tile; those starts include the first one, hand every successor on to a recorded start and all grow from the first one |
| Day16Part1.CorrectedStart | day-16/src/bin/part1.rs:156-176 | starting from the top-left tile in the directions its own character gives energises only grid tiles, and agrees with the code as written whenever that tile lets the beam pass east |
| Day16Part1.OneBackslash | day-16/src/bin/part1.rs:159-167 | on a one-tile grid holding a backslash the code as written counts 2 tiles, one of them off the grid; the corrected start counts 1 |
| Day17Part2.NoUnderscore | day-17/src/bin/part2.rs:40-48 | a number written in decimal holds no underscore, so it cannot blur the fields of a cache key |
| Day17Part2.PeelField | day-17/src/bin/part2.rs:40-48 | two keys that agree agree on the field before their first underscore and on the rest |
| Day17Part2.JoinedFields | day-17/src/bin/part2.rs:40-48 | three underscore-free fields and a last one, joined with underscores, determine each other |
| Day17Part2.CacheKeyInjective | day-17/src/bin/part2.rs:40-158 | two steps share a cache key exactly when they agree on position, direction and run length, so the string-keyed visited set is a set of those triples |
| Day17Part2.Moves | day-17/src/bin/part2.rs:94-117 | three candidate moves, straight on first |
| Day17Part2.MovesExact | day-17/src/bin/part2.rs:94-117 | the candidate moves are every direction except straight back |
| Day17Part2.Admitted | day-17/src/bin/part2.rs:119-151 | the successors are exactly the candidate moves the filters admit, each turned into its step |
| Day17Part2.SuccessorRules | day-17/src/bin/part2.rs:94-151 | a step follows the current one exactly when it moves one cell, in any direction but back, onto the grid; goes straight only below `max_steps` and turns only from `min_steps` on; adds the entered cell's digit to the heat loss; and counts its run from 1 after a turn |
| Day17Part2.PathOnGrid | day-17/src/bin/part2.rs:119-126 | every step of a route lies on the grid |
| Day17Part2.PathLoss | day-17/src/bin/part2.rs:140-145 | a step's heat loss is the sum of the digits of the cells entered on any route to it |
| Day17Part2.KeysOfWithin | day-17/src/bin/part2.rs:153-158 | the keys of steps on the grid are among all possible keys |
| Day17Part2.Enqueue | day-17/src/bin/part2.rs:153-158 | afterwards every candidate's key is visited; the steps pushed are candidates whose keys were not visited before, and their keys are exactly what was added |
| Day17Part2.KeyInKeys | day-17/src/bin/part2.rs:153-158 | a step on the grid with a run of at most `max_steps` has one of the finitely many possible keys |
| Day17Part2.SuccessorsBounded | day-17/src/bin/part2.rs:128-151 | from a step on the grid whose run is at most `max_steps`, every successor is on the grid with a run of at most `max_steps` |
| Day17Part2.PushCost | day-17/src/bin/part2.rs:153-158 | every step pushed uses up one key that was not yet visited, so the search ends |
| Day17Part2.MinIndex | day-17/src/bin/part2.rs:82 | the step popped has the least heat loss in the queue |
| Day17Part2.Extend | day-17/src/bin/part2.rs:119-158 | a route to a step that is not the goal extends to each of its successors |
| Day17Part2.TrackedPop | day-17/src/bin/part2.rs:81-92 | popping a step keeps the search's invariant, and the step popped is on the grid with a route that obeys the rules |
| Day17Part2.TrackedPush | day-17/src/bin/part2.rs:119-158 | pushing the unvisited successors keeps the invariant, every pushed step reached by extending the current route, and consumes one unvisited key per step |
| Day17Part2.SuccessorKeys | day-17/src/bin/part2.rs:119-151 | two steps with the same position, direction and run have successors with the same keys; the heat loss only shifts theirs |
| Day17Part2.KeysOfAppend | day-17/src/bin/part2.rs:153-158 | the keys of two queues joined are the keys of each |
| Day17Part2.ExpandSpends | day-17/src/bin/part2.rs:94-158 | after a step that is not the goal is expanded, the key of every successor its key allows is visited |
| Day17Part2.ClosedStep | day-17/src/bin/part2.rs:81-158 | popping a step, spending its key and pushing more keeps every visited key either queued or spent |
| Day17Part2.RouteVisited | day-17/src/bin/part2.rs:71-160 | once the queue is empty, the key of every step of every route from the start is visited |
| Day17Part2.Unreachable | day-17/src/bin/part2.rs:160-162 | when the queue runs empty no route reaches the goal with a run of at least `min_steps`, so the final 0 means there is none |
| Day17Part2.Expand | day-17/src/bin/part2.rs:82-159 | one round either accepts a goal step whose heat loss is that of a valid route, or keeps the search's invariants while using up a unit of work |
| Day17Part2.LeastHeatLoss | day-17/src/bin/part2.rs:51-163 | a non-zero answer is the heat loss of a route that starts east or south from the top-left block, obeys the run rules and reaches the bottom-right block after a run of at least `min_steps`; when any such route exists, the answer is the heat loss of one |
| Day17Part2.SingleCharParse | day-17/src/bin/part2.rs:170 | a one-character string parses as a number exactly when the character is a digit, and then to that digit's value |
| Day17Part2.ComputePath | day-17/src/bin/part2.rs:165-180 | with runs of 4 to 10 blocks, a non-zero answer is the heat loss of a route that obeys those rules and stops at the goal after at least 4 blocks in a line; when such a route exists, the answer is the heat loss of one |
| Day18Part1.Apply | day-18/src/bin/part1.rs:14-33 | a move shifts the digger `count` metres along its direction's axis (up and right positive) and keeps the other coordinate |
| Day18Part1.ApplyOpposite | day-18/src/bin/part1.rs:14-33 | the same count in the opposite direction takes the digger back where it was |
| Day18Part1.ApplyDistance | day-18/src/bin/part1.rs:14-33 | a move covers exactly the absolute value of its count in grid distance |
| Day18Part1.FromStr | day-18/src/bin/part1.rs:42-51 | a direction field other than "R", "D" and "L" reads as Up, and only those |
| Day18Part1.FromStrLetter | day-18/src/bin/part1.rs:42-51 | each direction's letter reads back as that direction |
| Day18Part1.ParseInstruction | day-18/src/bin/part1.rs:82-91 | the metres read fit in an `i32` |
| Day18Part1.ParseRender | day-18/src/bin/part1.rs:82-91 | a line written as direction letter, count within `i32` and any colour parses without a panic back to that instruction |
| Day18Part1.Instructions | day-18/src/bin/part1.rs:94 | one instruction per line, each the line parsed |
| Day18Part1.PositionIsOffset | day-18/src/bin/part1.rs:96-109 | where the digger stands after `k` moves is the sum of the first `k` moves' displacements |
| Day18Part1.Trenches | day-18/src/bin/part1.rs:99-106 | one vertex per instruction |
| Day18Part1.TrenchesStep | day-18/src/bin/part1.rs:103-106 | each vertex is the previous one (the origin for the first) moved by its instruction |
| Day18Part1.ChainRotate | day-18/src/bin/part1.rs:65-77 | starting the chain of cross products one vertex later shifts it by the first edge's cross product |
| Day18Part1.CrossSumRotate | day-18/src/bin/part1.rs:65-77 | the closed sum of cross products does not depend on which vertex the list starts at |
| Day18Part1.ForwardBackward | day-18/src/bin/part1.rs:65-71 | the difference of the two running sums is the running sum of cross products |
| Day18Part1.Shoelace | day-18/src/bin/part1.rs:59-80 | the result is half the absolute closed sum of cross products, plus the perimeter halved toward zero, plus one |
| Day18Part1.Dig | day-18/src/bin/part1.rs:96-109 | the walk lists every move's end point in order and the perimeter is the sum of the counts |
| Day18Part1.CalculateArea | day-18/src/bin/part1.rs:93-116 | the answer is the area (interior by the shoelace formula plus the boundary by Pick's theorem) of the polygon the plan's moves trace |
| Day18Part1.RectangleTrenches | day-18/src/bin/part1.rs:96-109 | right, down, left and up by the same sides visits the four corners and returns to the origin |
| Day18Part1.CrossSumQuad | day-18/src/bin/part1.rs:65-77 | for four vertices the closed sum is the four edge cross products |
| Day18Part1.RectanglePerimeter | day-18/src/bin/part1.rs:108 | the rectangle's perimeter is twice the width plus twice the height |
| Day18Part1.RectangleCrossSum | day-18/src/bin/part1.rs:65-77 | the rectangle's closed sum of cross products is twice its area, negative because it is walked clockwise |
| Day18Part1.RectangleCount | day-18/src/bin/part1.rs:79 | for such a rectangle the final formula gives (width + 1) × (height + 1) |
| Day18Part1.RectangleArea | day-18/src/bin/part1.rs:93-116 | a rectangle dug width across and height down holds every cell of the (width + 1) by (height + 1) block |
| Day18Part2.FromCode | day-18/src/bin/part2.rs:42-51 | a direction code other than "0", "1" and "2" reads as Up, and only those |
| Day18Part2.FromCodeCode | day-18/src/bin/part2.rs:42-51 | each direction's code reads back as that direction |
| Day18Part2.ParseInstruction | day-18/src/bin/part2.rs:79-94 | the metres read from the first five hexadecimal digits fit in an `isize` |
| Day18Part2.HexDigits | day-18/src/bin/part2.rs:88 | `k` lower-case hexadecimal digits |
| Day18Part2.HexDigitsValue | day-18/src/bin/part2.rs:92 | the last `k` hexadecimal digits of a number below 16 to the power `k` read back as that number |
| Day18Part2.RemoveHash | day-18/src/bin/part2.rs:84 | removing '#' from a colour leaves the bracketed digits |
| Day18Part2.RemoveOpen | day-18/src/bin/part2.rs:85 | removing '(' leaves the digits and the closing bracket |
| Day18Part2.RemoveClose | day-18/src/bin/part2.rs:86 | removing ')' leaves the digits |
| Day18Part2.HexOfColour | day-18/src/bin/part2.rs:84-86 | stripping the hash and brackets from a colour leaves its hexadecimal digits |
| Day18Part2.HexFields | day-18/src/bin/part2.rs:84-93 | in a colour written from an instruction, the first five digits read as the metres and the rest as the direction |
| Day18Part2.ParseRender | day-18/src/bin/part2.rs:79-94 | a line whose colour is written from an instruction parses without a panic back to that instruction, whatever its first two fields say |
| Day18Part2.Instructions | day-18/src/bin/part2.rs:97 | one instruction per line, each the line parsed |
| Day18Part2.Shoelace | day-18/src/bin/part2.rs:59-77 | the single running sum of cross products gives half the absolute closed sum, plus the perimeter halved toward zero, plus one |
| Day18Part2.CalculateArea | day-18/src/bin/part2.rs:96-119 | the answer is the area of the polygon the colour-coded moves trace, by the same formula as part 1 |
| Text.SplitOnce | day-18/src/bin/part1.rs:83-85 | `split_once` finds nothing exactly when the separator is absent; otherwise the text is the part before, the separator and the part after, and the part before holds no separator |
| Text.Split | day-15/src/bin/part1.rs:20 | `split` yields at least one piece and no piece holds the separator |
| Text.JoinSplit | day-14/src/bin/part1.rs:34-52 | splitting at a separator and joining with it gives the text back |
| Text.SplitJoin | day-14/src/bin/part1.rs:34-52 | joining separator-free pieces and splitting again gives the pieces back |
| Text.Remove | day-15/src/bin/part1.rs:20 | `replace(c, "")` leaves no `c` |
| Text.RemoveKeeps | day-15/src/bin/part1.rs:20 | removal keeps every other character and shortens the text by the occurrences removed |
| Text.Digits | day-15/src/bin/part2.rs:40 | filtering the numeric characters keeps only digits and never lengthens the text |
| Text.DigitsOf | day-15/src/bin/part2.rs:40 | filtering keeps a string of digits whole and empties one without digits |
| Text.Words | day-06/src/bin/part1.rs:38-43 | `split_whitespace` yields non-empty words with no whitespace in them |
| Text.WordsJoin | day-06/src/bin/part1.rs:38-43 | the words of a space-separated list of words are those words |
| Text.Lines | day-18/src/bin/part1.rs:94 | no line holds a line feed |
| Text.LinesJoin | day-14/src/bin/part2.rs:220-223 | `lines()` gives back the rows that were joined with line feeds, when none is empty or holds a line break |
| Text.ParseUnsigned | day-05/src/bin/part2.rs:31 | `parse` of an unsigned type succeeds exactly on an optional '+' and one or more digits whose value is within the type, and then yields that value |
| Text.ParseDecimal | day-06/src/bin/part1.rs:39 | parsing a number's decimal rendering gives the number back for every value of the type |
| Text.FilterMapNatDecimals | day-05/src/bin/part2.rs:30-31 | parsing each rendering and keeping the successes gives the numbers back |
| Text.ParseSignedHex | day-18/src/bin/part2.rs:92 | `from_str_radix(_, 16)` yields only values within the type |
| Text.Quot | day-18/src/bin/part1.rs:79 | signed division by a positive number truncates toward zero: the quotient has the sign of the dividend and times the divisor lies within one divisor of it, on the side of zero |
| Text.StepThroughRows | day-14/src/bin/part1.rs:17-22 | stepping by the width from offset `n` through equal-width rows laid end to end reads column `n` |
| Text.StepColumns | day-14/src/bin/part1.rs:16-25 | stepping by the first line's width through the text without line feeds, from offset `n`, reads column `n` of the grid |

## Left out

- Every `main`, the input loading, `println!` output (including the debug prints at day-13/src/bin/part2.rs:161-162) and the `log`/`env_logger` wrappers: they are I/O and diagnostics and do not affect any result.
- Part 1 of days 5, 9 and 17 and part 2 of day 16 are not part of this model.
- Input is assumed to be ASCII. `char::is_numeric` is modelled as the ten decimal digits, and `c as u32` as the character's code. Other Unicode numerals and code points are left out.
- The thread and channel fork-join in day 13's `parse` (day-13/src/bin/part1.rs:87-127) and rayon's `par_lines` in day 12 part 2 are modelled as sequential loops. Each summed value is independent of the others, and the sum does not depend on their order.
- `HashMap` and `HashSet` caches are Dafny maps and sets. Their hashing and capacity are left out, because only membership and lookup affect the result.
- `num::integer::lcm` is defined in Dafny through Euclid's gcd, and `priority_queue::PriorityQueue` is a sequence with extraction of a least element.
- Running time is left out. That covers the brute force over day 5's seed ranges and the step-by-step loops that stand for 1 000 000 000 spin cycles.
- Recursion depth is left out: the day 4 and day 16 recursions and the day 12 `arrange` could overflow the stack on large inputs.
- Day03Part1.EnginePartSum: the `if *ch == '6'` branch only logs, so it is left out.
- Day03Part1.EnginePartSum: the `index_line == schematic.len()` branch (day-03/src/bin/part1.rs:95) cannot be taken inside the loop over the lines, so it is left out.
- Day04Part2.CountTotalCards: requires every card that wins copies to sit before the lines it copies (`Forward`: a card at position p that matches any number has an id above p). count_total_cards (day-04/src/bin/part2.rs:69-95) never checks this. Without it some inputs recurse forever, for example a card whose copies include itself, and some end normally but are not covered, for example card 1 at position 5 whose single copy wins nothing. The index `card.id + n` (day-04/src/bin/part2.rs:85) is unbounded in the model, where the source would overflow a `usize`. Day04Part2.TotalCards rests on the same requirement.
- Day06Part1.RaceWays: requires every hold from 1 to `time − 1` to travel a `usize` distance. The binary search evaluates only some holds, so this is slightly stronger than the source needs. Times 0 and 1 are excluded because `binary_search` on the empty list panics.
- Day07Part1.ParseHand: requires every card character to be known, because `from_char(c).unwrap()` (day-07/src/bin/part1.rs:235) panics otherwise. Day07Part2.ParseHand has the same requirement (day-07/src/bin/part2.rs:291).
- Day07Part1.CalculateWinnings: does not model the `u32` overflow of `value += (index + 1) * bid` (day-07/src/bin/part1.rs:274). The sum is an unbounded integer.
- Day07Part2.CalculateWinnings: does not model the `u32` overflow of the same sum (day-07/src/bin/part2.rs:330).
- Day08Part1.ComputePathSteps: requires ZZZ to be reachable from AAA. Otherwise the source panics on a missing node or loops forever.
- Day08Part2.ComputePathSteps: requires instructions, at least one starting node, every walker to reach an ending node, and a common multiple of the first endings to fit in a `usize`. Without these the source loops forever, panics in `calculate_lcm(&[])`, or overflows.
- Day09Part2.SumExtrapolatedValues: requires every line to hold at least one value whose differences reach all zeros within `i64` (a shorter line panics at `first().unwrap()`, day-09/src/bin/part2.rs:39-42). It does not model the `i64` overflow of the final `.sum()` (day-09/src/bin/part2.rs:58-60).
- Day10Part1.Move: a step north from row 0 or west from column 0 is modelled as the release-build wrap-around, which leaves the grid and gives the answer 0. The `usize` subtractions at day-10/src/bin/part1.rs:300 and 303 panic in a debug build instead.
- Day10Part1.HalfLoopSize: the walk carries a step budget of twice the number of cells plus one, which the source loop does not have. No proof is given that the budget always suffices; a loop that outlasted it would give 0 in the model. Day10Part2.CountTilesContainedWithinLoop rests on the same walk.
- Day10Part2.EnclosedFromEitherSide: assumes the walk returns into the start through an opening of the shape chosen for it (`Closes`). The source checks only that the walk reached the start.
- Day11Part1.SumGalaxyPairDistances: does not model the `usize` overflow of the distance sum. Day11Part2.SumGalaxyPairDistances likewise. It requires an expansion rate of at least 1, because `expansion_rate - 1` (day-11/src/bin/part2.rs:10) underflows otherwise.
- Day12Part1.SumPossibleArrangements: does not model the `usize` overflow of the counts and their sum (day-12/src/bin/part1.rs:91). Day12Part2.SumPossibleArrangements likewise (day-12/src/bin/part2.rs:107).
- Day13Part1.Summarise: does not model the `u32` overflow of the scores and their sum. Day13Part2.Summarise likewise.
- Day14Part1.ComputeLoadByColumns: is stated only for rectangular text without carriage returns (`GridText`). `Tilt` and `ComputeLoad` themselves accept any text with a first line, as the source does; on ragged text the source reads columns across line ends and `zip` drops rows, and on text with CRLF line ends the carriage returns stay in the columns. No property is stated for those inputs. Day14Part1.TiltIsTiltColumns has the same hypothesis.
- Day14Part2.ComputeLoad: requires rectangular text without carriage returns (`GridText`). The source runs its spin loop on any text with a first line, but on ragged or CRLF text the re-joined grid need not read back as the same rows, so the cycle argument is not made for it.
- Day15Part1.SumHashes: does not model the `u32` overflow of the sum (day-15/src/bin/part1.rs:20). The sum is stated only over a list of steps (Day15Part1.SumHashesSample), not over the example text.
- Day15Part2.CalculateFocusingPower: does not model the `u32` overflow of the products and their sum (day-15/src/bin/part2.rs:102-108). It requires every lens left in a box to have a focal length, because `focal_length.unwrap()` panics otherwise.
- Day17Part2.LeastHeatLoss: states that the answer is the heat loss of a valid route whenever one exists (and that a non-zero answer always is), not that it is the least one; the source marks states visited when pushed and promises no optimality. Ties in the priority queue are resolved in an unspecified order, and the contract holds for every order. The `usize` heat-loss sum is unbounded. It requires a non-empty first row and no row shorter than the first, because the source panics at `unwrap` (day-17/src/bin/part2.rs:53, 141-145) or underflows `grid_width - 1` otherwise.
- Day17Part2.ComputePath: the same gaps as LeastHeatLoss. When there is no valid route the answer is 0, as in the source, and when there is one whose heat loss is 0 the answer is that 0.
- The worked examples' answers are not stated, except the day 8 part 1 count of 6 (Day08Part1.ExampleSteps), the day 6 example race (Day06Part1.FirstHoldWins), the day 9 part 2 per-line values (Day09Part2.PreviousSampleFirst and its two companions) and the day 15 hashes and their total over the eleven steps. The whole-text totals are not stated: 1320 and 145 for day 15, 136 and 64 for day 14, 62 for day 18, 4, 8 and 10 for day 10, 374, 1030 and 8410 for day 11, 405 and 400 for day 13, 46 for day 16, 94 and 71 for day 17, the per-line counts and 21 for day 12, and 2 for day 9. Evaluating each would unfold a whole parser over a literal text, which the verifier cannot do within its limits.

## Findings

| source | as written | input that shows it | evidently intended | confidence | as-written member | corrected member |
|---|---|---|---|---|---|---|
| day-03/src/bin/part1.rs:103-112 | the right-hand column is dropped from the neighbourhood when the ROW index equals the line length | the grid "...", "...", "...", ".1*": the '1' in row 3 of this 3-wide grid is not checked against the '*' beside it, and the sum is 0 | compare the column with the last column, or simply always check the column to the right | high, not executed | Day03Part1.ColumnsSkipRight | Day03Part1.CorrectedValid |
| day-03/src/bin/part1.rs:143-147 | a number that ends the last row is pushed before its last digit's neighbourhood is checked | the grid "*1": the '1' touches the '*' but the sum is 0 | check the last digit's neighbourhood before the final push, as is done at every other row end | high, not executed | Day03Part1.LastDigitSkipped | Day03Part1.ScannedCorrectedIsNumbers |
| day-03/src/bin/part2.rs:146-150 | the same final push loses the gear of a number that ends the last row | the grid "1*1": the gear has two numbers but the ratio sum is 0 instead of 1 | record the last digit's gear before the final push | high, not executed | Day03Part2.LastDigitGearSkipped | Day03Part2.CorrectedGear |
| day-05/src/bin/part2.rs:12 | `Map::get` matches `source <= value <= source + range`, one value more than the map covers | seeds "100 1", seed-to-soil map "50 98 2", every other map empty: seed 100 lands on location 52 | the bound excluded, so seed 100 passes through to location 100 | high, not executed | Day05Part2.UpperBoundIncluded | Day05Part2.PipelineSingle |
| day-06/src/bin/part1.rs:12-13 | `binary_search` returns a one-element list's value without testing it, so when even holding 1 ms wins the search still returns 1 as the largest losing hold | a race of 7 ms against a record of 0: 4 ways counted instead of 6 | return 0 as the largest losing hold when hold 1 already wins | high, not executed | Day06Part1.FirstHoldWins | Day06Part1.WaysCorrectedCounts |
| day-13/src/bin/part2.rs:65-78 | a second mirrored pair that is one character apart rejects the mirror only when it differs at another character index than the first such pair | the pattern "#", "#", ".", ".": the mirror between rows 2 and 3 has two smudges yet scores 2, so the pattern summarises to 200 | any second differing pair rejects the mirror, so the pattern summarises to 0 | medium, not executed | Day13Part2.TwoSmudgesSameColumn | Day13Part2.CorrectedExactlyOne |
| day-16/src/bin/part1.rs:159-167 | when the top-left tile turns the beam, tracing starts south at (0, 1) without consulting that tile and marks (0, 1) energised even when it is off the grid | the one-tile grid `\`: 2 tiles energised, one of them outside the grid | leave the top-left tile in the directions its own character gives, so the count is 1 | high, not executed | Day16Part1.OneBackslash | Day16Part1.CorrectedStart |
