# Advent of Code 2023 solvers, modelled in Dafny

This project models the puzzle solvers of the repository's `src/bin` directory for days 1 to
5 and 7 to 10 of Advent of Code 2023. Each solver reads the whole puzzle text and returns one
number. The model keeps each solver's steps, branches, error messages and constants. It
proves what the number means.

Where a Rust solver panics (`expect`, `unwrap`, `panic!`), the model returns
`Err(message)` with the panic's message. Where Rust reads the puzzle from a file or from the
network, the model takes it as a `string` parameter. Rust's `String`s are `seq<char>`, its
vectors are `seq`s and its hash maps are `map`s.

One Dafny module per solver (and one examples module beside most of them):

- `Calibration` (`d1p1.rs`): a line's value is ten times its first digit plus its last
  digit.
- `SpelledCalibration` (`d1p2.rs`): first, each spelled-out digit word `w` becomes `w d w`.
- `GameRecords` (normalization and tokenization shared by `d2p1.rs` and `d2p2.rs`),
  `CubeLimits` (`d2p1.rs`), `CubeMaxima` (`d2p2.rs`).
- `PartNumbers` (`d3p1.rs`): the builder is a class, and the scan proves that it collects
  each part number exactly once, in reading order.
- `GearSchematic` (`d3p2.rs`): `EngineBuilder` is a class, and the engine it builds is the
  unique engine of the schematic.
- `Scratchcards` (`d4p2.rs`): `Deck` is a class whose `cards` list grows while `solve` scans
  it. The count is proved against a recursive count of the cards each card produces.
- `RangeMapping` (`d5p1.rs`).
- `CamelCards` (shared by both day 7 parts), `CamelCardsPlain` (`d7p1.rs`),
  `CamelCardsJoker` (`d7p2.rs`).
- `NetworkWalk` (`d8p1.rs`), `MultiSourceWalk` and `NumberTheory` (`d8p2.rs`).
- `DifferenceExtrapolation` (`d9p2.rs`).
- `PipeLoop` (`d10p1.rs`).
- `Text`, `Seqs`, `Sorting` and `Wrappers` hold the parts of the Rust standard library that
  the solvers call: `split_once`, `replace`, `lines`, `trim`, parsing, `collect` of
  `Result`s, `sort_by`, `Option` and `Result`.

## Model

| member | source | states |
|---|---|---|
| Calibration.Digits | src/bin/d1p1.rs:6-10 | the digits of a line: at most one per character, each below 10 |
| Calibration.DigitsAppend | src/bin/d1p1.rs:6-10 | the digits of two joined texts are the digits of the first, then those of the second |
| Calibration.NoDigits | src/bin/d1p1.rs:6-10 | a line yields no digit exactly when none of its characters is a digit |
| Calibration.LineValue | src/bin/d1p1.rs:12-15 | a line fails with the message of `unwrap` on `None` exactly when it holds no digit; otherwise its value is at most 99 |
| Calibration.LineValueMeaning | src/bin/d1p1.rs:12-15 | with the first digit at `i` and the last at `j`, the value is 10 × digit `i` + digit `j` (one digit counts as both first and last) |
| Calibration.Solve | src/bin/d1p1.rs:2-17 | the sum succeeds exactly when every line has a digit; it is at most 99 per line |
| CalibrationExamples.FirstLine | src/bin/d1p1.rs:12-15 | `1abc2` is worth 12 |
| CalibrationExamples.SecondLine | src/bin/d1p1.rs:12-15 | `pqr3stu8vwx` is worth 38 |
| CalibrationExamples.FourthLine | src/bin/d1p1.rs:12-15 | `treb7uchet` is worth 77: its single digit is both first and last |
| Text.IndexOf | src/bin/d1p2.rs:9-17 | the first position at which the word occurs, or `None` exactly when it does not occur |
| Text.ReplaceSelf | src/bin/d1p2.rs:9-17 | `replace` of a word by itself gives the text back unchanged |
| Text.ReplaceKeepsChars | src/bin/d1p2.rs:9-17 | every character after `replace` comes from the text or from the replacement |
| SpelledCalibration.DigitChar | src/bin/d1p2.rs:9-17 | the digit character written into `w d w` has value `d` |
| SpelledCalibration.ReplaceKeepsDigits | src/bin/d1p2.rs:9-17 | replacing a word without digits keeps all of the line's digits, in order (as a subsequence) |
| SpelledCalibration.ReplaceAddsDigit | src/bin/d1p2.rs:9-17 | if the line contains the word, the digit of its replacement appears in the result |
| SpelledCalibration.WordsHaveNoDigits | src/bin/d1p2.rs:9-17 | none of the nine digit words contains a digit |
| SpelledCalibration.DigitsSurvive | src/bin/d1p2.rs:9-17 | the first `n` replacements keep the line's own digits, in order |
| SpelledCalibration.LaterStepsKeep | src/bin/d1p2.rs:9-17 | later replacements keep the digits that earlier ones produced, in order |
| SpelledCalibration.WordGivesDigit | src/bin/d1p2.rs:9-17 | a word still present when its turn comes puts its digit into the final line |
| SpelledCalibration.SpelledOne | src/bin/d1p2.rs:9 | a line containing `one` reads the digit 1 after the replacements |
| SpelledCalibration.NoWordsUnchanged | src/bin/d1p2.rs:9-17 | a line without digit words goes through the replacements unchanged |
| SpelledCalibration.Unspelled | src/bin/d1p2.rs:9-17 | a line without digit words gets the same expansion as part 1 sees |
| SpelledCalibration.LineValue | src/bin/d1p2.rs:8-26 | a line with a digit or with `one` has a value, at most 99; without digit words it is part 1's value; the only failure is `unwrap` on `None` |
| SpelledCalibration.Solve | src/bin/d1p2.rs:5-27 | the sum succeeds exactly when every line has a value; it is at most 99 per line |
| GameRecords.NormalizeShape | src/bin/d2p1.rs:5-11 | the normalized text has no upper-case letter, no `:` and no `;` |
| GameRecords.Pieces | src/bin/d2p1.rs:14-15 | one list of pieces per line; joined with `,` the pieces give the line back |
| GameRecords.Token | src/bin/d2p1.rs:16-17 | a piece splits exactly when it holds a space: the part before the first space and the rest; otherwise the panic message |
| GameRecords.TokenizeGame | src/bin/d2p1.rs:13-19 | a game tokenizes exactly when each of its pieces holds a space, token by token |
| GameRecords.TokenOfPiece | src/bin/d2p1.rs:16-17 | a piece written as a count without a space, a space and a name splits back into that count and that name |
| GameRecords.ReadingOfPiece | src/bin/d2p1.rs:35-43 | such a piece reads as the parsed count and its colour; a count that is not a number fails with "subset count is not a number", an unknown colour with "unexpected color" |
| CubeLimits.ImpossibleIff | src/bin/d2p1.rs:35-44 | for readable pieces, a game is impossible exactly when some count exceeds its colour's limit (12 red, 13 green, 14 blue) |
| CubeLimits.StopsAtFirstOver | src/bin/d2p1.rs:35-44 | `any` stops at the first piece over its limit: pieces after it are not read, even if they are malformed |
| CubeLimits.PassOver | src/bin/d2p1.rs:35-44 | a piece within its limit passes the decision to the pieces after it |
| CubeLimits.GameId | src/bin/d2p1.rs:26-33 | a game's id is the number in its leading `game` token |
| CubeLimits.GameValueMeaning | src/bin/d2p1.rs:26-50 | a readable game adds its id when it is possible and 0 when it is not |
| CubeLimits.Solve | src/bin/d2p1.rs:21-52 | the sum succeeds exactly when every game has a value; a failure is the failure of some game |
| CubeLimitsExamples.TwelveRedFit | src/bin/d2p1.rs:110-113 | the game `Game 1: 12 red; 1 red`, as its normalized pieces `game 1`, `12 red`, `1 red`, adds its id 1: the limit is inclusive |
| CubeLimitsExamples.GameOne | src/bin/d2p1.rs:26-33 | a game whose first piece is `game 1` has id 1 |
| CubeLimitsExamples.TwelveRed | src/bin/d2p1.rs:35-43 | the piece `12 red` reads as twelve red cubes |
| CubeLimitsExamples.OneRed | src/bin/d2p1.rs:35-43 | the piece `1 red` reads as one red cube |
| CubeLimitsExamples.TwelveThenOneRed | src/bin/d2p1.rs:110-113 | the pieces `12 red` and `1 red` are both within the limit |
| CubeLimitsExamples.BothWithin | src/bin/d2p1.rs:35-44 | two pieces within their limits make a possible game |
| CubeLimitsExamples.ThirteenRedDoNotFit | src/bin/d2p1.rs:39 | a game with 13 red cubes adds nothing |
| CubeMaxima.MaxOfSpec | src/bin/d2p2.rs:28-49 | the running maximum of a colour is at least each of its counts, and it is one of them or 0 |
| CubeMaxima.FewestIsLeast | src/bin/d2p2.rs:24-49 | the bag of minimums holds every reading, and a bag holds every reading exactly when it is at least the minimums in each colour |
| CubeMaxima.MissingColour | src/bin/d2p2.rs:24-26 | a colour that is never shown has minimum 0, so the game's power is 0 |
| CubeMaxima.Minimums | src/bin/d2p2.rs:28-49 | the loop fails with the first failing piece's message; otherwise it gives the least bag that holds every reading |
| CubeMaxima.FewestSnoc | src/bin/d2p2.rs:31-47 | one more reading raises only its own colour's minimum, to the larger of the two |
| CubeMaxima.GamePower | src/bin/d2p2.rs:22-53 | the power of one game, failing on a game without tokens or on a bad piece |
| CubeMaxima.Solve | src/bin/d2p2.rs:17-55 | the sum succeeds exactly when every game has a power; a failure is the failure of some game |
| CubeMaximaExamples.FirstGameRed | src/bin/d2p2.rs:31-36 | game 1 of the worked example needs 4 red cubes |
| CubeMaximaExamples.FirstGameGreen | src/bin/d2p2.rs:37-41 | it needs 2 green cubes |
| CubeMaximaExamples.FirstGameBlue | src/bin/d2p2.rs:42-46 | it needs 6 blue cubes |
| CubeMaximaExamples.FirstGame | src/bin/d2p2.rs:51 | its minimum bag is 4, 2, 6 and its power is 48 |
| PartNumbers.FromChar | src/bin/d3p1.rs:22-32 | `.` and space are no cell; a digit is a digit cell; any other character is a symbol cell |
| PartNumbers.Parse | src/bin/d3p1.rs:47-59 | the schematic holds exactly the non-empty cells of the grid, each as `from_char` reads it |
| PartNumbers.PartNumberComponentMeaning | src/bin/d3p1.rs:65-76 | a cell is a part number component exactly when one of its eight neighbours is a symbol |
| PartNumbers.Max | src/bin/d3p1.rs:78-84 | `None` exactly for no values; otherwise the largest value |
| PartNumbers.Min | src/bin/d3p1.rs:86-92 | `None` exactly for no values; otherwise the smallest value |
| PartNumbers.Bounds | src/bin/d3p1.rs:94-101 | `None` exactly for an empty schematic; otherwise the least and greatest column and row of its cells |
| PartNumbers.BoundsOfExtremes | src/bin/d3p1.rs:94-101 | the extreme columns and rows bound every cell |
| PartNumbers.PartsNumberBuilder.constructor | src/bin/d3p1.rs:117-123 | no part numbers, an empty buffer, not flagged |
| PartNumbers.PartsNumberBuilder.ConsumeBuffer | src/bin/d3p1.rs:125-133 | a flagged buffer is parsed and recorded ("invalid part number" if it does not parse); the buffer is then cleared and unflagged |
| PartNumbers.PartsNumberBuilder.PushDigit | src/bin/d3p1.rs:135-137 | the digit is appended to the buffer; nothing else changes |
| PartNumbers.PartsNumberBuilder.FlagPartNumber | src/bin/d3p1.rs:139-141 | the buffer is flagged; nothing else changes |
| PartNumbers.RunStartSpec | src/bin/d3p1.rs:160-172 | the digits buffered before a column form a maximal run of digit cells |
| PartNumbers.RunTouchesMeaning | src/bin/d3p1.rs:163-167 | a run is flagged exactly when one of its cells is a part number component |
| PartNumbers.PendingSound | src/bin/d3p1.rs:169-171 | what a flush records is the value of a part number that ends there |
| PartNumbers.DoneSound | src/bin/d3p1.rs:160-176 | every number found before a cell is a part number of the rows scanned so far |
| PartNumbers.RowDoneSound | src/bin/d3p1.rs:160-176 | every number found by the end of a row is a part number of the rows so far |
| PartNumbers.RunStartOfRun | src/bin/d3p1.rs:160-172 | the buffer at the end of a maximal run starts at the run's first digit |
| PartNumbers.DoneGrows | src/bin/d3p1.rs:161-173 | the numbers found only grow along a row |
| PartNumbers.RowDoneGrows | src/bin/d3p1.rs:160-176 | the numbers found only grow from row to row |
| PartNumbers.RunRecorded | src/bin/d3p1.rs:160-176 | every part number is parsed and recorded by the end of its row |
| PartNumbers.RowDoneMeaning | src/bin/d3p1.rs:160-176 | a value is recorded by the end of row `y` exactly when it is a part number of the rows up to `y` |
| PartNumbers.ConsumeStep | src/bin/d3p1.rs:169-171 | at a cell that is not a digit, `consume_buffer` records the run before the cell exactly when it touches a symbol |
| PartNumbers.Scan | src/bin/d3p1.rs:158-176 | the two loops record the values of the part numbers, each exactly once, row by row and left to right: the list equals the values of any reading-order list of all part-number runs |
| PartNumbers.ScanRow | src/bin/d3p1.rs:161-175 | one pass of the outer loop: after the row's cells and the end-of-row flush, the builder holds the values of the part numbers of the rows up to this one, each once and in reading order, with an empty, unflagged buffer |
| PartNumbers.ScanCell | src/bin/d3p1.rs:162-172 | one pass of the inner loop keeps the builder in step with the scan: recorded numbers, buffered run and its flag are those of the cells before the next column |
| PartNumbers.Solve | src/bin/d3p1.rs:148-179 | "empty engine" exactly when the grid has no cell; otherwise the sum of the values of the part numbers, each counted once (a reading-order list of all part-number runs within the bounds) |
| PartNumbers.OrderedUnique | src/bin/d3p1.rs:158-176 | two lists of the same runs, both in reading order, are the same list |
| PartNumbers.PendingRunSpec | src/bin/d3p1.rs:169-171 | a flush records the value of exactly the part number that ends at that column, if there is one |
| PartNumbers.DoneRunsSpec | src/bin/d3p1.rs:160-173 | the numbers found before a cell are the values of exactly the part numbers passed so far, in reading order |
| PartNumbers.RowRunsSpec | src/bin/d3p1.rs:160-176 | the numbers found by the end of a row are the values of exactly the part numbers of the rows so far, in reading order |
| PartNumbers.PartNumbersInOrder | src/bin/d3p1.rs:158-176 | the numbers found by the end of a row equal the values of any reading-order list of all part-number runs up to that row: each part number once, none else |
| GearSchematic.Back | src/bin/d3p2.rs:133-145 | the first digit of the run of digits that ends at a column |
| GearSchematic.RunEnd | src/bin/d3p2.rs:147-162 | the column just after the run of digits that starts at a column |
| GearSchematic.EngineUnique | src/bin/d3p2.rs:34-45 | one schematic has one engine: its components and its component map are determined |
| GearSchematic.EngineBuilder.constructor | src/bin/d3p2.rs:125-131 | an empty engine, an empty buffer, number start at (0, 0) |
| GearSchematic.EngineBuilder.PushDigit | src/bin/d3p2.rs:133-145 | the first digit of a buffer sets the number's start; every digit maps its cell to that start and joins the buffer |
| GearSchematic.EngineBuilder.ConsumeDigitBuffer | src/bin/d3p2.rs:147-162 | a non-empty buffer becomes a number at its start ("invalid number when consuming digit buffer" if it does not parse); the buffer is emptied |
| GearSchematic.EngineBuilder.PushSymbol | src/bin/d3p2.rs:164-173 | the buffer is flushed, then the symbol is stored at its cell and its cell maps to itself |
| GearSchematic.EngineBuilder.PushVoid | src/bin/d3p2.rs:175-177 | the buffer is flushed and nothing else changes |
| GearSchematic.EngineBuilder.Push | src/bin/d3p2.rs:179-187 | a digit, a `.` and any other character go to `PushDigit`, `PushVoid` and `PushSymbol` |
| GearSchematic.PushCell | src/bin/d3p2.rs:198-200 | pushing a cell extends the engine read so far by one cell |
| GearSchematic.EndLine | src/bin/d3p2.rs:201 | the flush at the end of a line completes the engine of the lines read so far |
| GearSchematic.Build | src/bin/d3p2.rs:194-202 | the loops build the engine of the schematic |
| GearSchematic.ResolveMeaning | src/bin/d3p2.rs:47-50 | a digit resolves to the first digit of its number, and any other position to itself; the result holds a component exactly when the cell is not empty |
| GearSchematic.Symbols | src/bin/d3p2.rs:52-62 | exactly the symbol components, each with its character |
| GearSchematic.AdjacentMembers | src/bin/d3p2.rs:79-86 | a position is among the adjacent components exactly when a neighbour resolves to it and it holds a component |
| GearSchematic.GetAdjacentComponents | src/bin/d3p2.rs:64-89 | the loop over the eight deltas collects the components the neighbours resolve to, each once |
| GearSchematic.NeighbourNumber | src/bin/d3p2.rs:79-84 | a neighbour resolves to a number exactly when it is a digit, and then to that number's first digit |
| GearSchematic.AdjacentNumbers | src/bin/d3p2.rs:64-89 | the numbers adjacent to a cell are those with a digit in one of its eight neighbours, each counted once |
| GearSchematic.RatioOfTwo | src/bin/d3p2.rs:107-108 | with exactly two adjacent numbers, the ratio is their product |
| GearSchematic.Numbers | src/bin/d3p2.rs:99-105 | exactly the numbers among the adjacent components, one per position |
| GearSchematic.GetGears | src/bin/d3p2.rs:91-115 | the gears are the `*` symbols with exactly two adjacent numbers, each with their product as ratio |
| GearSchematic.SumRatiosRemove | src/bin/d3p2.rs:204 | the sum of the ratios is one gear's ratio plus the sum of the others |
| GearSchematic.SumOfRatios | src/bin/d3p2.rs:204 | the loop sums the ratios of all gears |
| GearSchematic.Solve | src/bin/d3p2.rs:194-205 | the sum of the gear ratios of the schematic's engine |
| GearSchematic.GearsMeaning | src/bin/d3p2.rs:91-115 | a cell is a gear exactly when it is a `*` with exactly two numbers having a digit next to it |
| GearSchematic.GearRatioMeaning | src/bin/d3p2.rs:107-109 | a gear's ratio is the product of its two numbers as written in the grid |
| Scratchcards.JoinedWordsSingleSpaced | src/bin/d4p2.rs:8-12 | non-empty words without spaces, joined by one space, are single-spaced |
| Scratchcards.SqueezeSingleSpaced | src/bin/d4p2.rs:8-12 | after dropping empty pieces and joining, no two spaces are adjacent |
| Scratchcards.OwnWinningNumbers | src/bin/d4p2.rs:50-55 | no more matches than winning numbers |
| Scratchcards.OwnWinningNumbersSpec | src/bin/d4p2.rs:50-55 | the matches are the winning numbers the card holds, with their repetitions |
| Scratchcards.FirstWithId | src/bin/d4p2.rs:75 | the first card with the id, or `None` exactly when no card has it |
| Scratchcards.After | src/bin/d4p2.rs:72-78 | the (at most) `n` original cards after the first card with the id; none when no card has it |
| Scratchcards.Deck.constructor | src/bin/d4p2.rs:64-70 | both lists start as the parsed cards |
| Scratchcards.Deck.PutCard | src/bin/d4p2.rs:80-82 | the card is appended; the original cards stay |
| Scratchcards.Deck.PutCards | src/bin/d4p2.rs:105-107 | the copies are appended in order; the original cards stay |
| Scratchcards.Produced | src/bin/d4p2.rs:98-109 | a card eventually brings at least itself into the deck |
| Scratchcards.Reach | src/bin/d4p2.rs:72-78 | the copies of a card come from strictly after it and within the deck |
| Scratchcards.PendingAppend | src/bin/d4p2.rs:98-109 | the cards still to be produced by two lists are those of each added up |
| Scratchcards.PendingSlice | src/bin/d4p2.rs:98-109 | the weight of consecutive original cards is the sum of what each produces |
| Scratchcards.SumProducedAtLeast | src/bin/d4p2.rs:98-109 | consecutive cards produce at least as many cards as there are of them |
| Scratchcards.FirstWithIdOfMember | src/bin/d4p2.rs:72-78 | with distinct ids, a card of the deck is found at its own position |
| Scratchcards.ScanStep | src/bin/d4p2.rs:99-108 | scanning one card keeps the deck made of original cards, and moves that card's weight into the scanned count |
| Scratchcards.Play | src/bin/d4p2.rs:96-111 | the scan ends with as many cards as the original cards produce in total |
| Scratchcards.Solve | src/bin/d4p2.rs:93-111 | a parse failure is returned; otherwise the total of produced cards |
| ScratchcardsExamples.MatchesOfCard | src/bin/d4p2.rs:50-55 | a card with five winning numbers matches as many of them as it holds |
| ScratchcardsExamples.Card1 | src/bin/d4p2.rs:125 | card 1 of the example has 4 matches |
| ScratchcardsExamples.Card2 | src/bin/d4p2.rs:126 | card 2 has 2 matches |
| ScratchcardsExamples.Card3 | src/bin/d4p2.rs:127 | card 3 has 2 matches |
| ScratchcardsExamples.Card4 | src/bin/d4p2.rs:128 | card 4 has 1 match |
| ScratchcardsExamples.Card5 | src/bin/d4p2.rs:129 | card 5 has none |
| ScratchcardsExamples.Card6 | src/bin/d4p2.rs:130 | card 6 has none |
| ScratchcardsExamples.NextTwoAfterFirst | src/bin/d4p2.rs:149-156 | the two cards after card 1 are cards 2 and 3 |
| ScratchcardsExamples.TotalOfMatches | src/bin/d4p2.rs:144-147 | six cards with 4, 2, 2, 1, 0, 0 matches produce 30 cards |
| ScratchcardsExamples.ExampleTotal | src/bin/d4p2.rs:144-147 | the example deck produces 30 cards |
| RangeMapping.NewMapper | src/bin/d5p1.rs:24-31 | a mapper's source and target ranges both have the given length |
| RangeMapping.Field | src/bin/d5p1.rs:36-52 | a missing field and a field that is not a number fail with their own messages |
| RangeMapping.ParseMapperFields | src/bin/d5p1.rs:33-55 | `t s n` parses to the mapper from `s` to `t` of length `n` |
| RangeMapping.MapOfNew | src/bin/d5p1.rs:65-78 | a value is mapped exactly when it lies in the source range, and it moves by the offset between the starts |
| RangeMapping.CompositeMapFirst | src/bin/d5p1.rs:92-94 | a stage maps a value exactly when one of its mappers does, and then by the first such mapper |
| RangeMapping.LocationAppend | src/bin/d5p1.rs:112 | running stages one after another is running them all |
| RangeMapping.LocationUnmapped | src/bin/d5p1.rs:112 | a value that no mapper maps ends where it starts |
| RangeMapping.Min | src/bin/d5p1.rs:113 | `None` exactly for no values; otherwise the least one |
| RangeMapping.KeptLines | src/bin/d5p1.rs:8-11 | exactly the lines that are blank or start with a digit, and no others |
| RangeMapping.KeptLinesInOrder | src/bin/d5p1.rs:7-12 | the kept lines are the lines at increasing positions, and those positions are exactly the blank lines and the lines starting with a digit |
| RangeMapping.LeastLocation | src/bin/d5p1.rs:110-114 | "no seeds to calculate the min" exactly when there is no seed; otherwise the least location of any seed |
| RangeMappingExamples.MapperExample | src/bin/d5p1.rs:193-200 | the mapper `50 98 2` leaves 97 and 100 alone and sends 98 and 99 to 50 and 51 |
| RangeMappingExamples.Seed79 | src/bin/d5p1.rs:153-191 | seed 79 ends at 82 in the example |
| RangeMappingExamples.Seed14 | src/bin/d5p1.rs:153-191 | seed 14 ends at 43 |
| RangeMappingExamples.Seed55 | src/bin/d5p1.rs:153-191 | seed 55 ends at 86 |
| RangeMappingExamples.Seed13 | src/bin/d5p1.rs:153-191 | seed 13 ends at 35, the least location |
| RangeMappingExamples.ExampleLeastLocation | src/bin/d5p1.rs:153-190 | the seeds 79, 14, 55 and 13 of the example have least location 35 over the example's stages |
| RangeMappingExamples.LeastOfFour | src/bin/d5p1.rs:110-114 | any four seeds whose locations are 82, 43, 86 and 35 have least location 35 |
| CamelCards.EncodeCards | src/bin/d7p1.rs:5-14 | each card is encoded by itself, in order |
| CamelCards.ParseHandShape | src/bin/d7p1.rs:22-29 | a line without a space fails to split; otherwise the cards before the first space and the bid after it, or "bid is not a number" |
| CamelCards.FreqSnoc | src/bin/d7p1.rs:42-44 | one more card adds one to its own count only |
| CamelCards.Tally | src/bin/d7p1.rs:40-44 | the loop tallies each card's frequency |
| CamelCards.DistinctSpec | src/bin/d7p1.rs:46-52 | the keys of the frequency map are the hand's cards, each once |
| CamelCards.CountsOfSpec | src/bin/d7p1.rs:46-52 | the counts read over some keys are those keys' counts |
| CamelCards.CountsSpec | src/bin/d7p1.rs:46-52 | one positive count per different card |
| CamelCards.CountsOfCards | src/bin/d7p1.rs:46-52 | the values are exactly the counts of the hand's cards |
| CamelCards.LargestCount | src/bin/d7p1.rs:46 | the largest value is the count of a most frequent card |
| CamelCards.ValuesOf | src/bin/d7p1.rs:46-52 | the values of a map read in the order of its keys |
| CamelCards.ValuesOfFreq | src/bin/d7p1.rs:46-52 | the values of the tallied map are the counts |
| CamelCards.Largest | src/bin/d7p1.rs:46 | the maximum: at least every value, one of them, 0 for none |
| CamelCards.RemoveOne | src/bin/d7p2.rs:45-46 | one occurrence of the largest is taken out |
| CamelCards.SecondLargestTies | src/bin/d7p2.rs:42-46 | the second of the sorted counts equals the first exactly when the largest count occurs twice |
| CamelCards.TwiceIn | src/bin/d7p2.rs:42-46 | a count occurs twice exactly when two positions hold it |
| CamelCards.LargestPermutation | src/bin/d7p2.rs:42 | the largest count does not depend on the map's iteration order |
| CamelCards.SecondLargestPermutation | src/bin/d7p2.rs:42 | neither does the second largest |
| CamelCards.SortedDescendingTop | src/bin/d7p2.rs:43-46 | counts sorted from largest down start with the largest and the second largest |
| CamelCards.LexLeTotal | src/bin/d7p1.rs:63 | the cards order is total |
| CamelCards.LexLeTransitive | src/bin/d7p1.rs:63 | and transitive |
| CamelCards.LexLeAntisymmetric | src/bin/d7p1.rs:63 | and antisymmetric |
| CamelCards.ByPowerOrder | src/bin/d7p1.rs:60-64 | the comparator is a total order on hands; hands it cannot tell apart have the same cards |
| CamelCards.RankingUnique | src/bin/d7p1.rs:60-64 | when no two hands have the same cards, the sorted order is unique, whatever the sort's stability |
| CamelCards.Score | src/bin/d7p1.rs:60-73 | the total is the sum of rank × bid over the hands sorted by the comparator |
| Sorting.InsertionSort | src/bin/d7p1.rs:60-64 | `sort_by` leaves the hands sorted by the comparator, as a permutation |
| Sorting.Swap | src/bin/d7p1.rs:60-64 | a swap exchanges two entries and keeps the multiset |
| Sorting.SortedPairwise | src/bin/d7p1.rs:60-64 | sorted by a transitive order means every earlier hand is at most every later one |
| Sorting.SortedUnique | src/bin/d7p1.rs:60-64 | two sorted permutations of the same hands under an antisymmetric order are equal |
| CamelCardsPlain.EncodeFollowsStrength | src/bin/d7p1.rs:4-14 | after encoding, character order is card strength from 2 up to A |
| CamelCardsPlain.LargestOtherThan | src/bin/d7p1.rs:47-52 | the largest count that differs from the largest is below it, and it is a count or 0 |
| CamelCardsPlain.KindPowerMeaning | src/bin/d7p1.rs:39-55 | as written: 10 × the largest count + the largest count strictly below it (0 if none) |
| CamelCardsPlain.ComputeKindPower | src/bin/d7p1.rs:39-55 | the loop computes that power; an empty hand panics on `unwrap` |
| CamelCardsPlain.CountsTwice | src/bin/d7p1.rs:31-37 | a count occurs twice exactly when two different cards have it |
| CamelCardsPlain.IntendedKindPowerMeaning | src/bin/d7p1.rs:31-37 | the intended power: 10 × the largest count + the second of the sorted counts, equal to the largest exactly when two cards share it |
| CamelCardsPlain.Solve | src/bin/d7p1.rs:58-74 | a parse failure is returned; with two hands or more, an empty hand panics; otherwise the winnings of the ranking by the as-written power |
| CamelCardsPlain.SolveIntended | src/bin/d7p1.rs:58-74 | the same, ranked by the intended power |
| CamelCardsPlainExamples.TwoPairTiesOnePair | src/bin/d7p1.rs:47-52 | as written, two pair `23432` and one pair `A23A4` both score 21 |
| CamelCardsPlainExamples.IntendedTwoPairBeatsOnePair | src/bin/d7p1.rs:35-36 | the intended power gives 22 and 21 |
| CamelCardsPlainExamples.FullHouseBeatsThreeOfAKind | src/bin/d7p1.rs:99-105 | full house `23332` scores 32 and three of a kind `TTT98` scores 31 |
| CamelCardsJoker.EncodeFollowsStrength | src/bin/d7p2.rs:4-17 | after encoding, character order is card strength, with J the weakest |
| CamelCardsJoker.ComputeKindPower | src/bin/d7p2.rs:34-50 | the loop, sort and joker count compute the joker power |
| CamelCardsJoker.TopTwo | src/bin/d7p2.rs:42-46 | the first and second of the counts sorted from largest down are the largest and the second largest, 0 when missing |
| CamelCardsJoker.SecondOfShort | src/bin/d7p2.rs:45-46 | with no count the largest is 0; with fewer than two the second is 0 |
| CamelCardsJoker.PlainCounts | src/bin/d7p2.rs:38-47 | without the jokers, every other card keeps its count; the jokers make up the rest of the hand |
| CamelCardsJoker.NoJokersIsIntendedPower | src/bin/d7p2.rs:34-50 | without jokers the power is part 1's intended power |
| CamelCardsJoker.JokerPowerMeaning | src/bin/d7p2.rs:34-50 | the jokers join the most frequent other card: 10 × (its count + jokers) + the second count |
| CamelCardsJoker.PlainShared | src/bin/d7p2.rs:38-40 | two different cards other than jokers share a count exactly when they do among the plain cards |
| CamelCardsJoker.OneCardWithJokers | src/bin/d7p2.rs:45-49 | a hand of jokers and one other card is five of a kind: 50 |
| CamelCardsJoker.SameCard | src/bin/d7p2.rs:38-40 | a hand of one card has that card once as key, counted once per card |
| CamelCardsJoker.Solve | src/bin/d7p2.rs:53-69 | a parse failure is returned; otherwise the winnings of the ranking by the joker power |
| CamelCardsJokerExamples.FiveJokers | src/bin/d7p2.rs:94-115 | `JJJJJ` scores 50 |
| CamelCardsJokerExamples.FourJokers | src/bin/d7p2.rs:94-115 | `JJJJA` scores 50 |
| CamelCardsJokerExamples.ThreeJokers | src/bin/d7p2.rs:94-115 | `JJJAA` scores 50 |
| CamelCardsJokerExamples.TwoJokers | src/bin/d7p2.rs:94-115 | `JJAAA` scores 50 |
| CamelCardsJokerExamples.OneJoker | src/bin/d7p2.rs:94-115 | `JAAAA` scores 50 |
| CamelCardsJokerExamples.NoJoker | src/bin/d7p2.rs:94-115 | `AAAAA` scores 50 |
| CamelCardsJokerExamples.ThreeJokersMakeFourOfAKind | src/bin/d7p2.rs:94-115 | `JJJAK` scores 41 |
| CamelCardsJokerExamples.TwoJokersMakeFourOfAKind | src/bin/d7p2.rs:94-115 | `JJKKA` scores 41 |
| CamelCardsJokerExamples.OneJokerMakesFourOfAKind | src/bin/d7p2.rs:94-115 | `JKKKA` scores 41 |
| NetworkWalk.NormalizeStripsDecorations | src/bin/d8p1.rs:5-10 | no space, parenthesis or `=` survives normalization |
| NetworkWalk.NormalizeNodeLine | src/bin/d8p1.rs:5-10 | a node line `X = (L, R)` whose labels have no space, bracket, `=` or newline normalizes to `X,L,R` |
| NetworkWalk.ParseNodeShape | src/bin/d8p1.rs:25-29 | a node line splits at its first and second comma, each split failing with its own message |
| NetworkWalk.BuildNetworkOk | src/bin/d8p1.rs:22-30 | the network builds exactly when every line parses, and every parsed label is a key |
| NetworkWalk.Position | src/bin/d8p1.rs:15-20 | the cycled tape is read within its length |
| NetworkWalk.PositionSucc | src/bin/d8p1.rs:15-20 | the tape position advances by one and wraps around at the end |
| NetworkWalk.Step | src/bin/d8p1.rs:36-43 | a step succeeds exactly when the node is known, the tape is not empty and its letter is L or R; it takes the left or the right path |
| NetworkWalk.Follow | src/bin/d8p1.rs:35-46 | the step count is at least the start, and beyond it when the start is not the goal |
| NetworkWalk.FollowStopsAtFirstGoal | src/bin/d8p1.rs:35-46 | the count returned is the first step count at which the walk stands on the goal |
| NetworkWalk.FollowFindsFirstGoal | src/bin/d8p1.rs:35-46 | with enough fuel, the walk returns the first step count at which it stands on the goal |
| NetworkWalk.Walk | src/bin/d8p1.rs:32-48 | the `while` loop returns what `Follow` specifies |
| NetworkWalk.Solve | src/bin/d8p1.rs:12-49 | no directions, a bad node line, or the walk from `AAA` to `ZZZ` |
| NetworkWalkExamples.LongExample | src/bin/d8p1.rs:69-93 | in the long example `AAA` reaches `ZZZ` in 2 steps |
| NumberTheory.DivModUnique | src/bin/d8p2.rs:12 | quotient and remainder are unique |
| NumberTheory.DividesTrans | src/bin/d8p2.rs:8-18 | divisibility is transitive |
| NumberTheory.DividesAntisym | src/bin/d8p2.rs:8-18 | and antisymmetric |
| NumberTheory.Gcd | src/bin/d8p2.rs:8-14 | Euclid's `gcd` divides both arguments |
| NumberTheory.GcdGreatest | src/bin/d8p2.rs:8-14 | every common divisor divides it |
| NumberTheory.GcdScale | src/bin/d8p2.rs:8-14 | gcd(m·a, m·b) = m·gcd(a, b) |
| NumberTheory.Lcm | src/bin/d8p2.rs:16-18 | `(a / gcd) * b` is a multiple of both arguments |
| NumberTheory.LcmLeast | src/bin/d8p2.rs:16-18 | it divides every common multiple |
| NumberTheory.LcmTimesGcd | src/bin/d8p2.rs:16-18 | a · b = gcd · lcm |
| NumberTheory.LcmOfOne | src/bin/d8p2.rs:69 | a single count is its own least common multiple |
| NumberTheory.LcmExtend | src/bin/d8p2.rs:69 | folding one more count into `lcm` gives the least common multiple of all of them |
| NumberTheory.LcmUnique | src/bin/d8p2.rs:69 | the least common multiple of a set is unique, so the order of the reduce does not matter |
| MultiSourceWalk.StartCountPositive | src/bin/d8p2.rs:33-46 | a start ends in `A`, so its walk takes at least one step |
| MultiSourceWalk.CountsAdd | src/bin/d8p2.rs:64-69 | one more start adds its count to the set of counts |
| MultiSourceWalk.FoldStep | src/bin/d8p2.rs:69 | one more `lcm` keeps the fold the least common multiple of the counts so far |
| MultiSourceWalk.FoldCounts | src/bin/d8p2.rs:64-70 | the reduce fails with some start's failure; otherwise it is the least common multiple of the counts of all starts |
| MultiSourceWalk.Solve | src/bin/d8p2.rs:49-71 | no directions, a bad node line, "nothing to reduce" for no start, or the least common multiple of the counts |
| MultiSourceWalkExamples.LongExample | src/bin/d8p2.rs:91-116 | `11A` takes 2 steps and `22A` 3, so the answer is 6 |
| DifferenceExtrapolation.Diffs | src/bin/d9p2.rs:8 | one difference fewer than values |
| DifferenceExtrapolation.DiffsSpec | src/bin/d9p2.rs:8 | each difference is the next value minus this one |
| DifferenceExtrapolation.ZeroRow | src/bin/d9p2.rs:4-6 | a row of zeros extrapolates to 0 |
| DifferenceExtrapolation.PredictIsAlternating | src/bin/d9p2.rs:3-10 | extrapolating backwards is the alternating sum of the first values of the rows of differences |
| DifferenceExtrapolation.Add | src/bin/d9p2.rs:3-10 | the entry-wise sum of two histories of the same length |
| DifferenceExtrapolation.PredictAdds | src/bin/d9p2.rs:3-10 | the backward extrapolation of a sum is the sum of the extrapolations |
| DifferenceExtrapolation.AlternatingAdds | src/bin/d9p2.rs:3-10 | the alternating sum is additive too |
| DifferenceExtrapolation.Arithmetic | src/bin/d9p2.rs:3-10 | an arithmetic sequence from `a` with step `d` |
| DifferenceExtrapolation.DiffsArithmetic | src/bin/d9p2.rs:8 | its differences are constant `d` |
| DifferenceExtrapolation.ArithmeticPredict | src/bin/d9p2.rs:3-10 | an arithmetic sequence of two values or more extrapolates back to `a - d` |
| DifferenceExtrapolation.ParseHistory | src/bin/d9p2.rs:17-19 | one value per word, or "not a number" |
| DifferenceExtrapolation.Solve | src/bin/d9p2.rs:12-23 | the sum succeeds exactly when every line parses; its only failure is "not a number" |
| DifferenceExtrapolationExamples.DiffsOf | src/bin/d9p2.rs:8 | differences given entry by entry are the differences |
| DifferenceExtrapolationExamples.FirstHistory | src/bin/d9p2.rs:38 | `0 3 6 9 12 15` extrapolates back to -3 |
| DifferenceExtrapolationExamples.SecondHistory | src/bin/d9p2.rs:39 | `1 3 6 10 15 21` extrapolates back to 0 |
| DifferenceExtrapolationExamples.ThirdHistory | src/bin/d9p2.rs:40 | `10 13 16 21 30 45` extrapolates back to 5 |
| DifferenceExtrapolationExamples.ExampleSum | src/bin/d9p2.rs:36-44 | the three histories sum to 2 |
| PipeLoop.Pos.Neighbors | src/bin/d10p1.rs:43-45 | up, down, left, right, in that order |
| PipeLoop.NeighborsAreUnitSteps | src/bin/d10p1.rs:15-45 | opposite moves cancel, the neighbours are the four positions at distance 1, and they are distinct |
| PipeLoop.TileFrom | src/bin/d10p1.rs:56-74 | a pipe connects two distinct neighbours; any other tile connects to itself twice |
| PipeLoop.PipeOpenings | src/bin/d10p1.rs:59-66 | each pipe glyph joins the two directions it draws |
| PipeLoop.ParseGrid | src/bin/d10p1.rs:77-89 | one tile per character, at its column and row, each keyed by its own position |
| PipeLoop.Parse | src/bin/d10p1.rs:77-89 | every tile is keyed by its own position |
| PipeLoop.FirstEntryFrom | src/bin/d10p1.rs:103-113 | the first neighbour from `i` on whose tile connects back to the start, if any |
| PipeLoop.FirstEntry | src/bin/d10p1.rs:103-113 | `None` exactly when no neighbour connects back to the start; otherwise the first that does |
| PipeLoop.NextTile | src/bin/d10p1.rs:117-122 | the first connected, unvisited tile of the world; the start tile when there is none |
| PipeLoop.TraceFrom | src/bin/d10p1.rs:115-127 | the visited set grows from the tiles visited so far and stays within the world |
| PipeLoop.TraceWithinWorld | src/bin/d10p1.rs:115-129 | the loop holds the start and the first tile and at most all the tiles, so the answer is at most half the tiles |
| PipeLoop.Trace | src/bin/d10p1.rs:115-127 | the `loop` visits what `TraceFrom` specifies |
| PipeLoop.Walk | src/bin/d10p1.rs:94-129 | "no starting tile found" exactly when no tile is `S`; otherwise the outcome of the walk from a start tile |
| PipeLoop.Solve | src/bin/d10p1.rs:91-130 | the same for the parsed puzzle |
| Seqs.TryMapOk | src/bin/d5p1.rs:101-108 | collecting `Result`s succeeds exactly when every item succeeds, item by item |
| Seqs.TryMapFirstError | src/bin/d5p1.rs:101-108 | a failure is the first failing item's |
| Seqs.ToMapKeys | src/bin/d8p1.rs:22-30 | collecting pairs into a map keeps exactly the keys listed |
| Seqs.ToMapLastWins | src/bin/d8p1.rs:22-30 | a key listed more than once keeps its last value |
| Seqs.FilterMembers | src/bin/d7p1.rs:47-52 | `filter` keeps exactly the items that pass |
| Seqs.FilterIndices | src/bin/d5p1.rs:8-11 | the positions `filter` takes are increasing, and they are exactly the positions whose item passes |
| Seqs.FilterInOrder | src/bin/d5p1.rs:8-11 | `filter` keeps the input's order: its result is the input at increasing positions, exactly those whose item passes |
| Seqs.SumBounds | src/bin/d1p1.rs:17 | a sum of values between 0 and a bound is at most the bound times their number |
| Text.SplitOnce | src/bin/d7p1.rs:23 | `None` exactly when the separator is missing; otherwise the text before its first occurrence and the rest |
| Text.Split | src/bin/d2p1.rs:15 | the pieces joined with the separator give the text back, and none contains it (which fixes the pieces for a separator that cannot overlap itself) |
| Text.JoinSnoc | src/bin/d2p1.rs:15 | joining one more piece appends the separator and the piece |
| Text.Lines | src/bin/d1p1.rs:4 | no line contains a newline; only the empty text has no lines |
| Text.LinesJoin | src/bin/d1p1.rs:4 | the lines joined by newlines give the text back, with its final newline if it had one |
| Text.Trim | src/bin/d7p1.rs:59 | no whitespace at either end |
| Text.TrimSlice | src/bin/d7p1.rs:59 | the trimmed text is a slice of the text with only whitespace before and after it |
| Text.SplitWhitespace | src/bin/d9p2.rs:17 | every word is non-empty and has no whitespace |
| Text.SplitWhitespaceWords | src/bin/d9p2.rs:17 | the text is the words in order with whitespace around them and at least one whitespace character between two words: the words are the maximal runs of non-whitespace |
| Text.ReplaceFirst | src/bin/d5p1.rs:6 | `replacen(…, 1)`: the text unchanged without an occurrence; otherwise the first occurrence (none starts earlier) replaced, the text before and after it kept |
| Text.ReplaceCharsAppend | src/bin/d8p1.rs:8 | `replace` with a character pattern works character by character: a listed character becomes the replacement, any other stays, and the text may be cut anywhere |
| Text.ReplaceCharsKeeps | src/bin/d2p1.rs:9 | every character of the result is an unlisted character of the text or comes from the replacement; a text without listed characters is left unchanged |
| Text.NoCharNotContained | src/bin/d2p1.rs:16 | a text without a character does not contain it as a pattern |
| Text.NoFirstCharNotContained | src/bin/d8p1.rs:7 | a text without the first character of a pattern does not contain the pattern |
| Text.ReplaceAbsent | src/bin/d8p1.rs:7 | replacing a pattern the text does not contain leaves the text unchanged |
| Wrappers.Expect | src/bin/d5p1.rs:114 | `expect` on `Some` gives the value; on `None` it fails with the message |

## Left out

- Reading the puzzle (`std::fs::read_to_string`, `aocd`'s `input!`), printing the answer, and `main`: the puzzle is a parameter.
- The `#[cfg(test)]` modules are not modelled as code. Their worked values are proved where they are small (the examples modules). The full example totals are not proved: 8 and 2286 (day 2), 4361 and 467835 (day 3), 6440 and 5905 (day 7), 6 (day 8 part 1 short example), 1235 for the four hands of `test_interpretation_sensitive_case` (`d7p1.rs:109-117`), and 8 for the pipe example of day 10 (`d10p1.rs:145-153`). Each would evaluate a whole solver on a literal puzzle, which the verifier cannot do within its resource bound.
- The examples that are proved start from hand-built data, not from the literal puzzle text of the tests. Parsing that text into the data is not proved:
  - `RangeMappingExamples.ExampleLeastLocation` proves 35 for `solve(puzzle)` (`d5p1.rs:153-190`), and the `Seed79`, `Seed14`, `Seed55` and `Seed13` lemmas prove each seed's location, on the hand-written stages `RangeMappingExamples.ExampleStages`.
  - `ScratchcardsExamples.ExampleTotal` proves 30 on the hand-written cards `ScratchcardsExamples.ExampleDeck`.
  - `DifferenceExtrapolationExamples.ExampleSum` proves 2 on the three hand-written history rows.
  - `NetworkWalkExamples.LongExample` (2 steps) and `MultiSourceWalkExamples.LongExample` (6) start from hand-written node maps.
- The `test_normalize` and `test_tokenize` values are not proved on their literal strings: `d2p1.rs:77-104`, `d2p2.rs:78-104`, `d4p2.rs:133-142`, `d5p1.rs:128-151`, `d8p1.rs:80-88` and `d8p2.rs:103-111`. Each `normalize` is covered by shape lemmas over every input. For day 8, `NetworkWalk.NormalizeNodeLine` also states the exact rewrite of a node line `X = (L, R)` to `X,L,R` for all labels without spaces, brackets, `=` or newlines; the test's multi-line input, with its trimmed outer lines, is not proved.
- CubeLimitsExamples.TwelveRedFit: starts from the normalized pieces `game 1`, `12 red`, `1 red` of `solve(PROBLEMATIC_PUZZLE) == 1` (`d2p1.rs:110-113`). It does not prove that `normalize` and `tokenize` turn the literal `Game 1: 12 red; 1 red` into those pieces, nor the sum over the single game.
- Day 6 (`d6p1.rs`, `d6p2.rs`) is not part of this model.
- Integer widths: the model uses unbounded integers. It does not model overflow of `u32`, `i32`, `i64` or `u128`, nor the parse failures of numbers too large for those types.
- `HashMap` iteration order: the model does not fix one. Results that depend on it are proved for every order: `CamelCards.LargestPermutation`, `GearSchematic.GetGears`, `NumberTheory.LcmUnique` and `PipeLoop.Walk`, which holds for any start tile.
- Strings are sequences of `char`. Unicode-aware behaviour of `to_lowercase`, `trim`, `split_whitespace` and `to_digit` is modelled for ASCII only. A `\r` before a newline stays in the line, where Rust's `lines` drops it.
- `NetworkWalk.Solve`, `MultiSourceWalk.Solve`: the `while` loop may not terminate on a network that never reaches the goal, so the walk takes a `fuel` bound and fails with "out of fuel" beyond it. `NetworkWalk.FollowFindsFirstGoal` shows that the bound does not change any answer it allows.
- `MultiSourceWalk.Solve` proves the least common multiple of the step counts. It does not claim this is the first step at which all walks stand on a `Z` label at once. That holds only on inputs whose walks are cyclic in the way the puzzle guarantees.
- `NumberTheory.Lcm`: requires one non-zero argument. The step counts folded into it are at least 1 (`MultiSourceWalk.StartCountPositive`), so the division by a zero `gcd` cannot arise.
- `Scratchcards.Solve`: requires distinct card ids. With a repeated id, `nextn` finds the first card with the id, so a later card can copy itself and the loop may never end.
- `CamelCards.Score`: the model proves the winnings of a ranking by the comparator. With distinct cards the ranking is unique (`CamelCards.RankingUnique`). For hands with the same cards, the model does not fix their order, where Rust's stable `sort_by` keeps the input order.
- `CamelCardsPlain.Solve`: ranks by the power as written, not the intended one (see Findings). An empty hand panics only when `sort_by` compares it, which the model states for two hands or more.
- `SpelledCalibration.LineValue`: proves that a line containing `one` gets a value. It proves digit preservation for every word, but it does not state each line's exact value.
- `CubeLimits.Solve`, `CubeMaxima.Solve`: state when the sum succeeds and where a failure comes from. The value is stated per game (`CubeLimits.GameValueMeaning`, `CubeMaxima.Minimums`), not as a closed sum.
- `RangeMapping.Solve`: has no contract of its own. Its parts carry the meaning: `RangeMapping.LeastLocation`, `RangeMapping.Location` and the parsers. With `split(' ')`, an empty seed list yields one empty word and fails to parse before `min` runs.
- `GearSchematic.EngineBuilder.ConsumeDigitBuffer`: the buffer only ever holds digits, so its failure path is stated but never taken by `GearSchematic.Build`.

## Findings

| source | as written | input that shows it | evidently intended | confidence | as-written member | corrected member |
|---|---|---|---|---|---|---|
| src/bin/d7p1.rs:47-52 | the second count is the largest count that differs from the largest, so a second pair is dropped | two pair `23432` and one pair `A23A4` both get power 21 | `23432 -> 22` as the comment at line 35 lists: the second of the sorted counts, as `d7p2.rs` computes it | not executed | CamelCardsPlain.KindPower (CamelCardsPlainExamples.TwoPairTiesOnePair) | CamelCardsPlain.IntendedKindPower (CamelCardsPlain.IntendedKindPowerMeaning, CamelCardsPlainExamples.IntendedTwoPairBeatsOnePair, CamelCardsPlain.SolveIntended) |
