# Advent of Code 2023, days 1 and 2, in Dafny

This project models the puzzle logic of two Rust programs and proves properties about it.

**Day 1 (calibration document).** Each line of the document yields its first and its last digit. A digit can be written as a character (`7`) or spelled out (`seven`). The two digits are written side by side and parsed back as a number. The numbers of all lines are then summed.

- `Calibration.ParseCalibrationDigit` is a method. Like the Rust loop, it walks the pieces of `line.split("")`, grows the processed prefix and runs the `else if` chain of `ends_with` checks.
- It is proved against two specification functions:
  - `LineDigits`, a fold over the same pieces;
  - `CharDigits`, a character-by-character reading in which every word check is independent.
- The code returns a list of digits that differs slightly from what a plain reading of the puzzle would suggest. Rust's `split("")` yields an empty piece before the characters and another after them. The empty piece at the end re-runs the word checks on the whole line. So a line that ends in a spelled word records that word twice: `LineDigits("one") == [1, 1]`.
- The repetition is always the last digit again, so the first and the last digit do not change. `BoundaryPiecesKeepFirstAndLast` proves this.

**Day 2 (cube game).**
- Each line `Game N: …` lists handfuls ("sets") of coloured cubes.
- A game is possible when no cube count exceeds the bag's limits of 12 red, 13 green and 14 blue.
- The minimum set of a game is the largest count shown per colour. Its power is the product of the three counts.
- A document's totals are:
  - the sum of the numbers of the possible games;
  - the sum of the powers of all games.

**Supporting modules.**
- `Decimal` models `str::parse::<u64>`: an optional `+`, ASCII digits, and at most 2^64 - 1. It also models `u64::to_string`.
- `Text` models `ends_with`, `split` on a character, Unicode `trim`, and `replace` with an empty replacement.
- `Seqs` holds the left folds used for the sums.
- `Wrappers` holds `Result` and a short-circuiting map. The map stands for collecting an iterator whose elements may panic.

Every place where the Rust code panics becomes an error value:
- `digits[0]` on a line without a digit;
- the `unwrap` of a parse;
- an unknown colour;
- a missing piece after a split.

## Model

| member | source | states |
|---|---|---|
| Calibration.ParseCalibrationDigit | rust/day-1/src/main.rs:41-78 | The result is the first and last digit pushed by the loop over the `split("")` pieces. It also equals the first and last digit of the character-by-character reading. A line without any digit gives the `NoDigitInLine` error where Rust panics on `digits[0]`. |
| Calibration.SpelledDigitFinds | rust/day-1/src/main.rs:53-71 | The `else if` chain yields a digit exactly when the prefix ends with one of the nine words. The digit is between 1 and 9, and the prefix ends with the word spelling it. |
| Calibration.LineDigits | rust/day-1/src/main.rs:42-72 | The digits pushed over the pieces of `split("")` are the per-character digits, followed by one more run of the word checks on the whole line (the trailing empty piece). |
| Calibration.WordRecordedWhereItEnds | rust/day-1/src/main.rs:51-71 | A word is recorded at the character that completes it, and nothing else is recorded there, even when it shares letters with an earlier word. |
| Calibration.BoundaryPiecesKeepFirstAndLast | rust/day-1/src/main.rs:42-77 | The boundary pieces change neither whether a line has a digit nor its first and last digit. |
| Calibration.EndWordIsLastDigit | rust/day-1/src/main.rs:51-71 | A word that ends the whole line was already recorded as the last digit of the per-character reading. |
| Calibration.ElseIfChainIsIndependent | rust/day-1/src/main.rs:53-71 | At most one of the nine words ends any prefix. So the `else if` chain records exactly what nine independent checks would. |
| Calibration.EndingWordsUnique | rust/day-1/src/main.rs:53-71 | When one word ends a prefix, none of the later words in the chain does. |
| Calibration.ChainFrom | rust/day-1/src/main.rs:53-71 | The chain from any position on yields the same digits as the independent checks from that position. |
| Calibration.CharDigitsInRange | rust/day-1/src/main.rs:47-71 | Every digit the per-character reading finds is between 0 and 9. |
| Calibration.DigitsInRange | rust/day-1/src/main.rs:44-71 | Every digit pushed into `digits` is between 0 and 9. |
| Calibration.NoDigitExactly | rust/day-1/src/main.rs:46-77 | A line yields no digit exactly when it has no ASCII digit character and contains none of the nine words. |
| Calibration.FirstAndLastLiteral | rust/day-1/src/main.rs:46-77 | In a line without spelled words, the result is the values of its first and its last digit characters. |
| Calibration.NoWordWithoutOpening | rust/day-1/src/main.rs:53-71 | A line in which no two neighbouring characters begin a word contains no word. |
| Calibration.CreateCalibrationNumber | rust/day-1/src/main.rs:80-85 | For two digits 0-9 the number is ten times the first plus the second. The only possible error is the failed parse. |
| Calibration.CreateCalibrationNumberJoins | rust/day-1/src/main.rs:80-85 | For any two numbers, the result is the number their decimal texts spell when written one after the other. It fails exactly when that exceeds a `u64`. |
| Calibration.ParseJoinedDigits | rust/day-1/src/main.rs:81-83 | Parsing the concatenated decimal texts of two numbers gives the joined value, or an error exactly when it exceeds a `u64`. |
| Calibration.SplitEmpty | rust/day-1/src/main.rs:42 | `line.split("")` gives two pieces more than the line has characters: an empty piece first and last, and in between one piece per character, holding that character, in order. |
| Calibration.SumCalibrationDigits | rust/day-1/src/main.rs:35-38 | The fold of `process_input` over the numbers, which the unused helper `sum_calibration_digits` (87-94) repeats. The result is the sum of the values, folded from 0, so no numbers give 0. It is at least every single number, and at most 99 per number when every number has two digits. |
| Calibration.LineNumber | rust/day-1/src/main.rs:30-39 | One line succeeds exactly when it yields a digit. Its number is ten times the first digit plus the last, at most 99. |
| Calibration.LineNumberMeaning | rust/day-1/src/main.rs:33-35 | Scanning a line and then creating its number satisfies `IsNumberOf` over the line's digits. So there is a number exactly when the line has a digit, otherwise the missing-digit error. The number is ten times the first digit plus the last, at most 99. |
| Calibration.ProcessInput | rust/day-1/src/main.rs:30-39 | The document succeeds exactly when every line has a digit, and otherwise reports `NoDigitInLine`. The total is the sum of the line values, at most 99 per line. An empty document gives 0. |
| Calibration.ProcessInputOrderIndependent | rust/day-1/src/main.rs:30-39 | Reordering the lines does not change the result. |
| Calibration.ProcessInputAppend | rust/day-1/src/main.rs:30-39 | Two documents put one after the other give the sum of their totals. |
| Calibration.ExampleTwoDigits | rust/day-1/src/main.rs:121-132 | "1abc2" gives (1, 2). |
| Calibration.ExampleOneDigit | rust/day-1/src/main.rs:134-145 | "a7bc" gives (7, 7). |
| Calibration.ExampleManyDigits | rust/day-1/src/main.rs:147-157 | "a1b2c3d4e5f" gives (1, 5). |
| Calibration.ExampleSpelledOne | rust/day-1/src/main.rs:159-169 | "one" gives (1, 1). The loop pushes 1 twice: once at the letter e, once at the trailing empty piece. |
| Calibration.ExampleOverlappingWords | rust/day-1/src/main.rs:53-71 | In "oneight" both overlapping words are found. The trailing empty piece finds the 8 once more. |
| Calibration.ExampleCreateNumber | rust/day-1/src/main.rs:171-182 | Digits (1, 9) make 19. |
| CubeGame.ColorNamed | rust/day-2/src/main.rs:163 | A word names a colour exactly when it is "red", "green" or "blue". |
| CubeGame.ParseCube | rust/day-2/src/main.rs:157-165 | A parsed cube's count is the parse of the first word of the trimmed text and fits in a `u64`. Its colour is the one the second word names. A blank cube text fails on its count with an empty-input error. |
| CubeGame.ParseUnknownColor | rust/day-2/src/main.rs:163 | A cube with a valid `u64` count, written without a leading zero or '+', and a colour word that is not "red", "green" or "blue" is refused with that word, where Rust panics. |
| CubeGame.ParseSet | rust/day-2/src/main.rs:148-155 | A parsed set has one cube per ","-separated piece, and every count fits in a `u64`. |
| CubeGame.ParseGame | rust/day-2/src/main.rs:136-146 | A parsed game has a `u64` number and at least one set, and every set has a cube. A line without ":" is an error. |
| CubeGame.ParseFormattedCube | rust/day-2/src/main.rs:157-165 | Parsing " N colour" gives back the cube. |
| CubeGame.ParseFormattedSet | rust/day-2/src/main.rs:148-155 | Parsing the formatted cubes joined by "," gives back the set. |
| CubeGame.ParseFormattedGame | rust/day-2/src/main.rs:136-146 | Parsing "Game N:" followed by the formatted sets joined by ";" gives back the game. |
| CubeGame.IsSetImpossible | rust/day-2/src/main.rs:91-101 | A set is impossible exactly when one of its cubes exceeds its colour's limit. |
| CubeGame.IsGamePossible | rust/day-2/src/main.rs:84-89 | A game is possible exactly when none of its sets is impossible, so a game without sets is possible. |
| CubeGame.PossibleIffEveryCubeFits | rust/day-2/src/main.rs:84-101 | A game is possible exactly when every cube it shows is within its colour's limit. |
| CubeGame.SingleCubeGame | rust/day-2/src/main.rs:84-101 | A game of one cube is possible exactly when that cube is within its limit. |
| CubeGame.LimitBoundaries | rust/day-2/src/main.rs:397-515 | 12 red, 13 green and 14 blue are possible. 13 red, 14 green and 15 blue are not. |
| CubeGame.AllCubesMembers | rust/day-2/src/main.rs:104-105 | The flattened cubes are exactly the cubes of the game's sets. |
| CubeGame.MaxCountIsLargest | rust/day-2/src/main.rs:104-123 | The `filter`/`max_by_key`/`or_else(0)` chain of each colour gives at least every count of that colour. The result is 0 or one of those counts. |
| CubeGame.MaximumUnique | rust/day-2/src/main.rs:103-130 | The largest count of a colour is unique. |
| CubeGame.DetermineMinimumCubes | rust/day-2/src/main.rs:103-130 | The three cubes are red, green and blue, in that order. |
| CubeGame.MinimumIsMaximum | rust/day-2/src/main.rs:103-130 | Each count in the minimum set is the largest count of that colour over all sets. It is 0 when the colour is never shown. |
| CubeGame.PossibleIffMinimumWithinLimits | rust/day-2/src/main.rs:84-130 | A game is possible exactly when its minimum set is within the limits. |
| CubeGame.CalcSetPower | rust/day-2/src/main.rs:132-134 | The power is 0 exactly when one of the three counts is 0. Otherwise it is at least each of the three counts. |
| CubeGame.PowerZeroIffColorNeverShown | rust/day-2/src/main.rs:103-134 | A game's power is 0 exactly when some colour only ever shows count 0. |
| CubeGame.IdSum | rust/day-2/src/main.rs:40-55 | The id sum adds the numbers of the possible games. It never exceeds the sum of all numbers. |
| CubeGame.PowerSum | rust/day-2/src/main.rs:57-76 | The power sum is the sum of the games' powers, folded from 0. It is at least the power of every game, and 0 exactly when every game's power is 0. |
| CubeGame.TotalsOrderIndependent | rust/day-2/src/main.rs:40-75 | Reordering the games changes neither the id sum nor the power sum. |
| CubeGame.ProcessInput | rust/day-2/src/main.rs:31-82 | A document succeeds exactly when every line parses. Otherwise the error is the first failing line's error. The totals are the per-line id and power sums. |
| CubeGame.ProcessFormattedDocument | rust/day-2/src/main.rs:31-82 | A document of formatted games gives the totals of those games. |
| CubeGame.ExampleSingleColorMinimum | rust/day-2/src/main.rs:518-589 | Games showing only 10 red, only 15 green or only 20 blue have those as their minimum sets. |
| CubeGame.ExampleMinimumGame1 | rust/day-2/src/main.rs:590-604 | The first sample game needs 4 red, 2 green and 6 blue. |
| CubeGame.ExampleMinimumGame2 | rust/day-2/src/main.rs:605-619 | The second sample game needs 1 red, 3 green and 4 blue. |
| CubeGame.ExampleMinimumGame3 | rust/day-2/src/main.rs:620-634 | The third sample game needs 20 red, 13 green and 6 blue. |
| CubeGame.ExampleMinimumGame4 | rust/day-2/src/main.rs:635-649 | The fourth sample game needs 14 red, 3 green and 15 blue. |
| CubeGame.ExampleMinimumGame5 | rust/day-2/src/main.rs:650-664 | The fifth sample game needs 6 red, 3 green and 2 blue. |
| CubeGame.ExampleSamplePowers | rust/day-2/src/main.rs:665-737 | The five sample minimum sets have powers 48, 12, 1560, 630 and 36. |
| CubeGame.ExampleSampleScores | rust/day-2/src/main.rs:590-737 | Of the five games of the minimum-set and power tests, games 1, 2 and 5 are possible and games 3 and 4 are not. The five powers are as above. |
| CubeGame.ExampleSampleDocument | rust/day-2/src/main.rs:347-361 | Those five games total an id sum of 8 and a power sum of 2286, the totals the `process_input` test expects of its input file. |
| CubeGame.ExampleSampleLines | rust/day-2/src/main.rs:347-361 | Those five games, written as lines and processed, total 8 and 2286. |
| CubeGame.ExampleParseGame | rust/day-2/src/main.rs:363-394 | The line of sample game 3 parses to game 3, with its sets and cubes in order. |
| Decimal.ParseU64 | rust/day-1/src/main.rs:47 | The text parses exactly when it is an optional "+" followed by at least one ASCII digit, and the value is at most 2^64 - 1. The result is that value. Empty text is an `Empty` error. |
| Decimal.ToDecimal | rust/day-1/src/main.rs:81 | The text is non-empty ASCII digits without a leading zero, and its value is the number. |
| Decimal.ParseToDecimal | rust/day-1/src/main.rs:81-83 | Parsing a `u64`'s decimal text gives the number back. |
| Decimal.ValueAppend | rust/day-1/src/main.rs:81-83 | The value of two digit texts written one after the other is the first shifted left by the second's length plus the second. |
| Text.EndsWithSuffix | rust/day-1/src/main.rs:53 | `ends_with` holds exactly when the suffix is the tail of the text. |
| Text.Split | rust/day-2/src/main.rs:137 | Splitting gives at least one piece. No piece holds the separator, and joining the pieces with it gives back the text. |
| Text.SplitNoSeparatorLength | rust/day-2/src/main.rs:137-141 | A text that contains the separator splits into at least two pieces, so `splits[1]` exists for a line with a ":". |
| Text.SplitJoin | rust/day-2/src/main.rs:150-151 | Splitting pieces joined by a separator they do not contain gives back the pieces. |
| Text.TrimPadded | rust/day-2/src/main.rs:158 | Trimming removes leading whitespace and keeps text that neither begins nor ends with whitespace. |
| Text.TrimStart | rust/day-2/src/main.rs:158 | The result is a tail of the text. Everything removed is whitespace, and the result does not begin with whitespace. |
| Text.TrimEnd | rust/day-2/src/main.rs:158 | The result is a head of the text. Everything removed is whitespace, and the result does not end with whitespace. |
| Text.RemoveAllLeading | rust/day-2/src/main.rs:140 | Removing "Game " from "Game " followed by text without a "G" leaves that text. |
| Seqs.FilterKeeps | rust/day-2/src/main.rs:84-101 | The filter keeps exactly the elements that satisfy the predicate, and no more elements than it was given. So the collected vector is empty exactly when no element satisfies it. |
| Seqs.SumByPermutation | rust/day-2/src/main.rs:48-75 | A left-fold sum does not depend on the order of the elements. |
| Seqs.SumByAppend | rust/day-1/src/main.rs:36-38 | The sum over two sequences put together is the sum of the two sums. |
| Wrappers.TryMap | rust/day-2/src/main.rs:37 | Collecting succeeds exactly when every element does. The values keep their order, and a failure reports the first failing element. |

## Left out

- `main` and `read_lines` of both days are left out. They open files, read lines and print. The model starts from the lines as a sequence of strings.
- The sample-file tests of day 1 (`test_process_test_input` and its part-two twin) are left out, because the sample files are not part of this model. Their totals 142 and 299 are therefore not stated.
- The input file of day 2's `process_input` test (`test-input.txt`) is not part of this model. The examples take the five games of the minimum-set and power tests as its lines. Those games match the puzzle's sample and total the 8 and 2286 the test expects, but that the file holds exactly these lines is not established.
- Day 2's timing instrumentation is left out: the `timed` wrapper, the thread-local timing vectors, `reset_global_times` and `report_global_times`. It measures the clock and does not affect the results.
- Panics are not modelled as aborting the program. Each becomes an error value that stops the computation at the same point.
- Calibration.SumCalibrationDigits: does not model `u64` overflow of the running sum, which would panic in a debug build. The sum is unbounded.
- Calibration.ProcessInput: does not model `u64` overflow of the total, for the same reason.
- CubeGame.CalcSetPower: does not model `u64` overflow of the product. The power is unbounded.
- CubeGame.IdSum: does not model `u64` overflow of the sum of the game numbers.
- CubeGame.PowerSum: does not model `u64` overflow of the sum of the powers.
- CubeGame.ProcessInput: does not model `u64` overflow of the two totals.
- CubeGame.ExampleParseGame: states the parse test through `FormatGame(Game3)`, which reproduces the test's line, rather than through the literal string. `ParseFormattedGame` covers every such line.
- The unreachable `panic!("Unknown color")` branch in `is_set_impossible` has no counterpart. The colour type has only three values.
- `max_by_key` may return a different one of several equal maxima. Only the count is used, so the model keeps the largest count.
