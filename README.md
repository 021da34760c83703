# beflash: the output scanner, summary parser and summary renderer

beflash runs behat feature files in parallel. For each feature it starts
`./bin/behat -f progress <feature>` and reads that process's standard output.
This model covers the sequential core of that work:

- **Scanning one process's output** (`proccessOutput`).
  - The bytes up to the first two newlines in a row are progress glyphs.
  - `.`, `-`, `F` and `U` are echoed in green, cyan, red and yellow, and each one is counted in `stepsInLine`.
  - Before a glyph, a count marker " N\n" is printed when the N glyphs counted so far are a positive multiple of seventy.
  - After the two newlines, every complete line is handed, in order, to the summary parser.
- **Finding a number** (`parseSuiteInfo`): the leftmost `<digits> <keyword>` on a line.
- **Adding up a summary line** (`parseTestSummary`) into eight counters: scenarios and steps, each with passed, failed and skipped.
- **Rendering the counters** (`summary.String`), with the ANSI colour wrappers of colors.go.

Files and modules:

- `bytes.dfy` (`Bytes`): bytes, decimal numerals, and the complete lines of a byte string.
- `colors.dfy` (`Colors`): `green`, `red`, `cyan` and `yellow`.
- `suite_info.dfy` (`SuiteInfo`): `parseSuiteInfo`.
  - The regular-expression search is `Find`, a search over the line.
  - `MatchesAt` and `Leftmost` are the declarative statement of "the leftmost digit run followed by a space and the keyword".
- `line_shape.dfy` (`LineShape`): how the search behaves on a line built from numbers and clean text, text in which no match can start (it may hold digits, as ESC "[32m" does). The read-back proofs use it.
- `suite_summary.dfy` (`SuiteSummary`): the counters, as the class `Summary` whose methods update its fields in place, and `parseTestSummary` and `String`.
- `runner.dfy` (`Runner`): the class `TestRunner`.
  - Its fields: `stepsInLine`, the `console` it writes to, and its `summaryInfo`.
  - Its methods: the byte loop of `proccessOutput`, and `run` taken one stream after another.
- `example.dfy` (`Example`): one output of behat's progress format read end to end: seven glyphs, the blank line, and the lines "5 scenarios (3 passed, 2 failed)" and "7 steps (5 passed, 1 failed, 1 skipped)".

Go's `fmt.Print` to standard output is modelled as appending to the `console` field. The output of a behat process is a finite byte sequence that ends at end of file.

The marker is a space, the count and a newline. It is printed before the glyph that follows a positive multiple of seventy glyphs, so 140 dots print one marker, " 70\n" (main.go:145-147). Every complete line after the blank line goes to the summary parser (main.go:132-140).

## Model

| member | source | states |
|---|---|---|
| SuiteInfo.ParseSuiteInfoSpec | main.go:208-217 | parseSuiteInfo reports `(n, true)` exactly when some digit run followed by a space and the keyword occurs in the line. Then `n` is the value of the digits of the leftmost such match. Otherwise it reports `(0, false)`. |
| SuiteInfo.FindSpec | main.go:209-214 | The search over the line reports a match with no match starting before it, or reports nothing when no match exists. |
| SuiteInfo.FindFound | main.go:209-210 | A reported position is a match, and no match starts between the starting point and it. |
| SuiteInfo.FindMissing | main.go:210-211 | When the search reports nothing, no match starts at or after the starting point. |
| SuiteInfo.LeftmostUnique | main.go:210 | The leftmost match is unique, so the reported number is determined by the line. |
| SuiteInfo.LeftmostIsWholeRun | main.go:209-213 | The leftmost match begins where its digit run begins, so `Atoi` gets the whole number, not a tail of it. |
| SuiteInfo.EndOfRun | main.go:209 | A match's digits are the whole digit run from where it starts: the space comes exactly at the run's end. |
| Bytes.DecimalRoundTrip | main.go:213 | Reading a decimal numeral back (`strconv.Atoi` on a digit run) gives the number it was written from (`%d`). |
| SuiteSummary.LineDeltaSpec | main.go:164-206 | The scenario counters move only on a line matching "scenario", and the step counters only on one matching "step". A passed, failed or skipped clause the line lacks adds nothing. On a line matching both nouns, both sets of sub-counters take the same numbers. |
| SuiteSummary.OtherLinesIgnored | main.go:164-206 | A line matching neither "scenario" nor "step" adds zero to all eight counters. |
| SuiteSummary.Summary.ParseTestSummary | main.go:164-206 | The new counters are the old ones plus what the line states. No counter decreases. |
| SuiteSummary.Summary.AddScenarioInfo | main.go:165-184 | The four scenario counters grow by what the line states for scenarios. The step counters are unchanged. |
| SuiteSummary.Summary.AddStepInfo | main.go:186-205 | The four step counters grow by what the line states for steps. The scenario counters are unchanged. |
| SuiteSummary.Summary.constructor | main.go:64-73 | All eight counters start at zero. |
| SuiteSummary.TotalAppend | main.go:167-203 | The counters added by two runs of lines, one after the other, are the sum of what each run adds. |
| SuiteSummary.TotalPermutation | main.go:167-203 | The totals over a set of lines do not depend on the order the lines arrive in. |
| SuiteSummary.Render | main.go:233-251 | `summary.String` of some counters, read back line by line with the summary parser, gives those counters again. |
| SuiteSummary.RenderRoundTrip | main.go:233-251 | Parsing both rendered lines gives back all eight counters. This holds whatever they are, including zero passed, and absent failed and skipped clauses read as zero. |
| SuiteSummary.ScenarioLineRead | main.go:234-241 | The rendered scenario line is read as its own four numbers, and as nothing for the step counters. |
| SuiteSummary.StepLineRead | main.go:242-249 | The rendered step line is read as its own four numbers, and as nothing for the scenario counters. |
| SuiteSummary.ReadSummaryLine | main.go:233-251 | Which number the parser finds for each keyword on a rendered line. The failed and skipped clauses are found only when their number is positive. |
| SuiteSummary.SummaryLineIsLine | main.go:241 | A rendered summary line ends in its only newline. |
| Colors.Green | colors.go:7-9 | `green(s)` decodes to the green colour and `s`. |
| Colors.Red | colors.go:11-13 | `red(s)` decodes to the red colour and `s`. |
| Colors.Cyan | colors.go:15-17 | `cyan(s)` decodes to the cyan colour and `s`. |
| Colors.Yellow | colors.go:19-21 | `yellow(s)` decodes to the yellow colour and `s`. |
| Colors.WrapperBytes | colors.go:7-21 | The exact bytes: ESC "[32m", "[31m", "[36m" or "[33m", then `s`, then ESC "[0m". |
| Colors.PaintParts | colors.go:7-21 | Every wrapper is a 5-byte prefix (ESC, '[', the two-digit code, 'm'), then `s` unchanged, then the 4-byte reset. |
| Colors.Paint | colors.go:7-21 | A wrapped text is 9 bytes longer than the text. |
| Colors.UnpaintPaint | colors.go:7-21 | Splitting a wrapped text gives back its colour and its text. |
| Colors.PaintInjective | colors.go:7-21 | Two wrapped texts are equal only when their colours and texts are. |
| Colors.WrappersDistinct | colors.go:8-20 | The four wrappers give pairwise different results for the same text. |
| Runner.TestRunner.constructor | main.go:58-75 | A new runner has counted no glyph, has written nothing, and its summary is all zeros. |
| Runner.TestRunner.ProcessOutput | main.go:114-161 | After one process's output: `stepsInLine` has grown by the number of glyphs before the first two consecutive newlines. The console has the echo of those bytes appended. The counters have grown by the totals of the complete lines after them. |
| Runner.TestRunner.ScanGlyphs | main.go:121-151 | The byte loop stops at the first two newlines in a row, or at the end of the input. Every byte before that point is echoed and counted. |
| Runner.TestRunner.EchoByte | main.go:143-151 | A glyph is printed in its colour, after the marker when one is due, and counted. Any other byte prints nothing and leaves the count unchanged. |
| Runner.TestRunner.ReadSummaryLines | main.go:132-140 | The counters grow by the totals of every complete line from the given position on, in order. |
| Runner.TestRunner.Run | main.go:85-92 | Over several outputs, the glyph count and the counters grow by the sums over the outputs. |
| Runner.EchoSpec | main.go:115-120 | A byte prints something exactly when it is one of `. - F U`. The marker comes first exactly when the glyphs so far are a positive multiple of seventy. The output ends with the glyph in its colour. |
| Runner.FirstBlankSpec | main.go:125-133 | The scanner's stopping point holds two newlines in a row, and no earlier position does. |
| Runner.NoBlankYet | main.go:128-132 | A newline not followed by another does not end the glyphs. |
| Runner.SplitAtBlank | main.go:125-141 | The first blank line splits a stream into the glyphs before it and the summary lines after it. |
| Runner.NonGlyphsSilent | main.go:143-151 | Bytes other than the four glyphs neither print nor count. |
| Runner.AllGlyphs | main.go:143-151 | A run of glyphs counts every byte. |
| Bytes.LinesPartialTail | main.go:134-138 | Bytes after the last newline are not read as a line. |
| Bytes.LinesCons | main.go:135 | A newline-terminated line followed by more bytes is the first line read. |
| Runner.ProgressPrefix | main.go:114-161 | What reading a prefix prints is a prefix of what reading the whole prints. |
| Runner.MarkerCount | main.go:145-147 | Exactly one marker is printed for every positive multiple of seventy that the glyph count passes. |
| Runner.SpacesAreMarkers | main.go:145-148 | Every space printed belongs to a marker. |
| Runner.MarkerBefore | main.go:145-148 | When the glyphs before a glyph are a positive multiple of seventy, that glyph is printed right after the marker. |
| Runner.MarkerInDots | main.go:145-148 | In a run of dots, the marker for `n` dots comes between dot `n` and dot `n + 1`. |
| Runner.MarkerSeventy | main.go:146 | The marker after seventy glyphs is " 70\n". |
| Runner.HundredFortyDots | main.go:145-147 | 140 dots print exactly one marker. |
| Runner.HundredFortyDotsMarker | main.go:145-148 | That marker, " 70\n", follows the seventieth dot and comes before the seventy-first. |
| Runner.Multiple70Mod | main.go:145 | Counting down by seventy agrees with `% 70 == 0`. |
| SuiteSummary.Counters | main.go:30-40 | The eight counters of the `summary` struct, as natural numbers. Runner.TestRunner.constructor states that they start at zero. |
| Bytes.Decimal | main.go:146 | Go's `%d` of a natural number: a non-empty run of digits, most significant first. DecimalRoundTrip states that `DigitsValue` reads it back; the same numerals are written at main.go:234-247. |
| Bytes.DigitsValue | main.go:213 | `strconv.Atoi` of a run of digits. DecimalRoundTrip states that it inverts `Decimal`. |
| Runner.Marker | main.go:146 | `Printf(" %d\n")`: at least three bytes, a space, the count and a newline. MarkerSeventy gives the bytes for seventy. |
| Runner.Due | main.go:145 | The marker when the count is a positive multiple of seventy, otherwise nothing. EchoSpec states when it leads a glyph's output, and Multiple70Mod ties the test to `% 70 == 0`. |
| Runner.GlyphPart | main.go:125-141 | The bytes before the first two newlines in a row. SplitAtBlank states the split, and ProcessOutput counts and echoes exactly these bytes. |
| Runner.SummaryPart | main.go:125-141 | The bytes after the first two newlines in a row, or nothing when there are none. SplitAtBlank states the split, and ProcessOutput parses exactly its complete lines. |
| SuiteSummary.Total | main.go:134-140 | What one `parseTestSummary` call per line adds, line after line. TotalAppend and TotalPermutation state that it is additive and does not depend on line order. |
| SuiteInfo.ParseSuiteInfo | main.go:208-217 | parseSuiteInfo as the search `Find` followed by reading the digits. ParseSuiteInfoSpec states its contract: `(n, true)` exactly when a match exists, with `n` from the leftmost match, and `(0, false)` otherwise. |
| SuiteInfo.Find | main.go:209-210 | The search `re.FindString` does over the line. FindSpec, FindFound and FindMissing state what it reports. |
| SuiteSummary.LineDelta | main.go:164-206 | What one call of parseTestSummary adds to the eight counters. LineDeltaSpec and OtherLinesIgnored state which counters move on which lines. |
| SuiteSummary.SummaryLine | main.go:233-251 | One rendered line of `summary.String`. ReadSummaryLine, ScenarioLineRead, StepLineRead and SummaryLineIsLine state how the parser reads it back. |
| SuiteSummary.Summary.String | main.go:233-251 | The rendered summary, read back line by line with the summary parser, gives the summary's own counters again. |
| Runner.GlyphColor | main.go:115-120 | colorMap: `.` green, `-` cyan, `F` red, `U` yellow, nothing for other bytes. EchoSpec states what each byte then prints. |
| Runner.Echo | main.go:143-151 | What reading one byte prints. EchoSpec states its contract: output only for a glyph, the marker first exactly when one is due, the glyph last in its colour. |
| Runner.Progress | main.go:143-151 | What reading a run of bytes prints. ProgressPrefix, MarkerCount, MarkersFromZero and SpacesAreMarkers state its properties. |
| Runner.FirstBlank | main.go:125-133 | The scanner's stopping point lies within the stream. FirstBlankSpec states that it is the first place with two newlines in a row. |
| Bytes.Lines | main.go:134-140 | The lines repeated `ReadBytes('\n')` calls return. LinesCons and LinesPartialTail state that each complete line is read in order and a trailing partial line is dropped. |
| Runner.MarkersFromZero | main.go:145-147 | From a fresh count, `N` glyphs print `(N - 1) / 70` markers, and none when `N` is zero. |
| Runner.StreamsTotalLines | main.go:85-92 | The totals over several outputs are the totals of all their summary lines taken together. |
| Runner.StreamsTotalAppend | main.go:85-92 | The totals over two runs of outputs, one after the other, add up. |
| Runner.StreamsTotalPermutation | main.go:85-92 | The totals over several outputs do not depend on the order the outputs are read in. |
| Example.ScenarioMatches | main.go:208-217 | On the pieces of "5 scenarios (3 passed, 2 failed)", the first number whose text starts with the keyword is 5 for "scenario", 3 for "passed" and 2 for "failed"; there is none for "step" or "skipped". ScenarioLineCounts carries this to the search through ParsePieces. |
| Example.StepMatches | main.go:208-217 | On the pieces of "7 steps (5 passed, 1 failed, 1 skipped)", the first number whose text starts with the keyword is 7 for "step", 5 for "passed", 1 for "failed" and 1 for "skipped"; there is none for "scenario". StepLineCounts carries this to the search through ParsePieces. |
| Example.ScenarioLineCounts | main.go:164-184 | The scenario line adds five scenarios, three passed and two failed, and nothing to the step counters. |
| Example.StepLineCounts | main.go:186-205 | The step line adds seven steps, five passed, one failed and one skipped, and nothing to the scenario counters. |
| Example.TwoLines | main.go:134-140 | Two newline-terminated lines are read as exactly those two lines. |
| Example.StreamGen | main.go:125-140 | Glyphs without a newline, a blank line and two lines: the glyphs are what the scanner reads, and the two lines are all the summary parser sees. |
| Example.GlyphsCounted | main.go:143-151 | "....F.." holds no newline and counts as seven steps. |
| Example.ExampleStream | main.go:114-206 | On the example output, seven glyphs are counted and the counters grow by 5/3/2/0 scenarios and 7/5/1/1 steps. |
| Example.ExampleNoMarker | main.go:145-147 | Seven glyphs from a fresh count print no marker. |

## Left out

- Goroutines, the `sync.WaitGroup`, the semaphore channel and the mutexes (main.go:20-28, 85-112, 144-150, 166-203) are left out. They exist for concurrency.
  - One runner reads the outputs one after another.
  - Each locked block is one atomic step.
  - The interleaving of several processes' glyphs on the console is therefore not modelled.
- Process spawning is left out because it is operating-system I/O. This covers `exec.Command`, `StdoutPipe`, `Start`, `Wait`, `log.Fatal`, and the `errors` slice filled on a nonzero exit (main.go:94-112).
- Read errors other than end of file, and their logging (main.go:156-158), are left out. The input is a finite byte sequence that ends at end of file.
- `strconv.Atoi` overflow on very long digit runs (main.go:213) is not modelled: Dafny integers are unbounded, and for the same reason the Go `int` counters never overflow in the model.
- `features()`, the directory walk (main.go:219-231), is left out because it is filesystem I/O.
- `main`, `init`, the flags, the timing, and the printing done by the `summary()` method (main.go:42-56, 77-83) are console and command-line wiring.
- config.go is not part of this model. It only checks paths with `os.Stat` and registers flags.
- Runner.TestRunner.Run: `run` starts the processes concurrently. The model reads their outputs in sequence, and its contract states the glyph count and the counters after all of them; the console text, which depends on the interleaving, is left unstated.
  - The model assumes each output is read to end of file before `run` returns. The source does not wait for that.
  - `proccessOutput` runs in a goroutine of its own (main.go:101). `executeTest` calls `wg.Done()` as soon as `behat.Wait()` returns (main.go:106-111), and nothing waits for the reader.
  - So `run` can return at `wg.Wait()` (main.go:91), and the summary can be printed (main.go:54), before every summary line has been parsed.
  - `Wait` also closes the pipe. A read still in progress can then fail with an error other than end of file and stop (main.go:156-158), and the lines after it are lost.
  - In the source, the counters can therefore fall short of the sums the contract states. That race is not modelled.
