# harviz timing breakdown, modelled in Dafny

harviz prints the entries of an HTTP Archive (HAR) file in a terminal. Each
entry gets a header line, a proportional bar of its timing phases, a summary
table of the phases and, in the standard style, request and response size
sections. This project models the heart of that printer, `printTimings` in
`src/entry.ts`, and the pieces of `print` around it. It models:

- the total, taken with an unseeded `reduce`;
- which phases are shown, and in which order;
- the two-decimal values and percentages, and the segment widths taken from
  the printed percentages;
- the count-down loop that draws each bar segment;
- the summary rows, with their duration column padded to a common width;
- the status colour, the header line and which sections each style prints;
- the case-insensitive `content-encoding` lookup.

Modules:

- `JsNumbers`: the JavaScript number operations the code relies on, over
  exact reals: `Math.round`, `Math.ceil`, `toFixed(2)`, `Number(...)` of
  what `toFixed` prints, `padStart` and `String(n)`.
- `Timings`: the HAR `timings` object (its properties in the order
  `Object.values` lists them), the reduce, the `|| -1` and `> 0` filter, and
  the phase table (names, abbreviations, order).
- `Layout`: the row descriptors handed to the layout writer, and the writer
  itself as a class `Ui` whose `Div` appends one row.
- `Bar`: one segment, the loop that builds it, and the bar as the
  concatenation of the segments.
- `Breakdown`: the first loop of `printTimings` (`output`, `progress`,
  `maxMeasurementLength`), the summary rows, and `printTimings` itself as a
  method on `Ui`, proved against the function `TimingRows`.
- `Report`: `print`, `printRequest` and `printResponse`, proved against the
  function `Report`.
- `Findings`: two defects of the total as written, and the corrected total
  with its proved properties.

What the breakdown is evidently meant to show is each phase's share of the
request's time in a bar of 80 characters, every phase listed. Where the code
departs from that, the model follows the code:

- `wait` and `receive` are dropped like every other phase when they are not
  positive (src/entry.ts:150-158), although HAR 1.2 requires `send`,
  `wait` and `receive` in every entry.
- The total is the unseeded `reduce` over every value of the object
  (src/entry.ts:144-146), not the sum of the shown phases. Keys that are
  never shown, such as `_blocked_queueing`, count in it too, so the shown
  percentages can add up to well under 100.
- A zero total with a shown phase does not give an empty bar. It gives
  infinite widths (see Findings).
- The width is taken from the printed two-decimal percentage, not from the
  raw fraction (src/entry.ts:175-179). The printed percentages themselves
  can add up to more than 100 even with a total that is the sum of the
  values: `{ wait: 24690, receive: 175310 }` prints 12.35% and 87.66%
  (`Findings.PrintedOver100`).
- Rounding alone takes the bar past 80 characters, with no negative value
  involved: `{ blocked: 1, wait: 1, receive: 1 }` draws three segments of
  26 characters and a '|' each, 81 in all (`Findings.RoundingOverflows`).
  For a non-negative first value, 80 + n/2 characters for n shown phases is
  the bound the code keeps (`Findings.CorrectedBarFits` with
  `Findings.CorrectedTotalAgrees`); with a negative first value it is not
  (`Findings.AsWrittenBarOverflows`).
- The abbreviation's position comes from the unrounded width
  (src/entry.ts:186): width 2.4 draws `w-|`, not `-w|`, the midpoint of the
  two characters drawn (`Bar.MidpointOfUnroundedWidth`).
- The `total time` row shows the entry's `time`, not the computed total.
- `time` takes no part in `maxMeasurementLength` (src/entry.ts:160-167), yet
  the `total time` value is padded to it (src/entry.ts:232). `time` is
  usually the largest value, so its cell can be wider than the phase column:
  with `{ wait: 80, receive: 30 }` and `time` 115 the column is 5 characters
  wide and `115.00` is 6 (`Findings.TimeWiderThanColumn`).

## Model

| member | source | states |
|---|---|---|
| JsNumbers.Round | src/entry.ts:185 | `Math.round(x)` is the integer within half a unit of `x`, a half rounded up |
| JsNumbers.Ceil | src/entry.ts:186 | `Math.ceil(x)` is the least integer not below `x` |
| JsNumbers.ToFixed2 | src/entry.ts:162-163 | `toFixed(2)` prints a minus sign exactly for negative numbers, then digits, a point and exactly two decimals |
| JsNumbers.NumberOf | src/entry.ts:178 | `Number` of the empty string is 0, of a lone `-` or `.` is `NaN`; a non-zero number read back is negative exactly after a minus sign. The strings `toFixed(2)` prints are read back exactly (`JsNumbers.NumberOfToFixed2`) |
| JsNumbers.NumberOfBarePoint | src/entry.ts:178 | a point may end or start the digits: `Number("12.")` is 12 and `Number("-.5")` is -0.5 |
| JsNumbers.Round2 | src/entry.ts:162-163 | the value `toFixed(2)` prints is within 0.005 of `x`, and not negative for `x >= 0` |
| JsNumbers.NumberOfToFixed2 | src/entry.ts:162-178 | `Number(x.toFixed(2))` reads back exactly `x` rounded to two decimals |
| JsNumbers.PadStart | src/entry.ts:216-218 | `padStart(n)` gives `max(len, n)` characters: spaces, then the string unchanged, which is never cut |
| Timings.Values | src/entry.ts:144 | `Object.values` lists every property's value, in order |
| Timings.Get | src/entry.ts:151-157 | a property read is absent exactly when no property has the key, and otherwise returns the value of a property with that key |
| Timings.OrMinusOneTruthy | src/entry.ts:151-155 | `v \|\| -1` never yields 0: a value other than 0 passes through, a missing or zero value becomes -1, and the result is positive exactly when the value read is |
| Timings.Total | src/entry.ts:144-146 | the unseeded `reduce` throws exactly on an empty object, and the total is never below the first value |
| Timings.Sorted | src/entry.ts:150-158 | at most seven phases are shown, each with a positive value |
| Timings.ReduceAddsNonNeg | src/entry.ts:144-146 | the reducer adds every non-negative value to the accumulator and skips the negative ones |
| Timings.TotalCountsFirstValue | src/entry.ts:144-146 | the total throws exactly on an empty object; otherwise it is the first value, whatever its sign, plus every later non-negative value |
| Timings.KeepPositiveMembers | src/entry.ts:158 | the filter keeps a pair exactly when its value is present and positive |
| Timings.KeepPositiveOrdered | src/entry.ts:158 | the filter keeps the candidates' order and keeps only positive values |
| Timings.PhaseShownIffPositive | src/entry.ts:150-158 | a phase is shown with value `v` exactly when the object holds `v > 0` under its key; missing, zero and negative values drop out, `wait` and `receive` included |
| Timings.SortedInPhaseOrder | src/entry.ts:150-158 | at most seven phases are shown, each once, each positive, in the order blocked, dns, connect, ssl, send, wait, receive |
| Timings.ShownWithinCorrectedTotal | src/entry.ts:144-158 | the shown values add up to at most the sum of all non-negative values, which is positive once a phase is shown |
| Bar.Segment | src/entry.ts:184-197 | a segment has `max(round(width), 0) + 1` characters and ends in '|'; a width rounding to 0 or less gives exactly "|" |
| Bar.BuildSegment | src/entry.ts:184-197 | the count-down `while` loop builds exactly `Segment(character, width)` |
| Bar.AbbreviationPlacement | src/entry.ts:185-190 | position `i` holds the abbreviation exactly when `round(width) - i == ceil(width / 2)`, so it appears once when the width rounds to 1 or more and never otherwise |
| Bar.BuildBar | src/entry.ts:182-200 | the `for` loop over `progress` appends one coloured segment per entry, in order |
| Bar.BarText | src/entry.ts:182-200 | the uncoloured bar is the segments concatenated in order; its length is the sum of the segment lengths, and it is empty exactly when no phase is shown |
| Breakdown.MaxMeasurementLength | src/entry.ts:160-167 | `maxMeasurementLength` is at least 1 and at least every value's length, and equals one of them unless there is none |
| Breakdown.MeasureOne | src/entry.ts:162-179 | one pass writes the `output` entry and pushes the `progress` entry, whose width comes from the printed percentage |
| Breakdown.Measure | src/entry.ts:160-180 | the first loop yields the maximum value length, the `output` entries and the `progress` entries for the shown phases, in order |
| Breakdown.WidthFromPrintedPercent | src/entry.ts:175-179 | a segment's width is `Number(percent) / 100 * (80 - count)`, where `percent` is the printed two-decimal share |
| Breakdown.WidthOfRoundedPercent | src/entry.ts:162-178 | rounding the share to two decimals moves the width by at most `(80 - count) / 20000` |
| Breakdown.SummaryRows | src/entry.ts:211-223 | one summary row per `output` entry |
| Breakdown.DurationsAligned | src/entry.ts:211-223 | the `i`-th summary row shows the phase's name, abbreviation, percentage and two-decimal value, padded with spaces to exactly `maxMeasurementLength` characters |
| Breakdown.RowsFor | src/entry.ts:160-239 | in the model, once the total is known, `printTimings` fails, with an infinite width, exactly when the total is 0 and a phase is shown; otherwise it writes one row when compact and two plus one per shown phase in the standard style |
| Breakdown.TimingRows | src/entry.ts:143-240 | in the model, `printTimings` throws `ReduceOfEmptyArray` exactly on an empty object, fails in no other way than that or an infinite width, and otherwise writes one row when compact and two plus one per shown phase in the standard style |
| Breakdown.CompactIsFirstRow | src/entry.ts:182-239 | the compact style writes exactly the first row the standard style writes, the bar |
| Breakdown.PrintTimings | src/entry.ts:143-240 | `printTimings` appends exactly the rows of `TimingRows` to the writer, or fails and appends nothing |
| Breakdown.WriteTimingRows | src/entry.ts:182-239 | after the total: the bar row, then unless compact the `total time` row and the summary rows; nothing on an infinite width |
| Breakdown.WriteRows | src/entry.ts:237-239 | the loop over `summary` appends every row in order |
| Layout.Ui.constructor | src/entry.ts:113 | a fresh writer holds no rows |
| Layout.Ui.Div | src/entry.ts:202-205 | `ui.div` appends exactly one row |
| Report.StatusColor | src/entry.ts:115-117 | green when the status's leading digit is 2, red for 4 and 5, yellow otherwise, 0 and negative statuses included |
| Report.StatusColorByClass | src/entry.ts:115-117 | for a three-digit code: green for 2xx, red for 4xx and 5xx, yellow for the other classes |
| JsNumbers.ToLowerAscii | src/entry.ts:302 | `toLowerCase` leaves no upper-case ASCII letter, lowers each one by 32 code points and keeps every other character |
| Report.HeaderText | src/entry.ts:119-124 | the header text is `<index + 1>. ` unless compact, then the status, method and URL, then ` (<time>ms)` only when compact |
| Report.CompressionRow | src/entry.ts:298-315 | the compression line carries the encoding and the original size exactly when `content.compression` is present and not 0, and reads `compression: none` otherwise |
| Report.ContentEncoding | src/entry.ts:301-303 | the value of the first header whose name lowercases to `content-encoding`, or `<<unknown>>` when there is none |
| Report.PrintRequest | src/entry.ts:242-293 | `printRequest` appends the `request:` label, the `size:` label and the size table, sizes defaulting to 0 |
| Report.PrintResponse | src/entry.ts:295-365 | `printResponse` appends the `response:` label, the compression line (encoding and bytes saved, or `compression: none`) and the size table |
| Report.PrintSections | src/entry.ts:131-138 | the standard style appends a blank row, the request section, a blank row, the response section and a blank row |
| Report.Report | src/entry.ts:106-141 | `print` succeeds exactly when `printTimings` does and fails with its failure; it prints the header, the breakdown rows and, unless compact, ten section rows |
| Report.Print | src/entry.ts:106-141 | `print` hands the sink exactly the rows of `Report`, or fails with the breakdown's failure |
| Report.ReportFailures | src/entry.ts:129 | in the model, printing fails with `ReduceOfEmptyArray` exactly on an empty `timings` object, and with `InfiniteWidth` exactly when the total is 0 while a phase is shown |
| Report.ReportOfStyle | src/entry.ts:106-141 | `print` succeeds exactly when `printTimings` does, and then hands over the header row, the breakdown rows and, unless compact, the sections |
| Report.ReportSecondRow | src/entry.ts:119-129 | the row after the header is the first row of the breakdown, the bar |
| Report.CompactReport | src/entry.ts:112-138 | the compact style prints two rows: the header without index, padding or border, and the same bar the standard style prints |
| Report.StandardReport | src/entry.ts:112-138 | the standard style prints the indexed, padded and bordered header, then 12 more rows plus one per shown phase, ending with the sections |
| Findings.AsWrittenBarOverflows | src/entry.ts:144-146 | `{ blocked: -1, wait: 1, receive: 1 }` has total 1; both phases take 100%, and the bar is 158 characters long |
| Findings.AsWrittenZeroTotal | src/entry.ts:144-146 | `{ blocked: -1, wait: 1 }` has total 0 while `wait` is shown, so printing fails with an infinite width |
| Findings.CorrectedTotalAgrees | src/entry.ts:144-146 | the corrected total equals the total as written whenever the first value is not negative |
| Findings.CorrectedAlwaysWrites | src/entry.ts:143-240 | with the corrected total, `printTimings` always writes its rows: one when compact, two plus one per shown phase otherwise |
| Findings.CorrectedSharesAtMost100 | src/entry.ts:162 | with the corrected total, the unrounded shares of the shown phases add up to at most 100 |
| Findings.PrintedNearShares | src/entry.ts:162 | the printed two-decimal percentages add up to within 0.005 per phase of the unrounded shares |
| Findings.CorrectedPrintedAtMost100 | src/entry.ts:162 | with the corrected total, the printed percentages of `n` shown phases add up to at most `100 + 0.005 * n` |
| Findings.PrintedOver100 | src/entry.ts:144-162 | `{ wait: 24690, receive: 175310 }`: the total is the sum of the values, the unrounded shares add up to 100 and the printed ones to 100.01 |
| Findings.RoundingOverflows | src/entry.ts:144-200 | `{ blocked: 1, wait: 1, receive: 1 }`: the total is the sum of the values, and the compact bar is 81 characters long |
| Findings.EqualThirdsShown | src/entry.ts:150-158 | `{ blocked: 1, wait: 1, receive: 1 }` shows `blocked`, `wait` and `receive` |
| Findings.BlockedWaitAndReceiveShown | src/entry.ts:150-158 | with `blocked`, `wait` and `receive` positive and the four phases between them not, exactly those three are shown, in that order |
| Findings.BlockedThenWaitAndReceive | src/entry.ts:150-158 | when `blocked` is positive and the next four phases are not, `blocked` is shown first, followed by what `wait` and `receive` give |
| Findings.WaitAndReceiveShown | src/entry.ts:156-158 | with `wait` positive, the last two candidates give `wait`, and `receive` when it is positive |
| Bar.MidpointOfUnroundedWidth | src/entry.ts:184-190 | width 2.4 draws `w-|`: the abbreviation sits at position 0, not at the midpoint 1 of the two characters drawn |
| Findings.CorrectedBarFits | src/entry.ts:175-200 | with the corrected total, the bar of `n` shown phases is at most `80 + n / 2` characters long |
| Findings.KeepPositiveSkips | src/entry.ts:158 | non-positive candidates at the front of the list drop out |
| Findings.OnlyWaitAndReceive | src/entry.ts:150-158 | when the first five phases are not positive, only `wait` and `receive` can be shown, each when positive |
| Findings.SharesScale | src/entry.ts:162 | the unrounded shares of the shown phases add up to their summed value over the total, times 100 |
| Findings.TimeWiderThanColumn | src/entry.ts:232 | `{ wait: 80, receive: 30 }` gives a 5-character column, while a `time` of 115 prints, padded to that column, as 6 characters |
| Findings.WidthsOfShown | src/entry.ts:175-179 | the widths of positive phases under a positive total are not negative, and add up to at most the width of the summed unrounded shares plus 0.005 per phase |
| Findings.SegmentsWithinWidths | src/entry.ts:185-197 | a segment of width `w >= 0` takes at most `w + 1.5` characters, its '|' included |

## Left out

- `src/cli.ts` is not part of this model. It holds the argument parsing, the file reading, `JSON.parse` and the loop that calls `print` for each entry.
- The `printFn` sink and `ui.toString()`: `Report.Print` returns the rows it would hand over.
- The layout writer's rendering (column widths, alignment, padding, borders): rows are lists of cell descriptors.
- The terminal colours: a coloured piece of text is a span tagged with its colour or its phase.
- Byte-size formatting. `Sizes` stands for the three `ui.div` calls of a size table and carries the raw byte counts. `CompressionSaved` carries the encoding, the bytes saved and the original size. The formatted strings, their `padStart` to a common width and the saved percentage are not modelled.
- IEEE-754 doubles: numbers are exact reals. `toFixed(2)` is modelled only for values printed in plain decimal form, not exponential form (`1e21` and above). Values that are not numbers (`NaN`, strings) are not modelled in the `timings` object.
- Breakdown.PrintTimings: with a zero total and a shown phase, the model returns `InfiniteWidth` and writes nothing. In the source, the segment loop never counts down to 0 and fails once the growing string exhausts the engine's string or memory limits.
- Breakdown.PrintTimings: the engine's limit on string length is not modelled. A finite width past it also makes the source fail, for example a positive total close to 0 after a negative first value: `{ blocked: -1, wait: 1.00000001 }` has total 1e-8 and a width of about 7.9e9. The model returns the whole bar.
- Breakdown.TimingRows: succeeds where the source fails on a width past the engine's string limit (see `Breakdown.PrintTimings` above); its failure cases are those of the model.
- Breakdown.RowsFor: same as `Breakdown.TimingRows`: `InfiniteWidth` covers a zero total only, not a total close to 0.
- Report.ReportFailures: same as `Breakdown.TimingRows`: a total close to 0 is not a failure in the model.
- JsNumbers.NumberOf: reads only an optional `-`, digits and an optional point with digits on at least one side. Whitespace (trimmed in JavaScript, so a blank string is 0), a leading `+`, exponents, `Infinity` and hexadecimal or binary forms are not read. At src/entry.ts:178 it only ever receives what `toFixed(2)` prints.
- JsNumbers.ToLowerAscii: only the ASCII letters A-Z are lowercased. Full Unicode case mapping is not modelled.
- Timings.Values: integer-like property names, which JavaScript enumerates first in ascending order, are not modelled. The object is taken in its listed order, which for HAR's named keys is the file order.
- The row count states each `Sizes` table as one row rather than three.

## Findings

| source | as written | input that shows it | evidently intended | confidence | as-written member | corrected member |
|---|---|---|---|---|---|---|
| src/entry.ts:144-146 | the unseeded `reduce` seeds the total with the first value even when it is negative, so a `blocked: -1` ("not applicable" in HAR) lowers the total | `{ blocked: -1, wait: 1, receive: 1 }`: total 1, both phases at 100.00%, bar 158 characters | `reduce(reducer, 0)`: the sum of the non-negative values; the unrounded shares then add up to at most 100, the printed ones to at most 100 + 0.005 n, and the bar is at most 80 + n/2 characters for n shown phases, the bound rounding alone already reaches | high, not executed | Findings.AsWrittenBarOverflows | Findings.CorrectedBarFits |
| src/entry.ts:144-191 | a negative first value can bring the total to 0, or close to 0, while a phase is shown: the percentage is `Infinity` or huge, the width is infinite or past the engine's string limit, and the segment loop cannot finish | `{ blocked: -1, wait: 1 }`: total 0 with `wait` shown | a total that is positive whenever a phase is shown, so every width is finite | high, not executed | Findings.AsWrittenZeroTotal | Findings.CorrectedAlwaysWrites |
