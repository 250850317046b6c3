/** `printTimings`: the total, the shown phases, their two-decimal values and
    percentages, the bar, and the summary rows written to the layout writer. */
module Breakdown {
  import opened Wrappers
  import opened JsNumbers
  import opened Timings
  import opened Layout
  import opened Bar

  /** Why `printTimings` produces no rows. */
  datatype Failure =
    | ReduceOfEmptyArray  // `reduce` without an initial value throws a TypeError on an empty object
    | InfiniteWidth       // a zero total makes every width infinite: the segment loop never counts
                          // down to 0, and the growing string makes it fail

  /** One entry of the `output` object: its key (the phase's display name),
      the abbreviation, the two-decimal value and the two-decimal percentage. */
  datatype OutputItem = OutputItem(name: string, abbreviation: char, value: string, percent: string)

  /** The share of the total a phase takes, in percent, before rounding. */
  function Share(m: Measured, total: real): real
    requires total != 0.0
  {
    m.value / total * 100.0
  }

  /** `(Number(percent) / 100) * (maxLength - count)`: the real width of a
      segment whose printed percentage has the value `percent`. */
  function WidthOf(percent: real, count: nat): real {
    percent / 100.0 * (MaxLength - count) as real
  }

  /** The `output` entry written for a shown phase. */
  function ItemOf(m: Measured, total: real): OutputItem
    requires total != 0.0
  {
    OutputItem(Name(m.phase), Abbreviation(m.phase), ToFixed2(m.value), ToFixed2(Share(m, total)))
  }

  /** The `progress` entry pushed for a shown phase when `count` phases are
      shown: the width is the percentage rounded to two decimals, as a
      fraction of the budget left after one delimiter per phase. */
  function ProgressOf(m: Measured, total: real, count: nat): Progress
    requires total != 0.0
  {
    Progress(m.phase, Abbreviation(m.phase), WidthOf(Round2(Share(m, total)), count))
  }

  /** The `progress` entries pushed for `sorted`, in order, when `count`
      phases are shown. */
  function ProgressFor(sorted: seq<Measured>, total: real, count: nat): (progress: seq<Progress>)
    requires total != 0.0 || sorted == []
    ensures |progress| == |sorted|
  {
    if sorted == [] then []
    else ProgressFor(sorted[..|sorted| - 1], total, count) + [ProgressOf(sorted[|sorted| - 1], total, count)]
  }

  /** The `output` entries written for `sorted`, in order. */
  function OutputFor(sorted: seq<Measured>, total: real): (output: seq<OutputItem>)
    requires total != 0.0 || sorted == []
    ensures |output| == |sorted|
  {
    if sorted == [] then []
    else OutputFor(sorted[..|sorted| - 1], total) + [ItemOf(sorted[|sorted| - 1], total)]
  }

  /** The two-decimal strings of the shown values, in order. */
  function FixedValues(sorted: seq<Measured>): (vs: seq<string>)
    ensures |vs| == |sorted|
  {
    if sorted == [] then [] else FixedValues(sorted[..|sorted| - 1]) + [ToFixed2(sorted[|sorted| - 1].value)]
  }

  /** `maxMeasurementLength` over the two-decimal strings `values`: at least
      1, at least the length of every string, and equal to one of them unless
      there is none. */
  function MaxMeasurementLength(values: seq<string>): (m: nat)
    ensures m >= 1
    ensures forall i :: 0 <= i < |values| ==> |values[i]| <= m
    ensures m == 1 || exists i :: 0 <= i < |values| && |values[i]| == m
  {
    if values == [] then 1
    else
      var m := MaxMeasurementLength(values[..|values| - 1]);
      var d := |values[|values| - 1]|;
      if d > m then d else m
  }

  /** One pass of the body of the first loop of `printTimings`: the
      percentage and value strings, the `output` entry and the `progress`
      entry for the phase `m`, and the length of the value string. */
  method MeasureOne(m: Measured, total: real, count: nat) returns (item: OutputItem, entry: Progress, digitLength: nat)
    requires total != 0.0
    ensures item == ItemOf(m, total) && entry == ProgressOf(m, total, count)
    ensures digitLength == |ToFixed2(m.value)|
  {
    var percent := ToFixed2(Share(m, total));
    var fixedValue := ToFixed2(m.value);
    digitLength := |fixedValue|;
    item := OutputItem(Name(m.phase), Abbreviation(m.phase), fixedValue, percent);
    NumberOfToFixed2(Share(m, total));
    entry := Progress(m.phase, Abbreviation(m.phase), WidthOf(NumberOf(percent).value, count));
  }

  /** The `for (const [key, value] of sortedTimings)` loop: it widens
      `maxMeasurementLength`, fills `output` and pushes onto `progress`. The
      names of the phases differ, so `output` keeps insertion order and is a
      list here. */
  method Measure(sorted: seq<Measured>, total: real) returns (maxLen: nat, output: seq<OutputItem>, progress: seq<Progress>)
    requires total != 0.0 || sorted == []
    ensures maxLen == MaxMeasurementLength(FixedValues(sorted))
    ensures output == OutputFor(sorted, total)
    ensures progress == ProgressFor(sorted, total, |sorted|)
  {
    maxLen := 1;
    output := [];
    progress := [];
    for k := 0 to |sorted|
      invariant maxLen == MaxMeasurementLength(FixedValues(sorted[..k]))
      invariant output == OutputFor(sorted[..k], total)
      invariant progress == ProgressFor(sorted[..k], total, |sorted|)
    {
      var item, entry, digitLength := MeasureOne(sorted[k], total, |sorted|);
      assert sorted[..k + 1][..k] == sorted[..k];
      if digitLength > maxLen {
        maxLen := digitLength;
      }
      output := output + [item];
      progress := progress + [entry];
    }
    assert sorted[..|sorted|] == sorted;
  }

  lemma {:induction false} WidthOfSum(p: real, d: real, count: nat)
    ensures WidthOf(p + d, count) == WidthOf(p, count) + WidthOf(d, count)
  {
    var b := (MaxLength - count) as real;
    assert (p + d) / 100.0 * b == p / 100.0 * b + d / 100.0 * b;
  }

  lemma {:induction false} WidthOfMonotone(p: real, q: real, count: nat)
    requires p <= q && count <= MaxLength
    ensures WidthOf(p, count) <= WidthOf(q, count)
  {
    var b := (MaxLength - count) as real;
    WidthOfSum(p, q - p, count);
    assert (q - p) / 100.0 * b >= 0.0;
  }

  /** The width of a phase's segment is `Number(percent) / 100` of the budget
      `80 - count`, where `percent` is the printed two-decimal share. */
  lemma {:induction false} WidthFromPrintedPercent(m: Measured, total: real, count: nat)
    requires total != 0.0
    ensures NumberOf(ItemOf(m, total).percent).Some?
    ensures ProgressOf(m, total, count).width == WidthOf(NumberOf(ItemOf(m, total).percent).value, count)
  {
    NumberOfToFixed2(Share(m, total));
  }

  /** Rounding a percentage to two decimals moves the width computed from it
      by at most `(80 - count) / 20000`. */
  lemma {:induction false} WidthOfRoundedPercent(x: real, count: nat)
    requires count <= MaxLength
    ensures var b := (MaxLength - count) as real;
      WidthOf(x, count) - b / 20000.0 <= WidthOf(Round2(x), count) <= WidthOf(x, count) + b / 20000.0
  {
    var d := Round2(x) - x;
    WidthOfSum(x, d, count);
    assert x + d == Round2(x);
    WidthOfMonotone(-0.005, d, count);
    WidthOfMonotone(d, 0.005, count);
  }

  /** A cell of the label column: width 19, right-aligned. */
  function LabelCell(text: string): Cell {
    Cell([Span(Unstyled, text)], Some(19), Right, NoPadding, false)
  }

  /** A cell of the value column: width 20. */
  function ValueCell(text: string): Cell {
    Cell([Span(Unstyled, text)], Some(20), Left, NoPadding, false)
  }

  /** The row that shows the bar, with one blank line below it. */
  function BarRow(bar: seq<Span>): Row {
    Cells([Cell(bar, None, Left, Padding(0, 0, 1, 0), false)])
  }

  /** A summary row: `<name> (<abbreviation>)` and
      `: <value padded to maxLen>ms (<percent>%)`. */
  function SummaryRow(item: OutputItem, maxLen: nat): Row {
    Cells([ LabelCell(item.name + " (" + [item.abbreviation] + ")"),
            ValueCell(": " + PadStart(item.value, maxLen) + "ms (" + item.percent + "%)") ])
  }

  /** The `total time` row, which shows the entry's `time`. */
  function TotalTimeRow(time: real, maxLen: nat): Row {
    Cells([LabelCell("total time"), ValueCell(": " + PadStart(ToFixed2(time), maxLen) + "ms")])
  }

  /** `Object.entries(output).map(...)`: one summary row per entry, in order. */
  function SummaryRows(output: seq<OutputItem>, maxLen: nat): (rows: seq<Row>)
    ensures |rows| == |output|
  {
    if output == [] then []
    else SummaryRows(output[..|output| - 1], maxLen) + [SummaryRow(output[|output| - 1], maxLen)]
  }

  /** The rows `printTimings` writes once the total is known. */
  function RowsFor(sorted: seq<Measured>, total: real, time: real, isCompact: bool): (r: Result<seq<Row>, Failure>)
    ensures r.Err? <==> total == 0.0 && sorted != []
    ensures r.Err? ==> r.error == InfiniteWidth
    ensures r.Ok? ==> |r.value| == if isCompact then 1 else 2 + |sorted|
  {
    if total == 0.0 && sorted != [] then Err(InfiniteWidth)
    else
      var bar := BarRow(BarSpans(ProgressFor(sorted, total, |sorted|)));
      if isCompact then Ok([bar])
      else
        var maxLen := MaxMeasurementLength(FixedValues(sorted));
        Ok([bar, TotalTimeRow(time, maxLen)] + SummaryRows(OutputFor(sorted, total), maxLen))
  }

  /** The rows `printTimings(timings, time, isCompact, ui)` writes, or why it
      writes none. */
  function TimingRows(t: seq<Field>, time: real, isCompact: bool): (r: Result<seq<Row>, Failure>)
    ensures r == Err(ReduceOfEmptyArray) <==> t == []
    ensures r.Err? ==> r == Err(ReduceOfEmptyArray) || r == Err(InfiniteWidth)
    ensures r.Ok? ==> |r.value| == if isCompact then 1 else 2 + |Sorted(t)|
  {
    match Total(t)
    case None => Err(ReduceOfEmptyArray)
    case Some(total) => RowsFor(Sorted(t), total, time, isCompact)
  }

  /** Both styles draw the same bar: the compact rows are the first of the
      standard rows. */
  lemma {:induction false} CompactIsFirstRow(t: seq<Field>, time: real)
    ensures TimingRows(t, time, true).Ok? <==> TimingRows(t, time, false).Ok?
    ensures TimingRows(t, time, true).Ok? ==>
      && |TimingRows(t, time, true).value| == 1
      && TimingRows(t, time, true).value[0] == TimingRows(t, time, false).value[0]
  {
  }

  /** `printTimings`: computes the total and the shown phases, then writes
      the bar and, unless compact, the `total time` row followed by one
      summary row per shown phase. */
  method PrintTimings(t: seq<Field>, time: real, isCompact: bool, ui: Ui) returns (r: Result<(), Failure>)
    modifies ui
    ensures TimingRows(t, time, isCompact).Err? ==>
              r == Err(TimingRows(t, time, isCompact).error) && ui.rows == old(ui.rows)
    ensures TimingRows(t, time, isCompact).Ok? ==>
              r == Ok(()) && ui.rows == old(ui.rows) + TimingRows(t, time, isCompact).value
  {
    var total := Total(t);
    if total.None? {
      return Err(ReduceOfEmptyArray);
    }
    var sorted := Sorted(t);
    r := WriteTimingRows(sorted, total.value, time, isCompact, ui);
  }

  /** The part of `printTimings` after the total and the shown phases are
      known: the first loop, the bar loop and the `ui.div` calls. */
  method WriteTimingRows(sorted: seq<Measured>, total: real, time: real, isCompact: bool, ui: Ui)
    returns (r: Result<(), Failure>)
    modifies ui
    ensures RowsFor(sorted, total, time, isCompact).Err? ==>
              r == Err(InfiniteWidth) && ui.rows == old(ui.rows)
    ensures RowsFor(sorted, total, time, isCompact).Ok? ==>
              r == Ok(()) && ui.rows == old(ui.rows) + RowsFor(sorted, total, time, isCompact).value
  {
    if total == 0.0 && sorted != [] {
      // Every width is infinite: `Math.round` keeps it infinite and the
      // segment loop's `cur` never drops to 0.
      return Err(InfiniteWidth);
    }
    var maxLen, output, progress := Measure(sorted, total);
    var bar := BuildBar(progress);
    ghost var rows := RowsFor(sorted, total, time, isCompact).value;
    ui.Div(BarRow(bar));
    if isCompact {
      assert rows == [BarRow(bar)];
      return Ok(());
    }
    var summary := SummaryRows(output, maxLen);
    assert rows == [BarRow(bar), TotalTimeRow(time, maxLen)] + summary;
    PairThenRest(BarRow(bar), TotalTimeRow(time, maxLen), summary);
    WriteRows([TotalTimeRow(time, maxLen)] + summary, ui);
    AppendAfterOne(old(ui.rows), BarRow(bar), [TotalTimeRow(time, maxLen)] + summary);
    return Ok(());
  }

  lemma {:induction false} PairThenRest<T>(x: T, y: T, back: seq<T>)
    ensures [x, y] + back == [x] + ([y] + back)
  {
  }

  lemma {:induction false} AppendAfterOne<T>(front: seq<T>, x: T, back: seq<T>)
    ensures (front + [x]) + back == front + ([x] + back)
  {
  }

  /** `ui.div(...)` for each of `rows`, in order. */
  method WriteRows(rows: seq<Row>, ui: Ui)
    modifies ui
    ensures ui.rows == old(ui.rows) + rows
  {
    for k := 0 to |rows|
      invariant ui.rows == old(ui.rows) + rows[..k]
    {
      ui.Div(rows[k]);
      assert rows[..k + 1] == rows[..k] + [rows[k]];
    }
    assert rows[..|rows|] == rows;
  }

  lemma {:induction false} FixedValuesAt(sorted: seq<Measured>, i: nat)
    requires i < |sorted|
    ensures FixedValues(sorted)[i] == ToFixed2(sorted[i].value)
  {
    if i < |sorted| - 1 {
      FixedValuesAt(sorted[..|sorted| - 1], i);
    }
  }

  lemma {:induction false} OutputForAt(sorted: seq<Measured>, total: real, i: nat)
    requires total != 0.0 && i < |sorted|
    ensures OutputFor(sorted, total)[i] == ItemOf(sorted[i], total)
  {
    if i < |sorted| - 1 {
      OutputForAt(sorted[..|sorted| - 1], total, i);
    }
  }

  lemma {:induction false} ProgressForAt(sorted: seq<Measured>, total: real, count: nat, i: nat)
    requires total != 0.0 && i < |sorted|
    ensures ProgressFor(sorted, total, count)[i] == ProgressOf(sorted[i], total, count)
  {
    if i < |sorted| - 1 {
      ProgressForAt(sorted[..|sorted| - 1], total, count, i);
    }
  }

  lemma {:induction false} SummaryRowsAt(output: seq<OutputItem>, maxLen: nat, i: nat)
    requires i < |output|
    ensures SummaryRows(output, maxLen)[i] == SummaryRow(output[i], maxLen)
  {
    if i < |output| - 1 {
      SummaryRowsAt(output[..|output| - 1], maxLen, i);
    }
  }

  /** The summary row of the `i`-th shown phase: its display name and
      abbreviation in the label column, then its two-decimal value preceded
      by spaces to exactly `maxMeasurementLength` characters (so the duration
      column is aligned and no value is cut) and its printed percentage. */
  lemma {:induction false} DurationsAligned(sorted: seq<Measured>, total: real, i: nat)
    requires total != 0.0 && i < |sorted|
    ensures var maxLen := MaxMeasurementLength(FixedValues(sorted));
      var m := sorted[i];
      var d := PadStart(ToFixed2(m.value), maxLen);
      && SummaryRows(OutputFor(sorted, total), maxLen)[i]
           == Cells([ LabelCell(Name(m.phase) + " (" + [Abbreviation(m.phase)] + ")"),
                      ValueCell(": " + d + "ms (" + ToFixed2(Share(m, total)) + "%)") ])
      && |d| == maxLen
      && d[maxLen - |ToFixed2(m.value)|..] == ToFixed2(m.value)
      && forall j :: 0 <= j < maxLen - |ToFixed2(m.value)| ==> d[j] == ' '
  {
    var values := FixedValues(sorted);
    var maxLen := MaxMeasurementLength(values);
    var output := OutputFor(sorted, total);
    OutputForAt(sorted, total, i);
    FixedValuesAt(sorted, i);
    assert |values[i]| <= maxLen;
    SummaryRowsAt(output, maxLen, i);
  }
}
