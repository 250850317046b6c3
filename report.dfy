/** `print`: one HAR entry as a header row, the timing breakdown and, in the
    standard style, the request and response sections, all written to a
    fresh layout writer whose rows are then handed to the output sink. */
module Report {
  import opened Wrappers
  import opened JsNumbers
  import opened Timings
  import opened Layout
  import opened Breakdown

  datatype Header = Header(name: string, value: string)

  /** The fields of a HAR request the printer reads; an absent size is
      `None`. */
  datatype Request = Request(httpMethod: string, url: string, headersSize: Option<int>, bodySize: Option<int>)

  /** `response.content`: its size and its optional `compression`. */
  datatype Content = Content(size: int, compression: Option<real>)

  datatype Response = Response(
    status: int,
    headers: seq<Header>,
    headersSize: Option<int>,
    bodySize: Option<int>,
    content: Option<Content>)

  datatype Entry = Entry(request: Request, response: Response, time: real, timings: seq<Field>)

  /** `display === "compact"`. */
  predicate IsCompact(style: string) {
    style == "compact"
  }

  /** `statusColor`: chosen by the first character of the status code. */
  function StatusColor(status: int): (c: Color)
    ensures status < 0 ==> c == Yellow
    ensures status >= 0 ==>
      (var d := LeadingDigit(status); c == if d == 2 then Green else if d == 4 || d == 5 then Red else Yellow)
  {
    var first := IntToString(status)[0];
    var c := if first == '2' then Green else if first == '4' || first == '5' then Red else Yellow;
    if status >= 0 then
      NatToStringStartsWithLeadingDigit(status);
      assert DigitChar(LeadingDigit(status)) as int - '0' as int == LeadingDigit(status);
      c
    else c
  }

  /** The leading decimal digit of a natural number. */
  function LeadingDigit(n: nat): (d: nat)
    ensures d < 10
    ensures n > 0 ==> d > 0
  {
    if n < 10 then n else LeadingDigit(n / 10)
  }

  lemma {:induction false} NatToStringStartsWithLeadingDigit(n: nat)
    ensures NatToString(n)[0] == DigitChar(LeadingDigit(n))
  {
    if n >= 10 {
      NatToStringStartsWithLeadingDigit(n / 10);
    }
  }

  /** For a three-digit status code the colour follows its class: green
      for 2xx, red for 4xx and 5xx, yellow for 1xx and 3xx and every other
      class. */
  lemma {:induction false} StatusColorByClass(status: int)
    requires 100 <= status <= 999
    ensures StatusColor(status) == if status / 100 == 2 then Green
                                  else if status / 100 == 4 || status / 100 == 5 then Red
                                  else Yellow
  {
    assert status / 10 / 10 == status / 100;
    assert LeadingDigit(status) == LeadingDigit(status / 10) == LeadingDigit(status / 100);
  }

  /** The header row's text: `<index + 1>. ` unless compact, the status in
      its colour, the method and the URL, and ` (<time>ms)` when compact. */
  function HeaderSpans(index: int, e: Entry, isCompact: bool): seq<Span> {
    [ Span(Unstyled, if isCompact then "" else IntToString(index + 1) + ". "),
      Span(StatusStyle(StatusColor(e.response.status)), IntToString(e.response.status)),
      Span(Unstyled, " " + e.request.httpMethod + " " + e.request.url
                     + if isCompact then " (" + ToFixed2(e.time) + "ms)" else "") ]
  }

  /** The header row: padded below and bordered in the standard style only. */
  function HeaderRow(index: int, e: Entry, isCompact: bool): Row {
    Cells([Cell(HeaderSpans(index, e, isCompact), None, Left, Padding(0, 0, if isCompact then 0 else 1, 0), !isCompact)])
  }

  /** `ui.div({ text: "" })`. */
  const BlankRow: Row := Cells([TextCell("")])

  /** A label indented by two columns (`padding: [0, 0, 0, 2]`). */
  function IndentedRow(text: string): Row {
    Cells([Cell([Span(Unstyled, text)], None, Left, Padding(0, 0, 0, 2), false)])
  }

  /** `header.name.toLowerCase() === "content-encoding"`. */
  predicate IsContentEncoding(h: Header) {
    ToLowerAscii(h.name) == "content-encoding"
  }

  /** The value of the first `content-encoding` header, matched without
      regard to ASCII case, or `<<unknown>>` when there is none. */
  function ContentEncoding(headers: seq<Header>): (v: string)
    ensures (forall i :: 0 <= i < |headers| ==> !IsContentEncoding(headers[i])) ==> v == "<<unknown>>"
    ensures (exists i :: 0 <= i < |headers| && IsContentEncoding(headers[i])) ==>
      exists i :: 0 <= i < |headers| && IsContentEncoding(headers[i]) && v == headers[i].value
                  && forall j :: 0 <= j < i ==> !IsContentEncoding(headers[j])
  {
    if headers == [] then "<<unknown>>"
    else if IsContentEncoding(headers[0]) then headers[0].value
    else
      var v := ContentEncoding(headers[1..]);
      assert forall i :: 1 <= i < |headers| ==> headers[i] == headers[1..][i - 1];
      v
  }

  /** `response.content?.compression` is truthy: present and not 0. */
  predicate IsCompressed(r: Response) {
    r.content.Some? && r.content.value.compression.Some? && r.content.value.compression.value != 0.0
  }

  /** The compression line: the encoding, the bytes saved (`size - bodySize`,
      `None` for `NaN` when the body size is absent) and the original size,
      or `compression: none`. */
  function CompressionRow(r: Response): (c: Row)
    ensures c.CompressionSaved? <==> IsCompressed(r)
    ensures c.CompressionSaved? ==> c.encoding == ContentEncoding(r.headers) && c.original == r.content.value.size
    ensures !c.CompressionSaved? ==> c == IndentedRow("compression: none")
  {
    if IsCompressed(r) then
      var original := r.content.value.size;
      CompressionSaved(ContentEncoding(r.headers),
                       if r.bodySize.Some? then Some(original - r.bodySize.value) else None,
                       original)
    else IndentedRow("compression: none")
  }

  /** The `size:` label and the headers/body/total table, sizes defaulting
      to 0 (`x || 0`). */
  function SizeRows(headersSize: Option<int>, bodySize: Option<int>): seq<Row> {
    var h, b := headersSize.GetOr(0), bodySize.GetOr(0);
    [IndentedRow("size:"), Sizes(h, b, h + b)]
  }

  /** The rows `printRequest` writes. */
  function RequestRows(q: Request): seq<Row> {
    [Cells([TextCell("request:")])] + SizeRows(q.headersSize, q.bodySize)
  }

  /** The rows `printResponse` writes. */
  function ResponseRows(r: Response): seq<Row> {
    [Cells([TextCell("response:")]), CompressionRow(r)] + SizeRows(r.headersSize, r.bodySize)
  }

  /** The rows written after the breakdown in the standard style. */
  function Sections(e: Entry): seq<Row> {
    [BlankRow] + RequestRows(e.request) + [BlankRow] + ResponseRows(e.response) + [BlankRow]
  }

  /** What `print(index, entry, { style })` hands to the output sink: the
      header row, the breakdown rows and, unless compact, the sections; or
      the failure of the breakdown, in which case nothing is printed. */
  function Report(index: int, e: Entry, style: string): (r: Result<seq<Row>, Failure>)
    ensures r.Ok? <==> TimingRows(e.timings, e.time, IsCompact(style)).Ok?
    ensures r.Err? ==> r.error == TimingRows(e.timings, e.time, IsCompact(style)).error
    ensures r.Ok? ==> |r.value| == 1 + |TimingRows(e.timings, e.time, IsCompact(style)).value| + if IsCompact(style) then 0 else 10
  {
    var isCompact := IsCompact(style);
    var timing := TimingRows(e.timings, e.time, isCompact);
    if timing.Err? then Err(timing.error)
    else
      var header := HeaderRow(index, e, isCompact);
      var rest := if isCompact then [] else Sections(e);
      assert |rest| == if isCompact then 0 else 10;
      Ok([header] + timing.value + rest)
  }

  /** `printRequest`. */
  method PrintRequest(q: Request, ui: Ui)
    modifies ui
    ensures ui.rows == old(ui.rows) + RequestRows(q)
  {
    ui.Div(Cells([TextCell("request:")]));
    var headersSize := q.headersSize.GetOr(0);
    var bodySize := q.bodySize.GetOr(0);
    ui.Div(IndentedRow("size:"));
    ui.Div(Sizes(headersSize, bodySize, headersSize + bodySize));
  }

  /** `printResponse`. */
  method PrintResponse(r: Response, ui: Ui)
    modifies ui
    ensures ui.rows == old(ui.rows) + ResponseRows(r)
  {
    ui.Div(Cells([TextCell("response:")]));
    if IsCompressed(r) {
      var original := r.content.value.size;
      var diff := if r.bodySize.Some? then Some(original - r.bodySize.value) else None;
      var encoding := ContentEncoding(r.headers);
      ui.Div(CompressionSaved(encoding, diff, original));
    } else {
      ui.Div(IndentedRow("compression: none"));
    }
    var headersSize := r.headersSize.GetOr(0);
    var bodySize := r.bodySize.GetOr(0);
    ui.Div(IndentedRow("size:"));
    ui.Div(Sizes(headersSize, bodySize, headersSize + bodySize));
  }

  /** `print`: the rows handed to the sink, or the failure that stops it. */
  method Print(index: int, e: Entry, style: string) returns (r: Result<seq<Row>, Failure>)
    ensures r == Report(index, e, style)
  {
    var isCompact := style == "compact";
    var ui := new Ui();
    var header := HeaderRow(index, e, isCompact);
    ui.Div(header);
    assert ui.rows == [header];
    var timings := PrintTimings(e.timings, e.time, isCompact, ui);
    if timings.Err? {
      return Err(timings.error);
    }
    ghost var rows := TimingRows(e.timings, e.time, isCompact).value;
    assert ui.rows == [header] + rows;
    ReportOfStyle(index, e, style);
    if !isCompact {
      PrintSections(e, ui);
    } else {
      assert [header] + rows + [] == ui.rows;
    }
    return Ok(ui.rows);
  }

  /** The standard-style tail of `print`: a blank row, the request section,
      a blank row, the response section and a blank row. */
  method PrintSections(e: Entry, ui: Ui)
    modifies ui
    ensures ui.rows == old(ui.rows) + Sections(e)
  {
    ui.Div(BlankRow);
    PrintRequest(e.request, ui);
    ui.Div(BlankRow);
    PrintResponse(e.response, ui);
    ui.Div(BlankRow);
  }

  lemma {:induction false} PlainOfThree(a: Span, b: Span, c: Span)
    ensures Plain([a, b, c]) == a.text + b.text + c.text
  {
    var s := [a, b, c];
    assert s[..2] == [a, b] && [a, b][..1] == [a] && [a][..0] == [];
    assert Plain([a]) == a.text;
    assert Plain([a, b]) == a.text + b.text;
  }

  /** The text of the header row with the styling stripped: the index
      prefix unless compact, the status, the method and the URL, and the
      entry's two-decimal time when compact. */
  lemma {:induction false} HeaderText(index: int, e: Entry, isCompact: bool)
    ensures Plain(HeaderSpans(index, e, isCompact))
         == (if isCompact then "" else IntToString(index + 1) + ". ")
            + IntToString(e.response.status)
            + (" " + e.request.httpMethod + " " + e.request.url
               + if isCompact then " (" + ToFixed2(e.time) + "ms)" else "")
  {
    var s := HeaderSpans(index, e, isCompact);
    PlainOfThree(s[0], s[1], s[2]);
    assert s == [s[0], s[1], s[2]];
  }

  /** Printing fails exactly when the breakdown does: on an empty `timings`
      object, and on a zero total while some phase is shown. */
  lemma {:induction false} ReportFailures(index: int, e: Entry, style: string)
    ensures Report(index, e, style) == Err(ReduceOfEmptyArray) <==> e.timings == []
    ensures Report(index, e, style) == Err(InfiniteWidth)
        <==> e.timings != [] && Total(e.timings) == Some(0.0) && Sorted(e.timings) != []
    ensures Report(index, e, style).Err? ==>
              Report(index, e, style) == Err(ReduceOfEmptyArray) || Report(index, e, style) == Err(InfiniteWidth)
  {
    TotalCountsFirstValue(e.timings);
  }

  /** The compact style prints two rows: the header without an index, ending
      in the entry's time, with no border and no padding; and the same bar
      the standard style prints. No summary, request or response rows. */
  lemma {:induction false} CompactReport(index: int, e: Entry)
    requires Report(index, e, "compact").Ok?
    ensures var rows := Report(index, e, "compact").value;
      && |rows| == 2
      && rows[0] == Cells([Cell(HeaderSpans(index, e, true), None, Left, NoPadding, false)])
      && Report(index, e, "standard").Ok?
      && rows[1] == Report(index, e, "standard").value[1]
  {
    CompactRows(index, e);
    CompactBar(index, e);
  }

  lemma {:induction false} CompactRows(index: int, e: Entry)
    requires Report(index, e, "compact").Ok?
    ensures var rows := Report(index, e, "compact").value;
      |rows| == 2 && rows[0] == Cells([Cell(HeaderSpans(index, e, true), None, Left, NoPadding, false)])
  {
    CompactIsFirstRow(e.timings, e.time);
    ReportOfStyle(index, e, "compact");
  }

  lemma {:induction false} CompactBar(index: int, e: Entry)
    requires Report(index, e, "compact").Ok?
    ensures Report(index, e, "standard").Ok?
    ensures |Report(index, e, "compact").value| == 2 && |Report(index, e, "standard").value| >= 2
    ensures Report(index, e, "compact").value[1] == Report(index, e, "standard").value[1]
  {
    CompactIsFirstRow(e.timings, e.time);
    ReportSecondRow(index, e, "compact");
    ReportSecondRow(index, e, "standard");
  }

  /** The second row of a report is the first row of the breakdown. */
  lemma {:induction false} ReportSecondRow(index: int, e: Entry, style: string)
    ensures Report(index, e, style).Ok? <==> TimingRows(e.timings, e.time, IsCompact(style)).Ok?
    ensures Report(index, e, style).Ok? ==>
      && |Report(index, e, style).value| == 1 + |TimingRows(e.timings, e.time, IsCompact(style)).value|
                                            + (if IsCompact(style) then 0 else 10)
      && Report(index, e, style).value[1] == TimingRows(e.timings, e.time, IsCompact(style)).value[0]
  {
    ReportOfStyle(index, e, style);
    if Report(index, e, style).Ok? {
      var rows := TimingRows(e.timings, e.time, IsCompact(style)).value;
      var tail := if IsCompact(style) then [] else Sections(e);
      assert ([HeaderRow(index, e, IsCompact(style))] + rows + tail)[1] == rows[0];
    }
  }

  /** `print` wraps the rows of `printTimings` between the header row and,
      unless compact, the sections. */
  lemma {:induction false} ReportOfStyle(index: int, e: Entry, style: string)
    ensures Report(index, e, style).Ok? <==> TimingRows(e.timings, e.time, IsCompact(style)).Ok?
    ensures Report(index, e, style).Ok? ==>
      Report(index, e, style).value
        == [HeaderRow(index, e, IsCompact(style))] + TimingRows(e.timings, e.time, IsCompact(style)).value
           + if IsCompact(style) then [] else Sections(e)
  {
  }

  /** The standard style prints the header with the index prefix, padded
      below and bordered, the bar, the `total time` row, one row per shown
      phase and then the sections: 13 rows plus one per shown phase. */
  lemma {:induction false} StandardReport(index: int, e: Entry, style: string)
    requires style != "compact" && Report(index, e, style).Ok?
    ensures var rows := Report(index, e, style).value;
      && |rows| == 13 + |Sorted(e.timings)|
      && rows[0] == Cells([Cell(HeaderSpans(index, e, false), None, Left, Padding(0, 0, 1, 0), true)])
      && HeaderSpans(index, e, false)[0].text == IntToString(index + 1) + ". "
      && rows[|rows| - 10..] == Sections(e)
  {
    assert !IsCompact(style);
    ReportOfStyle(index, e, style);
    var rows := [HeaderRow(index, e, false)] + TimingRows(e.timings, e.time, false).value + Sections(e);
    assert |Sections(e)| == 10;
    assert rows[|rows| - 10..] == Sections(e);
  }
}
