/** The proportional bar of `printTimings`: one segment per shown phase, built
    by a count-down loop, concatenated in phase order. */
module Bar {
  import opened JsNumbers
  import opened Timings
  import opened Layout

  /** `maxLength`: the character budget of the bar. */
  const MaxLength: int := 80

  /** One entry of `progress`: the phase (standing for its colour function),
      its abbreviation and the real-valued width of its segment. */
  datatype Progress = Progress(phase: Phase, abbreviation: char, width: real)

  function Max0(n: int): nat {
    if n > 0 then n else 0
  }

  /** The segment for a phase of real width `width`: with `n = Round(width)`,
      `max(n, 0)` characters and a closing '|'; the character at position `i`
      is the abbreviation when `n - i` equals the midpoint `Ceil(width / 2)`,
      and '-' otherwise. */
  function Segment(c: char, width: real): (s: string)
    ensures |s| == Max0(Round(width)) + 1 && s[|s| - 1] == '|'
    ensures Round(width) <= 0 ==> s == "|"
  {
    var n := Round(width);
    var mid := Ceil(width / 2.0);
    seq(Max0(n), i => if n - i == mid then c else '-') + "|"
  }

  /** The loop of `printTimings` that builds one segment: `cur` counts down
      from `Math.round(width)` and each step appends the abbreviation when
      `cur` is the midpoint, '-' otherwise; then '|' is appended. */
  method BuildSegment(character: char, width: real) returns (segment: string)
    ensures segment == Segment(character, width)
  {
    segment := "";
    var cur := Round(width);
    var midpoint := Ceil(width / 2.0);
    ghost var n := cur;
    while cur > 0
      invariant if n > 0 then 0 <= cur <= n && |segment| == n - cur else cur == n && segment == []
      invariant forall i :: 0 <= i < |segment| ==> segment[i] == if n - i == midpoint then character else '-'
    {
      segment := segment + [if cur == midpoint then character else '-'];
      cur := cur - 1;
    }
    // `segment.substring(0, segment.length)` leaves the segment as it is.
    segment := segment + "|";
  }

  /** Where the abbreviation lands: a segment holds its abbreviation exactly
      once, at position `Round(width) - Ceil(width / 2)`, when its width
      rounds to at least 1, and not at all otherwise. */
  lemma {:induction false} AbbreviationPlacement(c: char, width: real)
    requires c != '-' && c != '|'
    ensures var s := Segment(c, width);
      forall i :: 0 <= i < |s| ==> (s[i] == c <==> Round(width) >= 1 && i == Round(width) - Ceil(width / 2.0))
    ensures var s := Segment(c, width);
      (exists i :: 0 <= i < |s| && s[i] == c) <==> Round(width) >= 1
  {
    var n, mid := Round(width), Ceil(width / 2.0);
    var s := Segment(c, width);
    if n >= 1 {
      assert 1 <= mid <= n;
      assert s[n - mid] == c;
    }
  }

  /** The midpoint comes from the unrounded width: width 2.4 draws two
      characters, and `Ceil(2.4 / 2) == 2` puts the abbreviation at position
      0, where the midpoint of the two drawn characters would put it at 1. */
  lemma {:induction false} MidpointOfUnroundedWidth()
    ensures Segment('w', 2.4) == "w-|"
    ensures var n := Round(2.4); n - Ceil(n as real / 2.0) == 1
  {
    assert Round(2.4) == 2 && Ceil(2.4 / 2.0) == 2 && Ceil(1.0) == 1;
    var s := Segment('w', 2.4);
    assert s[0] == 'w' && s[1] == '-';
  }

  /** The span `color(segment)` adds to the bar. */
  function SegmentSpan(p: Progress): Span {
    Span(PhaseStyle(p.phase), Segment(p.abbreviation, p.width))
  }

  /** The bar as the sequence of coloured segments, one per entry of
      `progress`, in order. */
  function BarSpans(progress: seq<Progress>): seq<Span> {
    seq(|progress|, i requires 0 <= i < |progress| => SegmentSpan(progress[i]))
  }

  /** The loop `for (const [color, character, width] of progress)` that
      accumulates `bar += color(segment)`. */
  method BuildBar(progress: seq<Progress>) returns (bar: seq<Span>)
    ensures bar == BarSpans(progress)
  {
    bar := [];
    for k := 0 to |progress|
      invariant |bar| == k
      invariant forall j :: 0 <= j < k ==> bar[j] == SegmentSpan(progress[j])
    {
      var segment := BuildSegment(progress[k].abbreviation, progress[k].width);
      bar := bar + [Span(PhaseStyle(progress[k].phase), segment)];
    }
  }

  /** The number of characters the segments of `progress` take. */
  function SegmentsLength(progress: seq<Progress>): nat {
    if progress == [] then 0
    else SegmentsLength(progress[..|progress| - 1]) + Max0(Round(progress[|progress| - 1].width)) + 1
  }

  /** The uncoloured bar is the segments of `progress` concatenated in order:
      extending `progress` by one entry appends exactly that entry's segment.
      Its length is the sum of the segment lengths, and it is empty exactly
      when no phase is shown. */
  lemma {:induction false} BarText(progress: seq<Progress>)
    ensures |Plain(BarSpans(progress))| == SegmentsLength(progress)
    ensures Plain(BarSpans(progress)) == "" <==> progress == []
    ensures progress != [] ==>
      Plain(BarSpans(progress)) == Plain(BarSpans(progress[..|progress| - 1]))
                                   + Segment(progress[|progress| - 1].abbreviation, progress[|progress| - 1].width)
  {
    if progress != [] {
      var init := progress[..|progress| - 1];
      BarText(init);
      assert BarSpans(progress)[..|progress| - 1] == BarSpans(init);
    }
  }
}
