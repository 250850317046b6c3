/** The total computed by an unseeded `reduce` counts the first value of the
    `timings` object even when it is negative, and HAR files mark a phase
    that does not apply with -1 (`blocked` usually comes first). This module
    exhibits what that does to the breakdown, and proves that the total the
    reducer evidently aims at (`reduce(reducer, 0)`, every non-negative value)
    is positive whenever a phase is shown; with it the unrounded shares add up
    to at most 100, the printed percentages to at most 100 + 0.005 n, and the
    bar to at most 80 + n/2 characters for n shown phases. */
module Findings {
  import opened Wrappers
  import opened JsNumbers
  import opened Timings
  import opened Layout
  import opened Bar
  import opened Breakdown

  // ---------------------------------------------------------------------
  // As written

  /** `{ blocked: -1, wait: 1, receive: 1 }`. */
  const NegativeFirst: seq<Field> := [Field("blocked", -1.0), Field("wait", 1.0), Field("receive", 1.0)]

  /** `{ blocked: -1, wait: 1 }`. */
  const ZeroTotal: seq<Field> := [Field("blocked", -1.0), Field("wait", 1.0)]

  /** The sum of the unrounded percentages of the shown phases. */
  function SumShares(sorted: seq<Measured>, total: real): real
    requires total != 0.0 || sorted == []
  {
    if sorted == [] then 0.0 else SumShares(sorted[..|sorted| - 1], total) + Share(sorted[|sorted| - 1], total)
  }

  /** The sum of the percentages as printed, each rounded to two decimals. */
  function SumPrinted(sorted: seq<Measured>, total: real): real
    requires total != 0.0 || sorted == []
  {
    if sorted == [] then 0.0 else SumPrinted(sorted[..|sorted| - 1], total) + Round2(Share(sorted[|sorted| - 1], total))
  }

  /** Candidates that are not positive drop out of the front of the list. */
  lemma {:induction false} KeepPositiveSkips(cs: seq<(Phase, Option<real>)>, k: nat)
    requires k <= |cs|
    requires forall i :: 0 <= i < k ==> !(cs[i].1.Some? && cs[i].1.value > 0.0)
    ensures KeepPositive(cs) == KeepPositive(cs[k..])
  {
    if k > 0 {
      KeepPositiveSkips(cs[1..], k - 1);
      assert cs[1..][k - 1..] == cs[k..];
    }
  }

  /** The shown phases of an object whose first five phases are not
      positive: `wait` and `receive`, as far as they are positive. */
  lemma {:induction false} OnlyWaitAndReceive(t: seq<Field>)
    requires OrMinusOne(Get(t, "blocked")) <= 0.0 && OrMinusOne(Get(t, "dns")) <= 0.0
    requires OrMinusOne(Get(t, "connect")) <= 0.0 && OrMinusOne(Get(t, "ssl")) <= 0.0
    requires OrMinusOne(Get(t, "send")) <= 0.0
    requires Get(t, "wait").Some? && Get(t, "wait").value > 0.0
    ensures Get(t, "receive").Some? && Get(t, "receive").value > 0.0 ==>
      Sorted(t) == [Measured(Wait, Get(t, "wait").value), Measured(Receive, Get(t, "receive").value)]
    ensures !(Get(t, "receive").Some? && Get(t, "receive").value > 0.0) ==>
      Sorted(t) == [Measured(Wait, Get(t, "wait").value)]
  {
    KeepPositiveSkips(Candidates(t), 5);
    WaitAndReceiveShown(t);
  }

  /** The last two candidates, `wait` and `receive`, with `wait` positive. */
  lemma {:induction false} WaitAndReceiveShown(t: seq<Field>)
    requires Get(t, "wait").Some? && Get(t, "wait").value > 0.0
    ensures Get(t, "receive").Some? && Get(t, "receive").value > 0.0 ==>
      KeepPositive(Candidates(t)[5..]) == [Measured(Wait, Get(t, "wait").value), Measured(Receive, Get(t, "receive").value)]
    ensures !(Get(t, "receive").Some? && Get(t, "receive").value > 0.0) ==>
      KeepPositive(Candidates(t)[5..]) == [Measured(Wait, Get(t, "wait").value)]
  {
    var w, r := Get(t, "wait"), Get(t, "receive");
    var last := Candidates(t)[5..];
    assert last == [(Wait, w), (Receive, r)];
    assert KeepPositive(last) == [Measured(Wait, w.value)] + KeepPositive(last[1..]);
    var tail := last[1..];
    assert tail == [(Receive, r)] && tail[1..] == [];
    if r.Some? && r.value > 0.0 {
      assert KeepPositive(tail) == [Measured(Receive, r.value)];
    } else {
      assert KeepPositive(tail) == [];
    }
  }

  lemma {:induction false} NegativeFirstTotal()
    ensures Total(NegativeFirst) == Some(1.0)
  {
    assert Values(NegativeFirst) == [-1.0, 1.0, 1.0];
    assert [-1.0, 1.0, 1.0][1..][1..] == [1.0];
  }

  lemma {:induction false} NegativeFirstGets()
    ensures Get(NegativeFirst, "blocked") == Some(-1.0)
    ensures Get(NegativeFirst, "wait") == Some(1.0) && Get(NegativeFirst, "receive") == Some(1.0)
    ensures Get(NegativeFirst, "dns") == Get(NegativeFirst, "connect") == None
    ensures Get(NegativeFirst, "ssl") == Get(NegativeFirst, "send") == None
  {
  }

  /** The total and the shown phases of `{ blocked: -1, wait: 1, receive: 1 }`. */
  lemma {:induction false} NegativeFirstShown()
    ensures Total(NegativeFirst) == Some(1.0)
    ensures Sorted(NegativeFirst) == [Measured(Wait, 1.0), Measured(Receive, 1.0)]
  {
    NegativeFirstTotal();
    NegativeFirstGets();
    OnlyWaitAndReceive(NegativeFirst);
  }

  /** The bar for `wait` and `receive`, both 1, under the total 1. */
  lemma {:induction false} NegativeFirstBar()
    ensures var sorted := [Measured(Wait, 1.0), Measured(Receive, 1.0)];
      && SumShares(sorted, 1.0) == 200.0
      && SegmentsLength(ProgressFor(sorted, 1.0, 2)) == 158
  {
    var sorted := [Measured(Wait, 1.0), Measured(Receive, 1.0)];
    assert sorted[..1] == [Measured(Wait, 1.0)];
    assert Share(Measured(Wait, 1.0), 1.0) == 100.0 && Share(Measured(Receive, 1.0), 1.0) == 100.0;
    assert Round2(100.0) == 100.0 by {
      assert Hundredths(100.0) == 10000;
    }
    assert WidthOf(100.0, 2) == 78.0;
    var progress := ProgressFor(sorted, 1.0, 2);
    assert progress == [Progress(Wait, 'w', 78.0), Progress(Receive, 'r', 78.0)];
    assert Round(78.0) == 78;
    assert progress[..1] == [Progress(Wait, 'w', 78.0)];
    assert progress[..1][..0] == [];
    assert SegmentsLength(progress[..1]) == 79;
  }

  /** With the total as written, `{ blocked: -1, wait: 1, receive: 1 }` has
      the total 1: both phases are printed at 100.00%, their percentages add
      up to 200, and the bar is 158 characters long instead of about 80. */
  lemma {:induction false} AsWrittenBarOverflows(time: real)
    ensures Total(NegativeFirst) == Some(1.0)
    ensures Sorted(NegativeFirst) == [Measured(Wait, 1.0), Measured(Receive, 1.0)]
    ensures SumShares(Sorted(NegativeFirst), 1.0) == 200.0
    ensures var bar := BarSpans(ProgressFor(Sorted(NegativeFirst), 1.0, 2));
      && TimingRows(NegativeFirst, time, true) == Ok([BarRow(bar)])
      && |Plain(bar)| == 158 > MaxLength + 1
  {
    NegativeFirstShown();
    NegativeFirstBar();
    BarText(ProgressFor(Sorted(NegativeFirst), 1.0, 2));
  }

  /** With the total as written, `{ blocked: -1, wait: 1 }` has the total 0
      while `wait` is shown: its width is infinite and `printTimings` never
      produces its rows. */
  lemma {:induction false} AsWrittenZeroTotal(time: real, isCompact: bool)
    ensures Total(ZeroTotal) == Some(0.0)
    ensures Sorted(ZeroTotal) == [Measured(Wait, 1.0)]
    ensures TimingRows(ZeroTotal, time, isCompact) == Err(InfiniteWidth)
  {
    ZeroTotalSum();
    ZeroTotalGets();
    OnlyWaitAndReceive(ZeroTotal);
  }

  lemma {:induction false} ZeroTotalSum()
    ensures Total(ZeroTotal) == Some(0.0)
  {
    assert Values(ZeroTotal) == [-1.0, 1.0];
  }

  lemma {:induction false} ZeroTotalGets()
    ensures Get(ZeroTotal, "blocked") == Some(-1.0)
    ensures Get(ZeroTotal, "wait") == Some(1.0) && Get(ZeroTotal, "receive") == None
    ensures Get(ZeroTotal, "dns") == Get(ZeroTotal, "connect") == None
    ensures Get(ZeroTotal, "ssl") == Get(ZeroTotal, "send") == None
  {
  }

  // ---------------------------------------------------------------------
  // Corrected

  /** The rows `printTimings` writes with the corrected total. An empty
      object no longer throws: its total is 0 and no phase is shown. */
  function CorrectedRows(t: seq<Field>, time: real, isCompact: bool): Result<seq<Row>, Failure> {
    RowsFor(Sorted(t), CorrectedTotal(t), time, isCompact)
  }

  /** The corrected total agrees with the total as written whenever the first
      value is not negative. */
  lemma {:induction false} CorrectedTotalAgrees(t: seq<Field>)
    requires t != [] && t[0].value >= 0.0
    ensures Total(t) == Some(CorrectedTotal(t))
  {
    TotalCountsFirstValue(t);
    assert Values(t)[0] == t[0].value;
  }

  /** With the corrected total, `printTimings` always writes its rows. */
  lemma {:induction false} CorrectedAlwaysWrites(t: seq<Field>, time: real, isCompact: bool)
    requires IsObject(t)
    ensures CorrectedRows(t, time, isCompact).Ok?
    ensures isCompact ==> |CorrectedRows(t, time, isCompact).value| == 1
    ensures !isCompact ==> |CorrectedRows(t, time, isCompact).value| == 2 + |Sorted(t)|
  {
    ShownWithinCorrectedTotal(t);
  }

  lemma {:induction false} SumShownLast(ms: seq<Measured>)
    requires ms != []
    ensures SumShown(ms) == SumShown(ms[..|ms| - 1]) + ms[|ms| - 1].value
  {
    if |ms| > 1 {
      SumShownLast(ms[1..]);
      assert ms[1..][..|ms| - 2] == ms[..|ms| - 1][1..];
    }
  }

  lemma DivSum(a: real, b: real, c: real)
    requires c != 0.0
    ensures (a + b) / c * 100.0 == a / c * 100.0 + b / c * 100.0
  {
  }

  /** The unrounded shares of the shown phases add up to their summed value
      over the total, times 100. */
  lemma {:induction false} SharesScale(sorted: seq<Measured>, total: real)
    requires total != 0.0
    ensures SumShares(sorted, total) == SumShown(sorted) / total * 100.0
  {
    if sorted != [] {
      var init, last := sorted[..|sorted| - 1], sorted[|sorted| - 1];
      SharesScale(init, total);
      SumShownLast(sorted);
      DivSum(SumShown(init), last.value, total);
    }
  }

  lemma RatioAtMostOne(x: real, c: real)
    requires 0.0 < c && x <= c
    ensures x / c * 100.0 <= 100.0
  {
    assert x / c <= 1.0 by {
      assert x / c * c == x;
    }
  }

  lemma RatioPositive(x: real, c: real)
    requires 0.0 < x && 0.0 < c
    ensures x / c * 100.0 > 0.0
  {
    assert x / c * c == x;
  }

  /** With the corrected total, the unrounded shares of the shown phases add
      up to at most 100. */
  lemma {:induction false} CorrectedSharesAtMost100(t: seq<Field>)
    requires IsObject(t)
    ensures CorrectedTotal(t) > 0.0 || Sorted(t) == []
    ensures SumShares(Sorted(t), CorrectedTotal(t)) <= 100.0
  {
    ShownWithinCorrectedTotal(t);
    if Sorted(t) != [] {
      SharesScale(Sorted(t), CorrectedTotal(t));
      RatioAtMostOne(SumShown(Sorted(t)), CorrectedTotal(t));
    }
  }

  /** The sum of the real widths of `progress`. */
  function SumWidths(progress: seq<Progress>): real {
    if progress == [] then 0.0 else SumWidths(progress[..|progress| - 1]) + progress[|progress| - 1].width
  }

  /** A segment of width `w >= 0` takes at most `w + 1.5` characters, the
      delimiter included. */
  lemma {:induction false} SegmentsWithinWidths(progress: seq<Progress>)
    requires forall i :: 0 <= i < |progress| ==> progress[i].width >= 0.0
    ensures SegmentsLength(progress) as real <= SumWidths(progress) + 1.5 * |progress| as real
  {
    if progress != [] {
      var init := progress[..|progress| - 1];
      SegmentsWithinWidths(init);
    }
  }

  /** The widths pushed for positive phases under a positive total are not
      negative, and add up to at most the width of the summed unrounded
      shares plus one rounding step (0.005) per phase. */
  lemma {:induction false} WidthsOfShown(sorted: seq<Measured>, total: real, count: nat)
    requires total > 0.0 && count <= MaxLength
    requires forall m :: m in sorted ==> m.value > 0.0
    ensures var progress := ProgressFor(sorted, total, count);
      && (forall i :: 0 <= i < |progress| ==> progress[i].width >= 0.0)
      && SumWidths(progress) <= WidthOf(SumShares(sorted, total) + 0.005 * |sorted| as real, count)
  {
    if sorted != [] {
      var init, last := sorted[..|sorted| - 1], sorted[|sorted| - 1];
      assert forall m :: m in init ==> m in sorted;
      WidthsOfShown(init, total, count);
      var share := Share(last, total);
      RatioPositive(last.value, total);
      WidthOfMonotone(0.0, Round2(share), count);
      WidthOfMonotone(Round2(share), share + 0.005, count);
      WidthOfSum(SumShares(init, total) + 0.005 * |init| as real, share + 0.005, count);
    }
  }

  /** With the corrected total, the uncoloured bar of `n` shown phases is at
      most `80 + n / 2` characters long: each of the `80 - n` characters of
      the budget goes to at most one phase, rounding adds at most half a
      character per segment, and each segment adds its '|'. */
  lemma {:induction false} CorrectedBarFits(t: seq<Field>)
    requires IsObject(t)
    ensures CorrectedTotal(t) > 0.0 || Sorted(t) == []
    ensures var n := |Sorted(t)|;
      |Plain(BarSpans(ProgressFor(Sorted(t), CorrectedTotal(t), n)))| <= MaxLength + n / 2
  {
    var s, total := Sorted(t), CorrectedTotal(t);
    var n := |s|;
    ShownWithinCorrectedTotal(t);
    var progress := ProgressFor(s, total, n);
    BarText(progress);
    if s != [] {
      assert forall m :: m in s ==> m.value > 0.0;
      WidthsOfShown(s, total, n);
      CorrectedSharesAtMost100(t);
      SegmentsWithinWidths(progress);
      BarBudget(SegmentsLength(progress), SumWidths(progress), SumShares(s, total), n);
    }
  }

  /** The arithmetic of the bar's budget: segments within their widths plus
      1.5 characters each, widths within the summed shares plus 0.005 per
      phase, and shares within 100, give at most `80 + n / 2` characters. */
  lemma {:induction false} BarBudget(len: nat, widths: real, shares: real, n: nat)
    requires 1 <= n <= 7 && shares <= 100.0
    requires len as real <= widths + 1.5 * n as real
    requires widths <= WidthOf(shares + 0.005 * n as real, n)
    ensures len <= MaxLength + n / 2
  {
    WidthOfMonotone(shares + 0.005 * n as real, 100.035, n);
    assert len as real <= 80.03 + 0.5 * n as real;
    assert n == 2 * (n / 2) + n % 2;
  }

  /** Rounding each percentage moves the printed sum by at most 0.005 per
      phase from the sum of the unrounded shares. */
  lemma {:induction false} PrintedNearShares(sorted: seq<Measured>, total: real)
    requires total != 0.0
    ensures SumShares(sorted, total) - 0.005 * |sorted| as real <= SumPrinted(sorted, total)
    ensures SumPrinted(sorted, total) <= SumShares(sorted, total) + 0.005 * |sorted| as real
  {
    if sorted != [] {
      PrintedNearShares(sorted[..|sorted| - 1], total);
    }
  }

  /** With the corrected total, the printed percentages of the `n` shown
      phases add up to at most `100 + 0.005 * n`. */
  lemma {:induction false} CorrectedPrintedAtMost100(t: seq<Field>)
    requires IsObject(t)
    ensures CorrectedTotal(t) > 0.0 || Sorted(t) == []
    ensures SumPrinted(Sorted(t), CorrectedTotal(t)) <= 100.0 + 0.005 * |Sorted(t)| as real
  {
    CorrectedSharesAtMost100(t);
    if Sorted(t) != [] {
      PrintedNearShares(Sorted(t), CorrectedTotal(t));
    }
  }

  // ---------------------------------------------------------------------
  // Rounding, with a total that is not in question

  /** `{ blocked: 1, wait: 1, receive: 1 }`. */
  const EqualThirds: seq<Field> := [Field("blocked", 1.0), Field("wait", 1.0), Field("receive", 1.0)]

  lemma {:induction false} EqualThirdsGets()
    ensures Get(EqualThirds, "blocked") == Some(1.0)
    ensures Get(EqualThirds, "wait") == Some(1.0) && Get(EqualThirds, "receive") == Some(1.0)
    ensures Get(EqualThirds, "dns") == Get(EqualThirds, "connect") == None
    ensures Get(EqualThirds, "ssl") == Get(EqualThirds, "send") == None
  {
  }

  lemma {:induction false} EqualThirdsTotal()
    ensures Total(EqualThirds) == Some(3.0) && CorrectedTotal(EqualThirds) == 3.0
  {
    assert Values(EqualThirds) == [1.0, 1.0, 1.0];
    assert [1.0, 1.0, 1.0][1..][1..] == [1.0];
  }

  /** The shown phases of an object whose `blocked` is positive and whose
      next four phases are not: `blocked`, then `wait` and `receive` as far
      as they are positive. */
  lemma {:induction false} BlockedThenWaitAndReceive(t: seq<Field>)
    requires OrMinusOne(Get(t, "blocked")) > 0.0
    requires OrMinusOne(Get(t, "dns")) <= 0.0 && OrMinusOne(Get(t, "connect")) <= 0.0
    requires OrMinusOne(Get(t, "ssl")) <= 0.0 && OrMinusOne(Get(t, "send")) <= 0.0
    ensures Sorted(t) == [Measured(Blocked, OrMinusOne(Get(t, "blocked")))] + KeepPositive(Candidates(t)[5..])
  {
    var cs := Candidates(t);
    assert KeepPositive(cs) == [Measured(Blocked, OrMinusOne(Get(t, "blocked")))] + KeepPositive(cs[1..]);
    KeepPositiveSkips(cs[1..], 4);
    assert cs[1..][4..] == cs[5..];
  }

  lemma {:induction false} EqualThirdsReads()
    ensures OrMinusOne(Get(EqualThirds, "blocked")) == 1.0
    ensures OrMinusOne(Get(EqualThirds, "dns")) == OrMinusOne(Get(EqualThirds, "connect")) == -1.0
    ensures OrMinusOne(Get(EqualThirds, "ssl")) == OrMinusOne(Get(EqualThirds, "send")) == -1.0
    ensures Get(EqualThirds, "wait") == Get(EqualThirds, "receive") == Some(1.0)
  {
    EqualThirdsGets();
  }

  /** The shown phases of `{ blocked: 1, wait: 1, receive: 1 }`. */
  lemma {:induction false} EqualThirdsShown()
    ensures Sorted(EqualThirds) == [Measured(Blocked, 1.0), Measured(Wait, 1.0), Measured(Receive, 1.0)]
  {
    EqualThirdsReads();
    BlockedWaitAndReceiveShown(EqualThirds);
  }

  /** `blocked`, `wait` and `receive` positive, the phases between them not:
      exactly those three are shown. */
  lemma {:induction false} BlockedWaitAndReceiveShown(t: seq<Field>)
    requires OrMinusOne(Get(t, "blocked")) > 0.0
    requires OrMinusOne(Get(t, "dns")) <= 0.0 && OrMinusOne(Get(t, "connect")) <= 0.0
    requires OrMinusOne(Get(t, "ssl")) <= 0.0 && OrMinusOne(Get(t, "send")) <= 0.0
    requires Get(t, "wait").Some? && Get(t, "wait").value > 0.0
    requires Get(t, "receive").Some? && Get(t, "receive").value > 0.0
    ensures Sorted(t) == [Measured(Blocked, OrMinusOne(Get(t, "blocked"))),
                          Measured(Wait, Get(t, "wait").value), Measured(Receive, Get(t, "receive").value)]
  {
    BlockedThenWaitAndReceive(t);
    WaitAndReceiveShown(t);
  }

  /** A phase worth a third of the total prints as 33.33% and gets the width
      25.6641 when three phases are shown. */
  lemma {:induction false} ThirdWidth(m: Measured)
    requires m.value == 1.0
    ensures ProgressOf(m, 3.0, 3) == Progress(m.phase, Abbreviation(m.phase), 25.6641)
  {
    assert Share(m, 3.0) == 100.0 / 3.0;
    assert Hundredths(100.0 / 3.0) == 3333;
    assert Round2(100.0 / 3.0) == 33.33;
    assert WidthOf(33.33, 3) == 25.6641;
  }

  /** Three phases of a third each: every width is 25.6641 and rounds up to
      26, so each segment takes 27 characters. */
  lemma {:induction false} EqualThirdsBar()
    ensures var sorted := [Measured(Blocked, 1.0), Measured(Wait, 1.0), Measured(Receive, 1.0)];
      SegmentsLength(ProgressFor(sorted, 3.0, 3)) == 81
  {
    var sorted := [Measured(Blocked, 1.0), Measured(Wait, 1.0), Measured(Receive, 1.0)];
    var progress := ProgressFor(sorted, 3.0, 3);
    ThirdWidth(sorted[0]);
    ThirdWidth(sorted[1]);
    ThirdWidth(sorted[2]);
    ProgressForAt(sorted, 3.0, 3, 0);
    ProgressForAt(sorted, 3.0, 3, 1);
    ProgressForAt(sorted, 3.0, 3, 2);
    assert Round(25.6641) == 26;
    assert progress == [Progress(Blocked, 'b', 25.6641), Progress(Wait, 'w', 25.6641), Progress(Receive, 'r', 25.6641)];
    assert progress[..2][..1][..0] == [];
    assert SegmentsLength(progress[..2][..1]) == 27;
    assert SegmentsLength(progress[..2]) == 54;
  }

  /** Even when the total is the sum of the values, rounding alone takes the
      bar past its 80 characters: `{ blocked: 1, wait: 1, receive: 1 }`
      draws 81, the most `CorrectedBarFits` allows for three phases. */
  lemma {:induction false} RoundingOverflows(time: real)
    ensures Total(EqualThirds) == Some(CorrectedTotal(EqualThirds))
    ensures var bar := BarSpans(ProgressFor(Sorted(EqualThirds), 3.0, 3));
      && TimingRows(EqualThirds, time, true) == Ok([BarRow(bar)])
      && |Plain(bar)| == 81 > MaxLength
  {
    EqualThirdsTotal();
    EqualThirdsShown();
    EqualThirdsBar();
    BarText(ProgressFor(Sorted(EqualThirds), 3.0, 3));
  }

  /** `{ wait: 24690, receive: 175310 }`. */
  const HalfUpTwice: seq<Field> := [Field("wait", 24690.0), Field("receive", 175310.0)]

  lemma {:induction false} HalfUpTwiceGets()
    ensures Get(HalfUpTwice, "wait") == Some(24690.0) && Get(HalfUpTwice, "receive") == Some(175310.0)
    ensures Get(HalfUpTwice, "blocked") == Get(HalfUpTwice, "dns") == Get(HalfUpTwice, "connect") == None
    ensures Get(HalfUpTwice, "ssl") == Get(HalfUpTwice, "send") == None
  {
  }

  lemma {:induction false} HalfUpTwiceTotal()
    ensures Total(HalfUpTwice) == Some(200000.0) && CorrectedTotal(HalfUpTwice) == 200000.0
  {
    assert Values(HalfUpTwice) == [24690.0, 175310.0];
  }

  /** Even when the total is the sum of the values, the printed percentages
      can add up to more than 100: 12.345% and 87.655% both round up, to
      12.35 and 87.66, which add up to 100.01. */
  lemma {:induction false} PrintedOver100()
    ensures Total(HalfUpTwice) == Some(CorrectedTotal(HalfUpTwice)) && CorrectedTotal(HalfUpTwice) == 200000.0
    ensures Sorted(HalfUpTwice) == [Measured(Wait, 24690.0), Measured(Receive, 175310.0)]
    ensures SumShares(Sorted(HalfUpTwice), 200000.0) == 100.0
    ensures SumPrinted(Sorted(HalfUpTwice), 200000.0) == 100.01
  {
    HalfUpTwiceTotal();
    HalfUpTwiceGets();
    OnlyWaitAndReceive(HalfUpTwice);
    var sorted := [Measured(Wait, 24690.0), Measured(Receive, 175310.0)];
    assert sorted[..1] == [Measured(Wait, 24690.0)] && sorted[..1][..0] == [];
    assert Share(sorted[0], 200000.0) == 12.345 && Share(sorted[1], 200000.0) == 87.655;
    assert Hundredths(12.345) == 1235 && Hundredths(87.655) == 8766;
  }
  // The `total time` value

  /** `time` does not take part in `maxMeasurementLength`, yet the `total time`
      value is padded to it: with `wait` 80 and `receive` 30 the column is 5
      characters wide, while a `time` of 115 prints as 6. */
  lemma {:induction false} TimeWiderThanColumn()
    ensures MaxMeasurementLength(FixedValues([Measured(Wait, 80.0), Measured(Receive, 30.0)])) == 5
    ensures |PadStart(ToFixed2(115.0), 5)| == |ToFixed2(115.0)| == 6
  {
    WholeLengths();
    FixedValuesOfTwo(Measured(Wait, 80.0), Measured(Receive, 30.0));
    MaxOfTwo(ToFixed2(80.0), ToFixed2(30.0));
  }

  /** The printed lengths of 80, 30 and 115. */
  lemma {:induction false} WholeLengths()
    ensures |ToFixed2(80.0)| == 5 && |ToFixed2(30.0)| == 5 && |ToFixed2(115.0)| == 6
  {
    WholeToFixed2(80);
    WholeToFixed2(30);
    WholeToFixed2(115);
    assert NatToString(80) == NatToString(8) + [DigitChar(0)];
    assert NatToString(30) == NatToString(3) + [DigitChar(0)];
    assert NatToString(115) == NatToString(11) + [DigitChar(5)];
    assert NatToString(11) == NatToString(1) + [DigitChar(1)];
  }

  /** The two-decimal strings of two shown phases. */
  lemma {:induction false} FixedValuesOfTwo(m1: Measured, m2: Measured)
    ensures FixedValues([m1, m2]) == [ToFixed2(m1.value), ToFixed2(m2.value)]
  {
    var ms := [m1, m2];
    assert ms[..1] == [m1] && ms[..1][..0] == [];
  }

  /** `maxMeasurementLength` over two strings. */
  lemma {:induction false} MaxOfTwo(a: string, b: string)
    ensures MaxMeasurementLength([a, b]) == if |a| >= |b| then (if |a| > 1 then |a| else 1) else |b|
  {
    var vs := [a, b];
    assert vs[..1] == [a] && vs[..1][..0] == [];
  }

  /** A whole number prints its digits followed by `.00`. */
  lemma {:induction false} WholeToFixed2(n: nat)
    ensures ToFixed2(n as real) == NatToString(n) + ".00"
  {
    assert Hundredths(n as real) == 100 * n;
    assert (100 * n) / 100 == n && (100 * n) % 100 / 10 == 0 && (100 * n) % 10 == 0;
  }
}
