/** The JavaScript number operations the breakdown relies on, over exact
    reals: `Math.round`, `Math.ceil`, `Number.prototype.toFixed(2)`, the
    `Number(...)` conversion of the strings `toFixed` produces,
    `String.prototype.padStart` and the decimal form of integers. */
module JsNumbers {
  import opened Wrappers

  /** `Math.ceil`: the least integer not below `x`. */
  function Ceil(x: real): (r: int)
    ensures x <= r as real < x + 1.0
  {
    -((-x).Floor)
  }

  /** `Math.round`: the nearest integer, a half rounded up (towards +infinity). */
  function Round(x: real): (r: int)
    ensures x - 0.5 < r as real <= x + 0.5
  {
    (x + 0.5).Floor
  }

  function Abs(x: real): (r: real)
    ensures r >= 0.0 && (r == x || r == -x)
  {
    if x < 0.0 then -x else x
  }

  /** The number of hundredths `toFixed(2)` prints for `x`: the magnitude is
      rounded to the nearest hundredth, a half rounded away from zero. */
  function Hundredths(x: real): (h: nat)
    ensures Abs(x) * 100.0 - 0.5 < h as real <= Abs(x) * 100.0 + 0.5
  {
    Round(Abs(x) * 100.0)
  }

  /** The value of `x.toFixed(2)`: `x` rounded to two decimals. */
  function Round2(x: real): (r: real)
    ensures x - 0.005 <= r <= x + 0.005
    ensures x >= 0.0 ==> r >= 0.0
  {
    if x < 0.0 then -(Hundredths(x) as real / 100.0) else Hundredths(x) as real / 100.0
  }

  predicate IsDigit(c: char) {
    '0' <= c <= '9'
  }

  predicate AllDigits(s: string) {
    forall i :: 0 <= i < |s| ==> IsDigit(s[i])
  }

  function DigitChar(d: nat): (c: char)
    requires d < 10
    ensures IsDigit(c) && c as int - '0' as int == d
  {
    "0123456789"[d]
  }

  /** Decimal digits of `n` without leading zeros: `String(n)` for a
      non-negative integer. */
  function NatToString(n: nat): (s: string)
    ensures |s| >= 1 && AllDigits(s)
  {
    if n < 10 then [DigitChar(n)] else NatToString(n / 10) + [DigitChar(n % 10)]
  }

  /** `String(i)` for any integer. */
  function IntToString(i: int): (s: string)
    ensures |s| >= 1
  {
    if i < 0 then "-" + NatToString(-i) else NatToString(i)
  }

  /** The number a string of decimal digits denotes. */
  function DigitsValue(s: string): nat
    requires AllDigits(s)
  {
    if s == [] then 0 else DigitsValue(s[..|s| - 1]) * 10 + (s[|s| - 1] as int - '0' as int)
  }

  lemma {:induction false} DigitsValueOfNatToString(n: nat)
    ensures DigitsValue(NatToString(n)) == n
  {
    if n >= 10 {
      DigitsValueOfNatToString(n / 10);
      var s := NatToString(n);
      assert s[..|s| - 1] == NatToString(n / 10);
    }
  }

  /** `x.toFixed(2)`: an optional minus sign, the integer part and exactly two
      decimals. */
  function ToFixed2(x: real): (s: string)
    ensures |s| >= 4
    ensures s[0] == '-' <==> x < 0.0
    ensures var sign := if x < 0.0 then 1 else 0;
      sign < |s| - 3 && AllDigits(s[sign..|s| - 3])
    ensures s[|s| - 3] == '.' && IsDigit(s[|s| - 2]) && IsDigit(s[|s| - 1])
  {
    (if x < 0.0 then "-" else "") + FixedDigits(Hundredths(x))
  }

  /** The unsigned digits `toFixed(2)` prints for `h` hundredths. */
  function FixedDigits(h: nat): (s: string)
    ensures |s| >= 4 && IsDigit(s[0]) && AllDigits(s[..|s| - 3])
    ensures s[|s| - 3] == '.' && IsDigit(s[|s| - 2]) && IsDigit(s[|s| - 1])
  {
    NatToString(h / 100) + "." + [DigitChar(h % 100 / 10), DigitChar(h % 10)]
  }

  /** Index of the first '.' in `s`, or `|s|` when there is none. */
  function IndexOfPoint(s: string): (k: nat)
    ensures k <= |s| && '.' !in s[..k]
    ensures k < |s| ==> s[k] == '.'
  {
    if s == [] then 0 else if s[0] == '.' then 0 else 1 + IndexOfPoint(s[1..])
  }

  function Pow10(k: nat): (p: nat)
    ensures p >= 1
  {
    if k == 0 then 1 else 10 * Pow10(k - 1)
  }

  /** The value of the decimal `whole.fraction`. */
  function Decimal(whole: string, fraction: string): (d: real)
    requires AllDigits(whole) && AllDigits(fraction)
    ensures d >= DigitsValue(whole) as real
  {
    var f, p := DigitsValue(fraction) as real, Pow10(|fraction|) as real;
    assert f / p >= 0.0 by {
      assert f / p * p == f;
    }
    DigitsValue(whole) as real + f / p
  }

  /** `Number(s)` for an unsigned decimal: digits, a point, digits, where
      either side of the point may be empty but not both, and the point may
      be missing. `None` stands for `NaN`. */
  function UnsignedNumberOf(s: string): (r: Option<real>)
    ensures s == "" || s == "." ==> r.None?
    ensures r.Some? ==> r.value >= 0.0
  {
    var k := IndexOfPoint(s);
    var whole := s[..k];
    if !AllDigits(whole) then None
    else if k == |s| then
      if whole == [] then None else Some(DigitsValue(whole) as real)
    else
      var fraction := s[k + 1..];
      if (whole == [] && fraction == []) || !AllDigits(fraction) then None
      else Some(Decimal(whole, fraction))
  }

  /** `Number(s)` for an optionally signed decimal; the empty string reads as
      0 and `None` stands for `NaN`. */
  function NumberOf(s: string): (r: Option<real>)
    ensures s == "" ==> r == Some(0.0)
    ensures s == "-" || s == "." || s == "-." ==> r.None?
    ensures r.Some? && r.value != 0.0 ==> s != "" && (s[0] == '-' <==> r.value < 0.0)
  {
    if s == "" then Some(0.0)
    else if s[0] == '-' then
      match UnsignedNumberOf(s[1..])
      case Some(v) => Some(-v)
      case None => None
    else UnsignedNumberOf(s)
  }

  lemma {:induction false} IndexOfPointAfterDigits(w: string, rest: string)
    requires AllDigits(w) && |rest| > 0 && rest[0] == '.'
    ensures IndexOfPoint(w + rest) == |w|
  {
    if w != [] {
      assert (w + rest)[1..] == w[1..] + rest;
      IndexOfPointAfterDigits(w[1..], rest);
    }
  }

  lemma {:induction false} DigitsValueOfTwo(a: nat, b: nat)
    requires a < 10 && b < 10
    ensures DigitsValue([DigitChar(a), DigitChar(b)]) == 10 * a + b
  {
    var f := [DigitChar(a), DigitChar(b)];
    assert f[..1] == [DigitChar(a)] && f[..1][..0] == [];
    assert DigitsValue(f[..1]) == a;
    assert DigitsValue(f) == DigitsValue(f[..1]) * 10 + b;
  }

  lemma {:induction false} LastTwoDigits(h: nat)
    ensures h % 100 == 10 * (h % 100 / 10) + h % 10
  {
    var q, m := h / 100, h % 100;
    var a, r := m / 10, m % 10;
    assert h == 10 * (10 * q + a) + r;
    assert h / 10 == 10 * q + a && h % 10 == r;
  }

  lemma {:induction false} TwoDigitsValue(h: nat)
    ensures DigitsValue([DigitChar(h % 100 / 10), DigitChar(h % 10)]) == h % 100
  {
    DigitsValueOfTwo(h % 100 / 10, h % 10);
    LastTwoDigits(h);
  }

  lemma {:induction false} SplitHundredths(h: nat)
    ensures (h / 100) as real + (h % 100) as real / 100.0 == h as real / 100.0
  {
    var q, m := h / 100, h % 100;
    assert h == q * 100 + m;
    assert h as real == q as real * 100.0 + m as real;
  }

  lemma {:induction false} UnsignedNumberOfDecimal(w: string, f: string)
    requires w != [] && AllDigits(w) && f != [] && AllDigits(f)
    ensures UnsignedNumberOf(w + "." + f) == Some(Decimal(w, f))
  {
    var s := w + "." + f;
    assert s == w + ("." + f);
    IndexOfPointAfterDigits(w, "." + f);
    var k := IndexOfPoint(s);
    assert k == |w| && k < |s|;
    assert s[..k] == w;
    assert s[k + 1..] == f;
  }

  lemma {:induction false} DecimalOfHundredths(h: nat)
    ensures Decimal(NatToString(h / 100), [DigitChar(h % 100 / 10), DigitChar(h % 10)]) == h as real / 100.0
  {
    var f := [DigitChar(h % 100 / 10), DigitChar(h % 10)];
    DigitsValueOfNatToString(h / 100);
    TwoDigitsValue(h);
    assert Pow10(|f|) == 100;
    SplitHundredths(h);
  }

  lemma {:induction false} UnsignedNumberOfFixed(h: nat)
    ensures UnsignedNumberOf(FixedDigits(h)) == Some(h as real / 100.0)
  {
    UnsignedNumberOfDecimal(NatToString(h / 100), [DigitChar(h % 100 / 10), DigitChar(h % 10)]);
    DecimalOfHundredths(h);
  }

  /** `Number(x.toFixed(2))` gives back `x` rounded to two decimals. */
  lemma {:induction false} NumberOfToFixed2(x: real)
    ensures NumberOf(ToFixed2(x)) == Some(Round2(x))
  {
    var h := Hundredths(x);
    UnsignedNumberOfFixed(h);
    NumberOfSigned(x < 0.0, FixedDigits(h), h as real / 100.0);
  }

  /** A point may end the digits or start them: `Number("12.")` is 12 and
      `Number("-.5")` is -0.5. */
  lemma {:induction false} NumberOfBarePoint()
    ensures NumberOf("12.") == Some(12.0)
    ensures NumberOf("-.5") == Some(-0.5)
  {
    assert IndexOfPoint("12.") == 2 by {
      assert "12."[1..] == "2." && "2."[1..] == ".";
    }
    assert "12."[..2] == "12" && DigitsValue("12") == 12 by {
      assert "12"[..1] == "1";
    }
    assert "-.5"[1..] == ".5" && IndexOfPoint(".5") == 0;
    assert ".5"[1..] == "5" && DigitsValue("5") == 5 by {
      assert "5"[..0] == "";
    }
  }

  /** `Number` of an optional minus sign followed by an unsigned decimal. */
  lemma {:induction false} NumberOfSigned(negative: bool, body: string, v: real)
    requires |body| > 0 && IsDigit(body[0]) && UnsignedNumberOf(body) == Some(v)
    ensures NumberOf((if negative then "-" else "") + body) == Some(if negative then -v else v)
  {
    if negative {
      var s := "-" + body;
      assert s != "" && s[0] == '-' && s[1..] == body;
    } else {
      assert "" + body == body && body[0] != '-';
    }
  }

  /** `s.padStart(n)`: spaces prepended up to length `n`; never truncates. */
  function PadStart(s: string, n: nat): (r: string)
    ensures |r| == if |s| >= n then |s| else n
    ensures r[|r| - |s|..] == s
    ensures forall i :: 0 <= i < |r| - |s| ==> r[i] == ' '
  {
    if |s| >= n then s else seq(n - |s|, _ => ' ') + s
  }

  /** `toLowerCase` on the ASCII letters. */
  function ToLowerAscii(s: string): (r: string)
    ensures |r| == |s|
    ensures forall i :: 0 <= i < |s| ==> !('A' <= r[i] <= 'Z')
    ensures forall i :: 0 <= i < |s| ==> 'A' <= s[i] <= 'Z' ==> r[i] as int == s[i] as int + 32
    ensures forall i :: 0 <= i < |s| ==> !('A' <= s[i] <= 'Z') ==> r[i] == s[i]
  {
    if s == [] then []
    else [if 'A' <= s[0] <= 'Z' then (s[0] as int + 32) as char else s[0]] + ToLowerAscii(s[1..])
  }
}
