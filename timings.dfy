/** The HAR `timings` object, the phase table, the total that `printTimings`
    computes with an unseeded `reduce`, and the selection of the phases the
    breakdown shows. */
module Timings {
  import opened Wrappers

  datatype Phase = Blocked | Dns | Connect | Ssl | Send | Wait | Receive

  /** Position of a phase in the breakdown's fixed order. */
  function Rank(p: Phase): nat {
    match p
    case Blocked => 0
    case Dns => 1
    case Connect => 2
    case Ssl => 3
    case Send => 4
    case Wait => 5
    case Receive => 6
  }

  /** The property name of the phase in the HAR `timings` object. */
  function Key(p: Phase): string {
    match p
    case Blocked => "blocked"
    case Dns => "dns"
    case Connect => "connect"
    case Ssl => "ssl"
    case Send => "send"
    case Wait => "wait"
    case Receive => "receive"
  }

  /** The label of the phase in the summary rows. */
  function Name(p: Phase): string {
    match p
    case Blocked => "blocked"
    case Dns => "dns resolution"
    case Connect => "connecting"
    case Ssl => "tls setup"
    case Send => "sending"
    case Wait => "waiting"
    case Receive => "receiving"
  }

  /** The one character that marks the phase inside its bar segment. */
  function Abbreviation(p: Phase): char {
    match p
    case Blocked => 'b'
    case Dns => 'd'
    case Connect => 'c'
    case Ssl => 't'
    case Send => 's'
    case Wait => 'w'
    case Receive => 'r'
  }

  /** One own property of the `timings` object. The object is the sequence of
      its properties in the order `Object.values` lists them, which for the
      non-numeric keys of a HAR file is the order they appear in the file. */
  datatype Field = Field(key: string, value: real)

  /** A JavaScript object has each key at most once. */
  predicate IsObject(t: seq<Field>) {
    forall i, j :: 0 <= i < j < |t| ==> t[i].key != t[j].key
  }

  /** `Object.values(timings)`. */
  function Values(t: seq<Field>): (vs: seq<real>)
    ensures |vs| == |t| && forall i :: 0 <= i < |t| ==> vs[i] == t[i].value
  {
    if t == [] then [] else [t[0].value] + Values(t[1..])
  }

  /** `timings[key]`, `None` when the property is absent (`undefined`). */
  function Get(t: seq<Field>, key: string): (r: Option<real>)
    ensures r.None? <==> forall i :: 0 <= i < |t| ==> t[i].key != key
    ensures r.Some? ==> exists i :: 0 <= i < |t| && t[i] == Field(key, r.value)
  {
    if t == [] then None
    else if t[0].key == key then Some(t[0].value)
    else Get(t[1..], key)
  }

  /** The reducer `(acc, cur) => cur < 0 ? acc : cur + acc` applied from
      left to right. */
  function Reduce(acc: real, rest: seq<real>): real
    decreases |rest|
  {
    if rest == [] then acc
    else Reduce(if rest[0] < 0.0 then acc else rest[0] + acc, rest[1..])
  }

  /** `Object.values(timings).reduce(reducer)` with no initial value: the first
      value is the seed, and an empty object makes `reduce` throw (`None`). */
  function Total(t: seq<Field>): (r: Option<real>)
    ensures r.None? <==> t == []
    ensures t != [] ==> r.value >= t[0].value
  {
    var vs := Values(t);
    ReduceAddsNonNeg(if vs == [] then 0.0 else vs[0], if vs == [] then [] else vs[1..]);
    if vs == [] then None else Some(Reduce(vs[0], vs[1..]))
  }

  /** The sum of the non-negative numbers in `vs`. */
  function SumNonNeg(vs: seq<real>): (r: real)
    ensures r >= 0.0
  {
    if vs == [] then 0.0 else (if vs[0] < 0.0 then 0.0 else vs[0]) + SumNonNeg(vs[1..])
  }

  lemma {:induction false} ReduceAddsNonNeg(acc: real, rest: seq<real>)
    ensures Reduce(acc, rest) == acc + SumNonNeg(rest)
    decreases |rest|
  {
    if rest != [] {
      ReduceAddsNonNeg(if rest[0] < 0.0 then acc else rest[0] + acc, rest[1..]);
    }
  }

  /** The total is the first value, whatever its sign, plus every later value
      that is not negative; the reduce throws on an object with no values. */
  lemma {:induction false} TotalCountsFirstValue(t: seq<Field>)
    ensures Total(t).None? <==> t == []
    ensures t != [] ==> Total(t) == Some(t[0].value + SumNonNeg(Values(t)[1..]))
  {
    if t != [] {
      ReduceAddsNonNeg(Values(t)[0], Values(t)[1..]);
    }
  }

  /** `v || -1` for a number read from the object: `undefined` and `0` are
      falsy and become `-1`. */
  function OrMinusOne(o: Option<real>): real {
    if o.Some? && o.value != 0.0 then o.value else -1.0
  }

  /** `v || -1` never yields 0: a truthy value passes through unchanged, and
      the result is positive exactly when the value read is. */
  lemma {:induction false} OrMinusOneTruthy(o: Option<real>)
    ensures OrMinusOne(o) != 0.0
    ensures OrMinusOne(o) > 0.0 <==> o.Some? && o.value > 0.0
    ensures o.Some? && o.value != 0.0 ==> OrMinusOne(o) == o.value
    ensures o.None? || o.value == 0.0 ==> OrMinusOne(o) == -1.0
  {
  }

  /** The `[key, value]` pairs listed before the filter: the first five phases
      go through `|| -1`, `wait` and `receive` are read as they are. */
  function Candidates(t: seq<Field>): seq<(Phase, Option<real>)> {
    [ (Blocked, Some(OrMinusOne(Get(t, "blocked")))),
      (Dns, Some(OrMinusOne(Get(t, "dns")))),
      (Connect, Some(OrMinusOne(Get(t, "connect")))),
      (Ssl, Some(OrMinusOne(Get(t, "ssl")))),
      (Send, Some(OrMinusOne(Get(t, "send")))),
      (Wait, Get(t, "wait")),
      (Receive, Get(t, "receive")) ]
  }

  datatype Measured = Measured(phase: Phase, value: real)

  /** `.filter(([_k, v]) => v > 0)`; `undefined > 0` is false. */
  function KeepPositive(cs: seq<(Phase, Option<real>)>): seq<Measured> {
    if cs == [] then []
    else if cs[0].1.Some? && cs[0].1.value > 0.0 then [Measured(cs[0].0, cs[0].1.value)] + KeepPositive(cs[1..])
    else KeepPositive(cs[1..])
  }

  /** `sortedTimings`: the phases the bar and the summary show. */
  function Sorted(t: seq<Field>): (ms: seq<Measured>)
    ensures |ms| <= 7
    ensures forall i :: 0 <= i < |ms| ==> ms[i].value > 0.0
  {
    KeepPositiveBounds(Candidates(t));
    KeepPositive(Candidates(t))
  }

  lemma {:induction false} KeepPositiveBounds(cs: seq<(Phase, Option<real>)>)
    ensures |KeepPositive(cs)| <= |cs|
    ensures forall i :: 0 <= i < |KeepPositive(cs)| ==> KeepPositive(cs)[i].value > 0.0
  {
    if cs != [] {
      KeepPositiveBounds(cs[1..]);
    }
  }

  lemma {:induction false} KeepPositiveMembers(cs: seq<(Phase, Option<real>)>, p: Phase, v: real)
    ensures Measured(p, v) in KeepPositive(cs) <==> (p, Some(v)) in cs && v > 0.0
  {
    if cs != [] {
      KeepPositiveMembers(cs[1..], p, v);
      assert cs == [cs[0]] + cs[1..];
    }
  }

  lemma {:induction false} KeepPositiveOrdered(cs: seq<(Phase, Option<real>)>)
    requires forall i, j :: 0 <= i < j < |cs| ==> Rank(cs[i].0) < Rank(cs[j].0)
    ensures |KeepPositive(cs)| <= |cs|
    ensures forall m :: m in KeepPositive(cs) ==> m.value > 0.0 && exists i :: 0 <= i < |cs| && cs[i].0 == m.phase
    ensures forall i, j :: 0 <= i < j < |KeepPositive(cs)| ==>
              Rank(KeepPositive(cs)[i].phase) < Rank(KeepPositive(cs)[j].phase)
  {
    if cs != [] {
      KeepPositiveOrdered(cs[1..]);
      var rest := KeepPositive(cs[1..]);
      forall m | m in rest ensures Rank(cs[0].0) < Rank(m.phase) {
        var i :| 0 <= i < |cs[1..]| && cs[1..][i].0 == m.phase;
        assert cs[i + 1].0 == m.phase;
      }
    }
  }

  /** A phase is shown, with value `v`, exactly when the object holds a number
      `v > 0` under the phase's key: missing, zero and negative values drop
      out, `wait` and `receive` included. */
  lemma {:induction false} PhaseShownIffPositive(t: seq<Field>, p: Phase, v: real)
    ensures Measured(p, v) in Sorted(t) <==> Get(t, Key(p)) == Some(v) && v > 0.0
  {
    KeepPositiveMembers(Candidates(t), p, v);
  }

  /** The shown phases keep the order blocked, dns, connect, ssl, send, wait,
      receive, each at most once, and each with a positive value. */
  lemma {:induction false} SortedInPhaseOrder(t: seq<Field>)
    ensures |Sorted(t)| <= 7
    ensures forall m :: m in Sorted(t) ==> m.value > 0.0
    ensures forall i, j :: 0 <= i < j < |Sorted(t)| ==> Rank(Sorted(t)[i].phase) < Rank(Sorted(t)[j].phase)
  {
    KeepPositiveOrdered(Candidates(t));
  }

  /** The total the reducer evidently aims at: every non-negative value, the
      first one included (`reduce(reducer, 0)`). */
  function CorrectedTotal(t: seq<Field>): real {
    SumNonNeg(Values(t))
  }

  /** The sum of the values of the shown phases. */
  function SumShown(ms: seq<Measured>): real {
    if ms == [] then 0.0 else ms[0].value + SumShown(ms[1..])
  }

  /** What the object contributes under `key` if it is positive, else 0. */
  function PositiveAt(t: seq<Field>, key: string): real {
    PositivePart(Get(t, key))
  }

  function SumPositiveAt(t: seq<Field>, keys: seq<string>): real {
    if keys == [] then 0.0 else PositiveAt(t, keys[0]) + SumPositiveAt(t, keys[1..])
  }

  /** The positive part of a candidate value. */
  function PositivePart(o: Option<real>): real {
    if o.Some? && o.value > 0.0 then o.value else 0.0
  }

  function SumPositiveParts(cs: seq<(Phase, Option<real>)>): real {
    if cs == [] then 0.0 else PositivePart(cs[0].1) + SumPositiveParts(cs[1..])
  }

  lemma {:induction false} SumKeepPositive(cs: seq<(Phase, Option<real>)>)
    ensures SumShown(KeepPositive(cs)) == SumPositiveParts(cs)
  {
    if cs != [] {
      SumKeepPositive(cs[1..]);
    }
  }

  const PhaseKeys: seq<string> := ["blocked", "dns", "connect", "ssl", "send", "wait", "receive"]

  lemma PhaseKeysDistinct()
    ensures forall i, j :: 0 <= i < j < |PhaseKeys| ==> PhaseKeys[i] != PhaseKeys[j]
  {
  }

  lemma {:induction false} SumShownIsSumPositiveAt(t: seq<Field>)
    ensures SumShown(Sorted(t)) == SumPositiveAt(t, PhaseKeys)
  {
    var cs := Candidates(t);
    SumKeepPositive(cs);
    forall i | 0 <= i < |cs| ensures PositivePart(cs[i].1) == PositiveAt(t, PhaseKeys[i]) {
    }
    SumPositivePartsByKey(t, cs, PhaseKeys);
  }

  lemma {:induction false} SumPositivePartsByKey(t: seq<Field>, cs: seq<(Phase, Option<real>)>, keys: seq<string>)
    requires |cs| == |keys|
    requires forall i :: 0 <= i < |cs| ==> PositivePart(cs[i].1) == PositiveAt(t, keys[i])
    ensures SumPositiveParts(cs) == SumPositiveAt(t, keys)
  {
    if cs != [] {
      SumPositivePartsByKey(t, cs[1..], keys[1..]);
    }
  }

  lemma {:induction false} SumPositiveAtDropFirst(t: seq<Field>, keys: seq<string>)
    requires t != [] && IsObject(t)
    requires forall i, j :: 0 <= i < j < |keys| ==> keys[i] != keys[j]
    ensures SumPositiveAt(t, keys)
         == (if t[0].key in keys then PositivePart(Some(t[0].value)) else 0.0) + SumPositiveAt(t[1..], keys)
  {
    if keys != [] {
      SumPositiveAtDropFirst(t, keys[1..]);
      if keys[0] == t[0].key {
        assert Get(t[1..], keys[0]).None? by {
          forall i | 0 <= i < |t[1..]| ensures t[1..][i].key != keys[0] {
            assert t[1..][i] == t[i + 1];
          }
        }
        assert t[0].key !in keys[1..];
      } else {
        assert keys == [keys[0]] + keys[1..];
      }
    }
  }

  lemma {:induction false} SumPositiveAtBound(t: seq<Field>, keys: seq<string>)
    requires IsObject(t)
    requires forall i, j :: 0 <= i < j < |keys| ==> keys[i] != keys[j]
    ensures SumPositiveAt(t, keys) <= SumNonNeg(Values(t))
  {
    if t == [] {
      SumPositiveAtEmpty(keys);
    } else {
      SumPositiveAtDropFirst(t, keys);
      SumPositiveAtBound(t[1..], keys);
      assert Values(t)[1..] == Values(t[1..]);
    }
  }

  lemma {:induction false} SumPositiveAtEmpty(keys: seq<string>)
    ensures SumPositiveAt([], keys) == 0.0
  {
    if keys != [] {
      SumPositiveAtEmpty(keys[1..]);
    }
  }

  /** The shown phases never add up to more than the corrected total, so the
      corrected total is positive as soon as one phase is shown. */
  lemma {:induction false} ShownWithinCorrectedTotal(t: seq<Field>)
    requires IsObject(t)
    ensures SumShown(Sorted(t)) <= CorrectedTotal(t)
    ensures Sorted(t) != [] ==> CorrectedTotal(t) > 0.0
  {
    SumShownIsSumPositiveAt(t);
    PhaseKeysDistinct();
    SumPositiveAtBound(t, PhaseKeys);
    if Sorted(t) != [] {
      SortedInPhaseOrder(t);
      SumShownPositive(Sorted(t));
    }
  }

  lemma {:induction false} SumShownPositive(ms: seq<Measured>)
    requires ms != [] && forall m :: m in ms ==> m.value > 0.0
    ensures SumShown(ms) > 0.0
  {
    if ms[1..] != [] {
      SumShownPositive(ms[1..]);
    }
  }
}
