/** Slider and option utilities of app/calculations.py: the cohort-size
    slider options, the fixed tier-percentile options, nearest-option
    snapping, and rounding to a step. */
module Sliders {
  import opened Common
  import opened PyNum

  /** Step that every cohort slider option is rounded to. */
  const SliderStep: int := 5_000

  /** `r ** i` for a whole exponent. */
  function Pow(r: real, i: nat): real {
    if i == 0 then 1.0 else r * Pow(r, i - 1)
  }

  /** `_geomspace(start, stop, steps)`. The fractional power
      `(stop / start) ** (1 / (steps - 1))` is the parameter `root`, read as
      root(x, n) = x ** (1 / n); everything else is as in the source. */
  function Geomspace(start: real, stop: real, steps: int, root: (real, int) -> real): (r: seq<real>)
    requires steps <= 1 || start != 0.0
    ensures steps <= 1 ==> r == [start]
    ensures steps > 1 ==> |r| == steps
    ensures r[0] == start
  {
    if steps <= 1 then [start]
    else
      var ratio := root(stop / start, steps - 1);
      seq(steps, i requires 0 <= i => start * Pow(ratio, i))
  }

  /** `int(round(value / 5_000) * 5_000)`. */
  function RoundToSliderStep(value: real): (r: int)
    ensures r % SliderStep == 0
    ensures -2500.0 <= r as real - value <= 2500.0
    ensures r as real - value == 2500.0 || r as real - value == -2500.0 ==> (r / SliderStep) % 2 == 0
  {
    var q := RoundHalfEven(value / 5000.0);
    MultipleHasNoRemainder(q, SliderStep);
    assert -0.5 <= q as real - value / 5000.0 <= 0.5;
    assert (q * SliderStep) as real - value == 5000.0 * (q as real - value / 5000.0);
    q * SliderStep
  }

  function RoundAll(values: seq<real>): (r: seq<int>)
    ensures |r| == |values|
    ensures forall i :: 0 <= i < |values| ==> r[i] == RoundToSliderStep(values[i])
  {
    if values == [] then [] else [RoundToSliderStep(values[0])] + RoundAll(values[1..])
  }

  /** Index of the first occurrence of x in xs. */
  function FirstIndex(xs: seq<int>, x: int): (k: nat)
    requires x in xs
    ensures k < |xs| && xs[k] == x
    ensures forall j :: 0 <= j < k ==> xs[j] != x
  {
    var init := xs[..|xs| - 1];
    if x in init then FirstIndex(init, x) else |xs| - 1
  }

  /** The `seen`-set loop: the distinct values of xs, each at the position of
      its first occurrence. */
  function OrderedUnique(xs: seq<int>): (r: seq<int>)
    ensures Distinct(r)
    ensures forall x :: x in r <==> x in xs
    ensures forall a, b :: 0 <= a < b < |r| ==> FirstIndex(xs, r[a]) < FirstIndex(xs, r[b])
  {
    if xs == [] then []
    else
      var init := xs[..|xs| - 1];
      var last := xs[|xs| - 1];
      var r := OrderedUnique(init);
      assert forall x :: x in xs <==> x in init || x == last;
      forall y | y in init
        ensures FirstIndex(xs, y) == FirstIndex(init, y)
      {
      }
      if last in r then r
      else
        forall y | y in r
          ensures FirstIndex(xs, y) < FirstIndex(xs, last)
        {
        }
        r + [last]
  }

  /** Every value that reaches the output keeps the rank of its first
      occurrence relative to every other. Applying the de-duplication to
      its own output changes nothing. */
  lemma {:induction false} OrderedUniqueOfDistinct(xs: seq<int>)
    requires Distinct(xs)
    ensures OrderedUnique(xs) == xs
  {
    if xs != [] {
      var init := xs[..|xs| - 1];
      assert Distinct(init);
      OrderedUniqueOfDistinct(init);
      assert xs == init + [xs[|xs| - 1]];
    }
  }

  /** `generate_cohort_slider_options` with the source's keyword defaults
      passed explicitly: a geometric run from min to mid, then one from mid to
      max without its repeated first point, each rounded to 5,000 and
      de-duplicated in order. */
  function GenerateCohortSliderOptions(minVal: int, midVal: int, maxVal: int,
                                       belowSteps: int, aboveSteps: int,
                                       root: (real, int) -> real): (r: seq<int>)
    requires belowSteps <= 1 || minVal != 0
    requires aboveSteps + 1 <= 1 || midVal != 0
    ensures |r| >= 1
    ensures forall i :: 0 <= i < |r| ==> r[i] % SliderStep == 0
    ensures Distinct(r)
    ensures -2500 <= r[0] - minVal <= 2500
    ensures forall x :: x in r <==> x in RoundAll(SliderPoints(minVal, midVal, maxVal, belowSteps, aboveSteps, root))
    ensures forall a, b :: 0 <= a < b < |r| ==>
      var rounded := RoundAll(SliderPoints(minVal, midVal, maxVal, belowSteps, aboveSteps, root));
      FirstIndex(rounded, r[a]) < FirstIndex(rounded, r[b])
  {
    var combined := SliderPoints(minVal, midVal, maxVal, belowSteps, aboveSteps, root);
    var rounded := RoundAll(combined);
    var r := OrderedUnique(rounded);
    assert rounded[0] in r;
    assert r[0] == rounded[0];
    r
  }

  /** The unrounded points: `below + above[1:]`. */
  function SliderPoints(minVal: int, midVal: int, maxVal: int, belowSteps: int, aboveSteps: int,
                        root: (real, int) -> real): (r: seq<real>)
    requires belowSteps <= 1 || minVal != 0
    requires aboveSteps + 1 <= 1 || midVal != 0
    ensures |r| >= 1 && r[0] == minVal as real
  {
    var below := Geomspace(minVal as real, midVal as real, belowSteps, root);
    var above := Geomspace(midVal as real, maxVal as real, aboveSteps + 1, root)[1..];
    below + above
  }

  /** Strictly ascending. */
  predicate StrictlyIncreasing(s: seq<real>) {
    forall i, j :: 0 <= i < j < |s| ==> s[i] < s[j]
  }

  lemma {:induction false} StepwiseIncreasing(s: seq<real>)
    requires forall i :: 0 <= i < |s| - 1 ==> s[i] < s[i + 1]
    ensures StrictlyIncreasing(s)
  {
    if |s| > 1 {
      var init := s[..|s| - 1];
      StepwiseIncreasing(init);
      forall i | 0 <= i < |s| - 1
        ensures s[i] < s[|s| - 1]
      {
        if i < |s| - 2 {
          assert init[i] < init[|s| - 2];
        }
      }
    }
  }

  /** `generate_percentile_options`: fine steps up to the top 10%, coarser
      steps after. */
  function GeneratePercentileOptions(): (r: seq<real>)
    ensures |r| == 25 && r[0] == 0.1 && r[24] == 100.0
    ensures StrictlyIncreasing(r)
    ensures forall i :: 0 <= i < 12 ==> r[i] <= 10.0
    ensures forall i :: 12 <= i < 25 ==> r[i] > 10.0
  {
    var fineGrain := [0.1, 0.2, 0.3, 0.5, 0.75, 1.0, 1.5, 2.0, 3.0, 5.0, 7.5, 10.0];
    var broader := [12.5, 15.0, 20.0, 25.0, 30.0, 35.0, 40.0, 50.0, 60.0, 70.0, 80.0, 90.0, 100.0];
    var r := fineGrain + broader;
    StepwiseIncreasing(r);
    r
  }

  /** Distance of an option from the target: the key of the `min` search. */
  function Gap(opt: real, value: real): real {
    Abs(opt - value)
  }

  /** Index Python's `min(options, key=...)` lands on: a closest option, the
      earliest one on ties. */
  function NearestIndex(value: real, options: seq<real>): (k: nat)
    requires |options| > 0
    ensures k < |options|
    ensures forall j :: 0 <= j < |options| ==> Gap(options[k], value) <= Gap(options[j], value)
    ensures forall j :: 0 <= j < k ==> Gap(options[j], value) > Gap(options[k], value)
  {
    if |options| == 1 then 0
    else
      var init := options[..|options| - 1];
      var k := NearestIndex(value, init);
      assert forall j :: 0 <= j < |init| ==> options[j] == init[j];
      if Gap(options[|options| - 1], value) < Gap(options[k], value) then |options| - 1 else k
  }

  /** `snap_value_to_options`: the value itself when there are no options,
      otherwise the option the `min` search picks. */
  function SnapValueToOptions(value: real, options: seq<real>): (r: real)
    ensures |options| == 0 ==> r == value
    ensures |options| > 0 ==> r in options
    ensures forall j :: 0 <= j < |options| ==> Gap(r, value) <= Gap(options[j], value)
    ensures |options| > 0 ==>
      exists k :: 0 <= k < |options| && r == options[k] &&
        forall j :: 0 <= j < k ==> Gap(options[j], value) > Gap(r, value)
  {
    if |options| == 0 then value else options[NearestIndex(value, options)]
  }

  /** 73 snaps to 80 among 50, 80 and 100. */
  lemma SnapExample()
    ensures SnapValueToOptions(73.0, [50.0, 80.0, 100.0]) == 80.0
  {
    var k := NearestIndex(73.0, [50.0, 80.0, 100.0]);
    assert Gap(80.0, 73.0) == 7.0;
  }

  /** A whole multiple of m leaves no remainder. */
  lemma MultipleHasNoRemainder(q: int, m: int)
    requires m != 0
    ensures (q * m) % m == 0 && (q * m) / m == q
  {
    var d, rem := (q * m) / m, (q * m) % m;
    assert m * (q - d) == rem;
    if q != d {
      ProductAtLeastFactor(m, q - d);
    }
  }

  /** A non-zero whole multiple of m is at least |m| in size. */
  lemma ProductAtLeastFactor(m: int, k: int)
    requires k != 0
    ensures m * k >= m || m * k <= -m
    ensures m * k >= -m || m * k <= m
  {
    if k > 0 {
      PositiveMultiple(if m >= 0 then m else -m, k);
      assert (if m >= 0 then m else -m) * k == (if m >= 0 then m * k else -(m * k));
    } else {
      PositiveMultiple(if m >= 0 then m else -m, -k);
      assert (if m >= 0 then m else -m) * (-k) == (if m >= 0 then -(m * k) else m * k);
    }
  }

  lemma {:induction false} PositiveMultiple(n: nat, k: nat)
    requires k >= 1
    ensures n * k >= n
  {
    if k > 1 {
      PositiveMultiple(n, k - 1);
      assert n * k == n * (k - 1) + n;
    }
  }

  /** Scaling an error of at most one half by s bounds it by |s| / 2. */
  lemma ScaledHalfBound(s: real, e: real)
    requires -0.5 <= e <= 0.5
    ensures Abs(s * e) <= Abs(s) / 2.0
  {
    if s >= 0.0 {
      if e >= 0.0 { assert s * e <= s * 0.5; } else { assert s * (-e) <= s * 0.5; }
    } else {
      if e >= 0.0 { assert (-s) * e <= (-s) * 0.5; } else { assert (-s) * (-e) <= (-s) * 0.5; }
    }
  }

  /** `round_to_step`: the multiple of `step` nearest to `value` (ties to an
      even multiple). */
  function RoundToStep(value: real, step: int): (r: int)
    requires step != 0
    ensures r % step == 0
    ensures Abs(r as real - value) <= Abs(step as real) / 2.0
    ensures Abs(r as real - value) == Abs(step as real) / 2.0 ==> (r / step) % 2 == 0
  {
    var q := RoundHalfEven(value / step as real);
    NearestMultiple(value, step, q);
    q * step
  }

  /** q * step, for q the rounded quotient, is a multiple of step within half
      a step of value, and an even multiple on a tie. */
  lemma NearestMultiple(value: real, step: int, q: int)
    requires step != 0 && q == RoundHalfEven(value / step as real)
    ensures (q * step) % step == 0 && (q * step) / step == q
    ensures Abs((q * step) as real - value) <= Abs(step as real) / 2.0
    ensures Abs((q * step) as real - value) == Abs(step as real) / 2.0 ==> q % 2 == 0
  {
    var x := value / step as real;
    MultipleHasNoRemainder(q, step);
    ScaledHalfBound(step as real, q as real - x);
    assert step as real * (q as real - x) == (q * step) as real - value;
    if Abs((q * step) as real - value) == Abs(step as real) / 2.0 {
      TieIsHalf(step as real, q as real - x);
    }
  }

  /** A scaled error of exactly half the scale is an error of one half. */
  lemma TieIsHalf(s: real, e: real)
    requires s != 0.0 && Abs(s * e) == Abs(s) / 2.0
    ensures e == 0.5 || e == -0.5
  {
    if s > 0.0 {
      if e >= 0.0 { assert s * e == s * 0.5; } else { assert s * (-e) == s * 0.5; }
    } else {
      if e >= 0.0 { assert (-s) * e == (-s) * 0.5; } else { assert (-s) * (-e) == (-s) * 0.5; }
    }
  }

  /** A tie goes to the even multiple: 12,500 rounds to 10,000, not 15,000. */
  lemma RoundToStepTieExample()
    ensures RoundToStep(12500.0, 5000) == 10000
  {
    var r := RoundToStep(12500.0, 5000);
    assert r == 10000 || r == 15000;
  }

  /** Multiplying `value / s <= q < value / s + 1` through by a positive s. */
  lemma ScaledCeilBound(value: real, s: real, q: int)
    requires s > 0.0 && value / s <= q as real < value / s + 1.0
    ensures value <= (q as real) * s < value + s
  {
    var d := q as real - value / s;
    FractionTimesPositive(d, s);
    assert d * s < s;
    assert (q as real) * s == (value / s) * s + d * s;
    assert (value / s) * s == value;
    assert (q as real) * s == value + d * s;
  }

  lemma FractionTimesPositive(d: real, s: real)
    requires s > 0.0 && 0.0 <= d < 1.0
    ensures 0.0 <= d * s < s
  {
  }

  /** `round_up_to_step`: for a positive step, the least multiple of `step`
      that is at least `value`. */
  function RoundUpToStep(value: real, step: int): (r: int)
    requires step != 0
    ensures r % step == 0
    ensures step > 0 ==> value <= r as real < value + step as real
  {
    var s := step as real;
    var x := value / s;
    var q := Ceil(x);
    MultipleHasNoRemainder(q, step);
    if step > 0 then
      ScaledCeilBound(value, s, q);
      assert (q * step) as real == q as real * s;
      q * step
    else
      q * step
  }
}
