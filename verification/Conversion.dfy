/** What a converted sample is: the weighted mean of the input near its position.  Everything here
    is said of the whole conversion, from the rates and the kernel alone. */
module Conversion {
  import opened Resampling

  // ---- how many, and from where -----------------------------------------------------------

  /** `through` is `n * rate / inRate` rounded to the nearest integer, and up from halfway. */
  predicate IsRounded(inRate: Rate, rate: Rate, n: nat, through: nat) {
    2 * (n * rate) - inRate < 2 * (through * inRate) <= 2 * (n * rate) + inRate
  }

  /** `radius` is 24 divided by nine tenths of the smaller of 1 and `rate / inRate`, rounded up. */
  predicate IsRadius(inRate: Rate, rate: Rate, radius: nat) {
    (radius - 1) * (9 * Min(inRate, rate)) < 240 * inRate <= radius * (9 * Min(inRate, rate))
  }

  /** Input `i` is at most `radius` away from the position of output `o`. */
  predicate Near(inRate: Rate, rate: Rate, radius: nat, o: nat, i: int) {
    -(radius * rate) <= o * inRate - i * rate <= radius * rate
  }

  /** `lo` up to `hi` are exactly the inputs near output `o`. */
  ghost predicate IsWindow(inRate: Rate, rate: Rate, radius: nat, o: nat, lo: int, hi: int) {
    IsRadius(inRate, rate, radius) && lo < hi && forall i :: lo <= i < hi <==> Near(inRate, rate, radius, o, i)
  }

  lemma ThroughRounds(rs: Resampler, n: nat)
    ensures IsRounded(rs.inRate, rs.rate, n, rs.Through(n))
  {
    var t := rs.Through(n);
    var a, d := 2 * Mul(n, rs.rate) + rs.inRate, 2 * rs.inRate;
    DivAtLeast(a, d, t);
    DivAtLeast(a, d, t + 1);
    Distribute(t, rs.inRate);
    Distribute(t + 1, rs.inRate);
  }

  lemma Distribute(k: nat, d: nat)
    ensures Mul(k, 2 * d) == 2 * (k * d)
    ensures (k + 1) * d == k * d + d
  {
  }

  lemma RadiusRounds(rs: Resampler)
    ensures IsRadius(rs.inRate, rs.rate, rs.Radius())
  {
    var r := rs.Radius();
    if rs.inRate > rs.rate {
      CeilBelow(80 * rs.inRate, 3 * rs.rate, r);
      CeilBelow(80 * rs.inRate, 3 * rs.rate, r + 1);
      Scale(r, rs.rate);
      if r > 0 {
        Scale(r - 1, rs.rate);
      }
    }
  }

  lemma Scale(r: nat, rate: Rate)
    ensures r * (9 * rate) == 3 * Mul(r, 3 * rate)
  {
  }

  lemma WindowIs(rs: Resampler, o: nat)
    ensures IsWindow(rs.inRate, rs.rate, rs.Radius(), o, rs.Ceil(o) - rs.Radius(), rs.Floor(o) + rs.Radius() + 1)
  {
    var lo, hi, radius := rs.Ceil(o) - rs.Radius(), rs.Floor(o) + rs.Radius() + 1, rs.Radius();
    RadiusRounds(rs);
    rs.FloorCeil(o);
    rs.RadiusAtLeastStep();
    forall i
      ensures lo <= i < hi <==> Near(rs.inRate, rs.rate, radius, o, i)
    {
      NearIs(rs, o, i);
    }
  }

  lemma NearIs(rs: Resampler, o: nat, i: int)
    ensures rs.Ceil(o) - rs.Radius() <= i < rs.Floor(o) + rs.Radius() + 1
            <==> Near(rs.inRate, rs.rate, rs.Radius(), o, i)
  {
    var a, d, radius := Mul(o, rs.inRate), rs.rate, rs.Radius();
    CeilBelow(a, d, i + radius + 1);
    Product(i + radius, d);
    Spread(i, radius, d);
    if i - radius >= 0 {
      DivAtLeast(a, d, i - radius);
    } else {
      Below(i - radius, d);
    }
  }

  lemma Product(k: int, d: Rate)
    ensures k >= 0 ==> Mul(k, d) == k * d
    ensures k < 0 ==> k * d < 0
  {
  }

  lemma Below(k: int, d: Rate)
    requires k < 0
    ensures k * d < 0
  {
  }

  lemma Spread(i: int, radius: nat, d: Rate)
    ensures (i + radius) * d == i * d + radius * d
    ensures (i - radius) * d == i * d - radius * d
  {
  }

  /** There is exactly one radius, and one window for each output. */
  lemma WindowIsUnique(rs: Resampler, radius: nat, o: nat, lo: int, hi: int)
    requires IsWindow(rs.inRate, rs.rate, radius, o, lo, hi)
    ensures radius == rs.Radius() && lo == rs.Ceil(o) - radius && hi == rs.Floor(o) + radius + 1
  {
    RadiusRounds(rs);
    RadiusIsUnique(rs, radius, rs.Radius());
    WindowIs(rs, o);
    var first, last := rs.Ceil(o) - rs.Radius(), rs.Floor(o) + rs.Radius();
    assert Near(rs.inRate, rs.rate, radius, o, first) && Near(rs.inRate, rs.rate, radius, o, last);
    assert Near(rs.inRate, rs.rate, radius, o, lo) && Near(rs.inRate, rs.rate, radius, o, hi - 1);
  }

  /** An output is settled once the input reaches `radius` samples beyond its position. */
  lemma SettledIs(rs: Resampler, radius: nat, o: nat, n: nat)
    requires IsRadius(rs.inRate, rs.rate, radius)
    ensures rs.Settled(o, n) <==> o * rs.inRate + radius * rs.rate <= (n - 1) * rs.rate
  {
    RadiusRounds(rs);
    RadiusIsUnique(rs, radius, rs.Radius());
    CeilBelow(Mul(o, rs.inRate), rs.rate, n - radius);
    Product(n - radius - 1, rs.rate);
    Spread(n - 1, radius, rs.rate);
  }

  lemma RadiusIsUnique(rs: Resampler, a: nat, b: nat)
    requires IsRadius(rs.inRate, rs.rate, a) && IsRadius(rs.inRate, rs.rate, b)
    ensures a == b
  {
    var d := 9 * Min(rs.inRate, rs.rate);
    if a < b {
      Ordered(a, b - 1, d);
    } else if b < a {
      Ordered(b, a - 1, d);
    }
  }

  lemma Ordered(a: nat, b: nat, d: nat)
    requires a <= b
    ensures a * d <= b * d
  {
  }

  // ---- the mean ---------------------------------------------------------------------------

  function Sum(f: int -> real, lo: int, hi: int): real
    decreases hi - lo
  {
    if hi <= lo then 0.0 else Sum(f, lo, hi - 1) + f(hi - 1)
  }

  /** The input, continued at both ends by its first and its last sample. */
  function Held(heard: seq<Sample>, i: int): Sample
    requires heard != []
  {
    if i < 0 then heard[0] else if i >= |heard| then heard[|heard| - 1] else heard[i]
  }

  function Coefficients(rs: Resampler, o: nat): int -> real {
    i => rs.kernel(rs.inRate, rs.rate, o, i)
  }

  function Terms(rs: Resampler, heard: seq<Sample>, o: nat): int -> real
    requires heard != []
  {
    i => Held(heard, i) * rs.kernel(rs.inRate, rs.rate, o, i)
  }

  function Times(a: real, b: real): real {
    a * b
  }

  /** `x` is `value / weight`, or the end of [-1, 1] that is nearest to it. */
  predicate IsQuotient(x: real, value: real, weight: real) {
    && -1.0 <= x <= 1.0
    && (|| Times(x, weight) == value
        || (x == 1.0 && if weight > 0.0 then value > weight else value < weight)
        || (x == -1.0 && if weight > 0.0 then value < -weight else value > -weight))
  }

  lemma {:induction false} SumsAre(rs: Resampler, heard: seq<Sample>, o: nat, lo: int, hi: int)
    requires heard != []
    ensures rs.Value(heard, o, lo, hi) == Sum(Terms(rs, heard, o), lo, hi)
    ensures rs.Weight(o, lo, hi) == Sum(Coefficients(rs, o), lo, hi)
    decreases hi - lo
  {
    if lo < hi {
      SumsAre(rs, heard, o, lo, hi - 1);
    }
  }

  lemma NormalizeIsQuotient(value: real, weight: real)
    requires weight != 0.0
    ensures IsQuotient(Normalize(value, weight), value, weight)
  {
    var q := value / weight;
    assert Times(q, weight) == value;
    TimesOne(weight);
    hide Times;
    if q > 1.0 {
      Scaled(q, 1.0, weight);
    } else if q < -1.0 {
      Scaled(-1.0, q, weight);
    }
  }

  lemma Scaled(a: real, b: real, weight: real)
    requires a > b && weight != 0.0
    ensures if weight > 0.0 then Times(a, weight) > Times(b, weight) else Times(a, weight) < Times(b, weight)
  {
    if weight > 0.0 {
      Positive(a - b, weight);
    } else {
      Positive(a - b, -weight);
      assert (a - b) * -weight == b * weight - a * weight;
    }
  }

  lemma TimesOne(a: real)
    ensures Times(1.0, a) == a && Times(-1.0, a) == -a && Times(0.0, a) == 0.0
  {
  }

  lemma Positive(a: real, b: real)
    requires a > 0.0 && b > 0.0
    ensures a * b > 0.0
  {
  }

  /** Every output of a conversion is the weighted mean of the inputs near it, within [-1, 1];
      without a conversion the input stays as it is. */
  lemma {:induction false} BatchIsMean(rs: Resampler, heard: seq<Sample>, o: nat, radius: nat, lo: int, hi: int)
    requires o < |rs.Batch(heard)| && IsWindow(rs.inRate, rs.rate, radius, o, lo, hi)
    ensures heard != []
    ensures rs.inRate == rs.rate ==> |rs.Batch(heard)| == |heard| && rs.Batch(heard)[o] == heard[o]
    ensures rs.inRate != rs.rate ==> IsRounded(rs.inRate, rs.rate, |heard|, |rs.Batch(heard)|)
    ensures rs.inRate != rs.rate && Sum(Coefficients(rs, o), lo, hi) != 0.0 ==>
              IsQuotient(rs.Batch(heard)[o], Sum(Terms(rs, heard, o), lo, hi), Sum(Coefficients(rs, o), lo, hi))
  {
    WindowIsUnique(rs, radius, o, lo, hi);
    ThroughRounds(rs, |heard|);
    if rs.inRate != rs.rate {
      SumsAre(rs, heard, o, lo, hi);
      var value, weight := rs.Value(heard, o, lo, hi), rs.Weight(o, lo, hi);
      if weight != 0.0 {
        NormalizeIsQuotient(value, weight);
      }
    }
  }

  /** No converted sample leaves [-1, 1]. */
  lemma {:induction false} BatchIsBounded(rs: Resampler, heard: seq<Sample>, o: nat)
    requires rs.inRate != rs.rate && o < |rs.Batch(heard)|
    ensures -1.0 <= rs.Batch(heard)[o] <= 1.0
  {
  }

  /** Output `o` is the mean of the inputs near it, whatever the window. */
  ghost predicate IsMean(rs: Resampler, heard: seq<Sample>, o: nat, x: Sample)
    requires heard != []
  {
    forall radius: nat, lo: int, hi: int :: IsWindow(rs.inRate, rs.rate, radius, o, lo, hi) ==>
      Sum(Coefficients(rs, o), lo, hi) != 0.0 ==>
        IsQuotient(x, Sum(Terms(rs, heard, o), lo, hi), Sum(Coefficients(rs, o), lo, hi))
  }

  /** What a whole conversion is: the input itself at the same rate, and otherwise the rounded number
      of means, each within [-1, 1]. */
  ghost predicate IsConversion(rs: Resampler, heard: seq<Sample>, output: seq<Sample>) {
    if rs.inRate == rs.rate then output == heard
    else
      && IsRounded(rs.inRate, rs.rate, |heard|, |output|)
      && forall o: nat :: o < |output| ==> heard != [] && -1.0 <= output[o] <= 1.0 && IsMean(rs, heard, o, output[o])
  }

  lemma {:induction false} BatchIsConversion(rs: Resampler, heard: seq<Sample>)
    ensures IsConversion(rs, heard, rs.Batch(heard))
  {
    ThroughRounds(rs, |heard|);
    if rs.inRate != rs.rate {
      forall o: nat | o < |rs.Batch(heard)|
        ensures heard != [] && -1.0 <= rs.Batch(heard)[o] <= 1.0 && IsMean(rs, heard, o, rs.Batch(heard)[o])
      {
        BatchIsBounded(rs, heard, o);
        BatchIsMeans(rs, heard, o);
      }
    }
  }

  lemma {:induction false} BatchIsMeans(rs: Resampler, heard: seq<Sample>, o: nat)
    requires rs.inRate != rs.rate && o < |rs.Batch(heard)|
    ensures heard != [] && IsMean(rs, heard, o, rs.Batch(heard)[o])
  {
    WindowIs(rs, o);
    hide Sum, Terms, Coefficients, IsQuotient, IsWindow, IsRounded, Resampler.Batch, Resampler.Through, Times;
    BatchIsMean(rs, heard, o, rs.Radius(), rs.Ceil(o) - rs.Radius(), rs.Floor(o) + rs.Radius() + 1);
    forall radius: nat, lo: int, hi: int | IsWindow(rs.inRate, rs.rate, radius, o, lo, hi)
      ensures Sum(Coefficients(rs, o), lo, hi) != 0.0 ==>
                IsQuotient(rs.Batch(heard)[o], Sum(Terms(rs, heard, o), lo, hi), Sum(Coefficients(rs, o), lo, hi))
    {
      BatchIsMean(rs, heard, o, radius, lo, hi);
    }
  }

  // ---- two inputs for which it can be seen ------------------------------------------------------

  lemma {:induction false} ConstantSum(rs: Resampler, heard: seq<Sample>, c: Sample, o: nat, lo: int, hi: int)
    requires heard != [] && forall i :: 0 <= i < |heard| ==> heard[i] == c
    ensures Sum(Terms(rs, heard, o), lo, hi) == Times(c, Sum(Coefficients(rs, o), lo, hi))
    decreases hi - lo
  {
    if lo < hi {
      ConstantSum(rs, heard, c, o, lo, hi - 1);
      var k := rs.kernel(rs.inRate, rs.rate, o, hi - 1);
      assert Held(heard, hi - 1) == c && Terms(rs, heard, o)(hi - 1) == Times(c, k) && Coefficients(rs, o)(hi - 1) == k;
      TimesSum(c, Sum(Coefficients(rs, o), lo, hi - 1), k);
    }
  }

  lemma TimesSum(c: real, a: real, b: real)
    ensures Times(c, a + b) == Times(c, a) + Times(c, b)
  {
  }

  /** A constant input comes out as that constant. */
  lemma {:induction false} ConstantStays(rs: Resampler, heard: seq<Sample>, c: Sample, o: nat, radius: nat,
                                           lo: int, hi: int)
    requires o < |rs.Batch(heard)| && IsWindow(rs.inRate, rs.rate, radius, o, lo, hi)
    requires -1.0 <= c <= 1.0 && forall i :: 0 <= i < |heard| ==> heard[i] == c
    requires Sum(Coefficients(rs, o), lo, hi) != 0.0
    ensures rs.Batch(heard)[o] == c
  {
    hide Sum, Terms, Coefficients, IsQuotient, IsWindow, IsRounded, Resampler.Batch, Resampler.Through,
         Times;
    BatchIsMean(rs, heard, o, radius, lo, hi);
    if rs.inRate != rs.rate {
      ConstantSum(rs, heard, c, o, lo, hi);
      QuotientOf(rs.Batch(heard)[o], c, Sum(Terms(rs, heard, o), lo, hi), Sum(Coefficients(rs, o), lo, hi));
    }
  }

  lemma QuotientOf(x: real, c: real, value: real, weight: real)
    requires weight != 0.0 && -1.0 <= c <= 1.0 && value == Times(c, weight) && IsQuotient(x, value, weight)
    ensures x == c
  {
    hide Times;
    TimesOne(weight);
    if x > c {
      Scaled(x, c, weight);
    } else if x < c {
      Scaled(c, x, weight);
    }
  }

  lemma {:induction false} ImpulseSum(rs: Resampler, heard: seq<Sample>, j: nat, o: nat, lo: int, hi: int)
    requires 0 < j < |heard| - 1 && forall i :: 0 <= i < |heard| && i != j ==> heard[i] == 0.0
    ensures Sum(Terms(rs, heard, o), lo, hi)
            == if lo <= j < hi then heard[j] * rs.kernel(rs.inRate, rs.rate, o, j) else 0.0
    decreases hi - lo
  {
    if lo < hi {
      ImpulseSum(rs, heard, j, o, lo, hi - 1);
      var k := rs.kernel(rs.inRate, rs.rate, o, hi - 1);
      assert Terms(rs, heard, o)(hi - 1) == Held(heard, hi - 1) * k;
      if hi - 1 != j {
        assert Held(heard, hi - 1) == 0.0;
      }
    }
  }

  /** A single sample comes out as the kernel around it, and nowhere else. */
  lemma {:induction false} ImpulseGivesKernel(rs: Resampler, heard: seq<Sample>, j: nat, o: nat, radius: nat,
                                                lo: int, hi: int)
    requires rs.inRate != rs.rate
    requires o < |rs.Batch(heard)| && IsWindow(rs.inRate, rs.rate, radius, o, lo, hi)
    requires 0 < j < |heard| - 1 && forall i :: 0 <= i < |heard| && i != j ==> heard[i] == 0.0
    requires Sum(Coefficients(rs, o), lo, hi) != 0.0
    ensures Near(rs.inRate, rs.rate, radius, o, j) ==>
              IsQuotient(rs.Batch(heard)[o], heard[j] * rs.kernel(rs.inRate, rs.rate, o, j),
                         Sum(Coefficients(rs, o), lo, hi))
    ensures !Near(rs.inRate, rs.rate, radius, o, j) ==> rs.Batch(heard)[o] == 0.0
  {
    BatchIsMean(rs, heard, o, radius, lo, hi);
    ImpulseSum(rs, heard, j, o, lo, hi);
    if !Near(rs.inRate, rs.rate, radius, o, j) {
      TimesOne(Sum(Coefficients(rs, o), lo, hi));
      QuotientOf(rs.Batch(heard)[o], 0.0, 0.0, Sum(Coefficients(rs, o), lo, hi));
    }
  }
}
