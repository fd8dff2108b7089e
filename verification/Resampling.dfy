/** The incremental resampler of `AudioProcessor.convert`, described on whole inputs.

    Positions are exact rationals: output sample `o` sits at input position
    `o * inRate / rate`, so every rounding below is integer division.  The kernel is an
    arbitrary function of (output sample, input index); nothing depends on its values. */
module Resampling {

  type Rate = r: nat | 0 < r witness 1

  type Sample = real

  /** Kernel coefficient of an input index in the weighted mean for an output sample. */
  type Kernel = (Rate, Rate, nat, int) -> real

  function Max(a: int, b: int): int {
    if a < b then b else a
  }

  function Min(a: int, b: int): int {
    if a < b then a else b
  }

  function Clip(x: real): real {
    if x < -1.0 then -1.0 else if x > 1.0 then 1.0 else x
  }

  function Mul(a: nat, b: nat): nat {
    a * b
  }

  function Div(a: nat, d: nat): nat
    requires d > 0
  {
    a / d
  }

  function CeilDiv(a: nat, d: nat): nat
    requires d > 0
  {
    Div(a + d - 1, d)
  }

  datatype Resampler = Resampler(inRate: Rate, rate: Rate, kernel: Kernel) {

    /** `ceil(24 / cutoff)` with `cutoff = 0.9 * min(1, rate / inRate)`. */
    function Radius(): nat {
      if inRate <= rate then 27 else CeilDiv(80 * inRate, 3 * rate)
    }

    /** `Math.round(n * rate / inRate)`: how many outputs `n` inputs are worth. */
    function Through(n: nat): nat {
      Div(2 * Mul(n, rate) + inRate, 2 * inRate)
    }

    function Floor(o: nat): nat {
      Div(Mul(o, inRate), rate)
    }

    function Ceil(o: nat): nat {
      CeilDiv(Mul(o, inRate), rate)
    }

    /** The oldest input index output `o` may look at. */
    function Oldest(o: nat): nat {
      Max(0, Floor(o) - Radius())
    }

    /** Output `o` cannot change any more once `n` inputs have arrived. */
    predicate Settled(o: nat, n: nat) {
      Ceil(o) + Radius() < n
    }

    /** How many outputs are settled by `n` inputs. */
    function Ready(n: nat): nat {
      if inRate == rate then n
      else if n <= Radius() then 0
      else Div(Mul(n - Radius() - 1, rate), inRate) + 1
    }

    /** Where the retained input starts after `n` inputs. */
    function Kept(n: nat): nat {
      if inRate == rate then n else Oldest(Ready(n))
    }

    function Clamp(index: int, n: nat): nat
      requires n > 0
    {
      Max(0, Min(n - 1, index))
    }

    function Value(heard: seq<Sample>, o: nat, lo: int, hi: int): real
      requires |heard| > 0
      decreases hi - lo
    {
      if hi <= lo then 0.0
      else Value(heard, o, lo, hi - 1) + heard[Clamp(hi - 1, |heard|)] * kernel(inRate, rate, o, hi - 1)
    }

    function Weight(o: nat, lo: int, hi: int): real
      decreases hi - lo
    {
      if hi <= lo then 0.0 else Weight(o, lo, hi - 1) + kernel(inRate, rate, o, hi - 1)
    }

    /** Output sample `o` of the whole input, with indices clamped at both ends. */
    function At(heard: seq<Sample>, o: nat): Sample
      requires |heard| > 0
    {
      var lo, hi := Ceil(o) - Radius(), Floor(o) + Radius() + 1;
      Normalize(Value(heard, o, lo, hi), Weight(o, lo, hi))
    }

    /** The one-shot conversion of a whole input. */
    function Batch(heard: seq<Sample>): (output: seq<Sample>)
      ensures |output| == if inRate == rate then |heard| else Through(|heard|)
    {
      if inRate == rate then heard
      else if |heard| == 0 then EmptyThrough(); []
      else seq(Through(|heard|), o requires 0 <= o < Through(|heard|) => At(heard, o))
    }

    lemma EmptyThrough()
      ensures Through(0) == 0
    {
      DivAtLeast(inRate, 2 * inRate, 1);
    }

    /** `Ready` counts exactly the settled outputs. */
    lemma {:induction false} ReadyCountsSettled(o: nat, n: nat)
      requires inRate != rate
      ensures Settled(o, n) <==> o < Ready(n)
    {
      CeilBelow(Mul(o, inRate), rate, n - Radius());
      if n > Radius() {
        DivAtLeast(Mul(n - Radius() - 1, rate), inRate, o);
      }
    }

    lemma RadiusAtLeastStep()
      ensures inRate <= Mul(Radius(), rate)
      ensures Radius() >= 27
    {
      if inRate > rate {
        CeilBelow(80 * inRate, 3 * rate, 27);
        CeilBelow(80 * inRate, 3 * rate, Radius() + 1);
        MulAssociates(26, 3, rate);
        MulAssociates(Radius(), 3, rate);
      }
    }

    /** Every output up to `Through(n)` finds its oldest input among the first `n`. */
    lemma HistoryReaches(o: nat, n: nat)
      requires 0 < n && o <= Through(n)
      ensures Oldest(o) < n
    {
      DivAtLeast(2 * Mul(n, rate) + inRate, 2 * inRate, o);
      assert Mul(o, 2 * inRate) == 2 * Mul(o, inRate);
      RadiusAtLeastStep();
      assert Mul(n + Radius(), rate) == Mul(n, rate) + Mul(Radius(), rate);
      DivAtLeast(Mul(o, inRate), rate, n + Radius());
    }

    /** A settled output is one of the `Through(n)` outputs. */
    lemma SettledWithinThrough(o: nat, n: nat)
      requires Settled(o, n)
      ensures o < Through(n)
    {
      var a := Mul(o, inRate);
      CeilBelow(a, rate, n - Radius());
      RadiusAtLeastStep();
      assert Mul(n, rate) == Mul(n - Radius() - 1, rate) + Mul(Radius(), rate) + rate;
      DivAtLeast(2 * Mul(n, rate) + inRate, 2 * inRate, o + 1);
      assert Mul(o + 1, 2 * inRate) == 2 * a + 2 * inRate;
    }

    lemma ReadyWithinBatch(heard: seq<Sample>)
      ensures Ready(|heard|) <= |Batch(heard)|
    {
      var n := |heard|;
      if inRate != rate && Ready(n) > 0 {
        ReadyCountsSettled(Ready(n) - 1, n);
        SettledWithinThrough(Ready(n) - 1, n);
      }
    }

    lemma ReadyMonotone(m: nat, n: nat)
      requires m <= n
      ensures Ready(m) <= Ready(n)
    {
      if inRate != rate && Ready(m) > 0 {
        ReadyCountsSettled(Ready(m) - 1, m);
        ReadyCountsSettled(Ready(m) - 1, n);
      }
    }

    lemma OldestMonotone(o: nat, p: nat)
      requires o <= p
      ensures Oldest(o) <= Oldest(p)
    {
      MulMonotone(o, p, inRate);
      DivAtLeast(Mul(o, inRate), rate, Floor(o));
      DivAtLeast(Mul(p, inRate), rate, Floor(o));
    }

    lemma FloorCeil(o: nat)
      ensures Floor(o) <= Ceil(o) <= Floor(o) + 1
    {
      var a := Mul(o, inRate);
      DivAtLeast(a, rate, Floor(o));
      DivAtLeast(a + rate - 1, rate, Floor(o));
      DivAtLeast(a, rate, Floor(o) + 1);
      DivAtLeast(a + rate - 1, rate, Floor(o) + 2);
      assert Mul(Floor(o) + 2, rate) == Mul(Floor(o) + 1, rate) + rate;
    }

    /** Later input cannot move a weighted sum that ends before it. */
    lemma {:induction false} ValueStable(heard: seq<Sample>, later: seq<Sample>, o: nat, lo: int, hi: int)
      requires 0 < |heard| && hi <= |heard|
      ensures Value(heard, o, lo, hi) == Value(heard + later, o, lo, hi)
      decreases hi - lo
    {
      if lo < hi {
        ValueStable(heard, later, o, lo, hi - 1);
      }
    }

    lemma SettledStable(heard: seq<Sample>, later: seq<Sample>, o: nat)
      requires Settled(o, |heard|)
      ensures At(heard, o) == At(heard + later, o)
    {
      FloorCeil(o);
      ValueStable(heard, later, o, Ceil(o) - Radius(), Floor(o) + Radius() + 1);
    }

    /** What is ready of an input stays what it is, however the input continues. */
    lemma ReadyStable(heard: seq<Sample>, later: seq<Sample>)
      ensures Ready(|heard|) <= |Batch(heard)| <= |Batch(heard + later)|
      ensures Batch(heard)[..Ready(|heard|)] == Batch(heard + later)[..Ready(|heard|)]
    {
      var n := |heard|;
      ReadyWithinBatch(heard);
      BatchMonotone(n, n + |later|);
      if inRate != rate {
        forall o: nat | o < Ready(n)
          ensures Batch(heard)[o] == Batch(heard + later)[o]
        {
          ReadyCountsSettled(o, n);
          SettledStable(heard, later, o);
        }
      }
    }

    lemma BatchMonotone(m: nat, n: nat)
      requires m <= n
      ensures Through(m) <= Through(n)
    {
      MulMonotone(m, n, rate);
      DivAtLeast(2 * Mul(m, rate) + inRate, 2 * inRate, Through(m));
      DivAtLeast(2 * Mul(n, rate) + inRate, 2 * inRate, Through(m));
    }
  }

  lemma MulAssociates(a: nat, b: nat, c: nat)
    ensures Mul(a, b * c) == b * Mul(a, c)
  {
  }

  lemma MulMonotone(a: nat, b: nat, c: nat)
    requires a <= b
    ensures Mul(a, c) <= Mul(b, c)
  {
  }

  /** Division by a zero weight is `NaN` in the source; the model gives 0 there. */
  function Normalize(value: real, weight: real): Sample {
    if weight == 0.0 then 0.0 else Clip(value / weight)
  }

  /** Integer division, said with multiplication. */
  lemma DivAtLeast(a: nat, d: nat, k: nat)
    requires d > 0
    ensures k <= Div(a, d) <==> Mul(k, d) <= a
  {
    var q := Div(a, d);
    assert a == q * d + a % d;
    if k <= q {
      assert k * d <= q * d;
    } else {
      assert k * d >= (q + 1) * d;
    }
  }

  lemma CeilBelow(a: nat, d: nat, k: int)
    requires d > 0
    ensures CeilDiv(a, d) < k <==> k > 0 && a <= Mul(k - 1, d)
  {
    if k > 0 {
      DivAtLeast(a + d - 1, d, k);
      assert Mul(k, d) == Mul(k - 1, d) + d;
    }
  }
}
