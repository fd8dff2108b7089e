/** The overlapping windows that `AudioProcessor.emit` cuts from an output stream.

    `Spans` says which windows a stream of `n` samples yields; `IsWindowing` says, without
    computing anything, what a good set of windows is, and the two agree. */
module Windowing {
  import opened Resampling

  /** A window `[lo, hi)` of the output stream. */
  datatype Span = Span(lo: nat, hi: nat) {
    function Length(): int {
      hi - lo
    }
  }

  datatype Windows = Windows(window: nat, overlap: nat) {

    /** What the constructor of `AudioProcessor` demands of its two lengths. */
    predicate Legal() {
      overlap < window
    }

    function Stride(): nat
      requires Legal()
    {
      window - overlap
    }

    function Start(k: nat): nat
      requires Legal()
    {
      Mul(k, Stride())
    }

    function Full(k: nat): Span
      requires Legal()
    {
      Span(Start(k), Start(k) + window)
    }

    /** How far the stream is covered once `k` full windows are out. */
    function Reached(k: nat): nat
      requires Legal()
    {
      if k == 0 then 0 else Full(k - 1).hi
    }

    /** How many full windows fit in `n` samples. */
    function FullCount(n: nat): nat
      requires Legal()
    {
      if n < window then 0 else Div(n - window, Stride()) + 1
    }

    /** The windows of `n` samples; a closed stream also gives up its shorter tail. */
    function Spans(n: nat, closed: bool): seq<Span>
      requires Legal()
    {
      seq(FullCount(n), k requires 0 <= k => Full(k)) + Tail(n, closed)
    }

    function Tail(n: nat, closed: bool): seq<Span>
      requires Legal()
    {
      if closed && Reached(FullCount(n)) < n
      then TailStartsInside(n); [Span(Start(FullCount(n)), n)]
      else []
    }

    lemma TailStartsInside(n: nat)
      requires Legal()
      ensures Reached(FullCount(n)) < n ==> Start(FullCount(n)) < n
    {
      var k := FullCount(n);
      if k > 0 {
        StartStep(k - 1);
      }
    }

    lemma StartStep(k: nat)
      requires Legal()
      ensures Start(k + 1) == Start(k) + Stride()
    {
    }

    /** The loop test of `emit`: another full window is there to be cut. */
    lemma FullWindowFits(k: nat, n: nat)
      requires Legal()
      ensures k < FullCount(n) <==> Full(k).hi <= n
    {
      if n >= window {
        DivAtLeast(n - window, Stride(), k);
      }
    }

    lemma FullCountMonotone(m: nat, n: nat)
      requires Legal() && m <= n
      ensures FullCount(m) <= FullCount(n)
    {
      if FullCount(m) > 0 {
        FullWindowFits(FullCount(m) - 1, m);
        FullWindowFits(FullCount(m) - 1, n);
      }
    }

    /** Windows that are out stay the first windows, however the stream goes on or ends. */
    lemma SpansGrow(m: nat, n: nat, closed: bool)
      requires Legal() && m <= n
      ensures Spans(m, false) <= Spans(n, closed)
    {
      FullCountMonotone(m, n);
    }

    /** What is wanted of the windows of a finished stream of `n` samples: they run from 0
        to `n`; each but the last is full; each next one starts `overlap` before its
        predecessor ends and goes further than it. */
    ghost predicate IsWindowing(spans: seq<Span>, n: nat)
      requires Legal()
    {
      && (spans == [] <==> n == 0)
      && (spans != [] ==> spans[0].lo == 0 && spans[|spans| - 1].hi == n)
      && (forall i :: 0 <= i < |spans| ==> 0 < spans[i].Length() <= window)
      && (forall i :: 0 <= i < |spans| - 1 ==> Follows(spans[i], spans[i + 1]))
    }

    ghost predicate Follows(span: Span, next: Span) {
      && span.Length() == window
      && next.lo == span.hi - overlap
      && span.hi < next.hi
    }

    lemma SpansAreWindowing(n: nat)
      requires Legal()
      ensures IsWindowing(Spans(n, true), n)
    {
      var k, spans := FullCount(n), Spans(n, true);
      TailStartsInside(n);
      FullWindowFits(k, n);
      if k > 0 {
        FullWindowFits(k - 1, n);
        StartStep(k - 1);
      }
      forall i | 0 <= i < |spans| - 1
        ensures Follows(spans[i], spans[i + 1])
      {
        StartStep(i);
      }
    }

    /** In a good set of windows, window `i` starts `i` strides in. */
    lemma {:induction false} WindowStarts(spans: seq<Span>, n: nat, i: nat)
      requires Legal() && IsWindowing(spans, n) && i < |spans|
      ensures spans[i].lo == Start(i)
      ensures i < |spans| - 1 ==> spans[i] == Full(i)
    {
      if i > 0 {
        WindowStarts(spans, n, i - 1);
        StartStep(i - 1);
        assert Follows(spans[i - 1], spans[i]);
      }
      if i < |spans| - 1 {
        assert Follows(spans[i], spans[i + 1]);
      }
    }

    /** The emitted windows are the one and only good set of windows. */
    lemma WindowingIsUnique(spans: seq<Span>, n: nat)
      requires Legal()
      ensures IsWindowing(spans, n) <==> spans == Spans(n, true)
    {
      SpansAreWindowing(n);
      if IsWindowing(spans, n) && spans != [] {
        var last := |spans| - 1;
        WindowStarts(spans, n, last);
        FullWindowFits(last, n);
        FullWindowFits(last + 1, n);
        StartStep(last);
        if last > 0 {
          WindowStarts(spans, n, last - 1);
          assert Follows(spans[last - 1], spans[last]);
          FullWindowFits(last - 1, n);
        }
        forall i | 0 <= i < last
          ensures spans[i] == Spans(n, true)[i]
        {
          WindowStarts(spans, n, i);
        }
        assert spans == Spans(n, true);
      }
    }

    /** Samples of window `i` that no earlier window had. */
    function Fresh(spans: seq<Span>, i: nat): int
      requires i < |spans|
    {
      spans[i].hi - Max(if i == 0 then 0 else spans[i - 1].hi, spans[i].lo)
    }

    function FreshTotal(spans: seq<Span>, k: nat): int
      requires k <= |spans|
    {
      if k == 0 then 0 else FreshTotal(spans, k - 1) + Fresh(spans, k - 1)
    }

    /** Overlap is never counted twice. */
    lemma {:induction false} FreshTotalIsReach(spans: seq<Span>, n: nat, k: nat)
      requires Legal() && IsWindowing(spans, n) && k <= |spans|
      ensures FreshTotal(spans, k) == if k == 0 then 0 else spans[k - 1].hi
    {
      if k > 0 {
        FreshTotalIsReach(spans, n, k - 1);
        if k > 1 {
          assert Follows(spans[k - 2], spans[k - 1]);
        }
      }
    }
  }
}
