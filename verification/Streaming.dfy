/** The incremental state of one audio source, and the two loops that advance it.

    The program copies a source record before it changes it, so a record is a value here and
    the loops update a local copy. */
module Streaming {
  import opened Resampling
  import opened Windowing
  import opened Segments

  datatype Source = Source(
    originMs: real,
    inputRate: Rate,
    input: seq<Sample>,
    inputOffset: nat,
    inputThrough: nat,
    outputThrough: nat,
    output: seq<Sample>,
    outputOffset: nat,
    emittedThrough: nat,
    endMs: real,
    sequence: nat,
    finalized: bool)

  /** The record holds exactly the part of its segment that is still needed. */
  ghost predicate Represents(cfg: Config, s: Source, g: Segment)
    requires cfg.Legal()
  {
    var rs, w, out := cfg.For(g.inputRate), cfg.windows, g.Output(cfg);
    && s.originMs == g.originMs
    && s.inputRate == g.inputRate
    && s.endMs == g.EndMs()
    && s.sequence == g.sequence
    && s.finalized == g.closed
    && s.inputThrough == |g.heard|
    && s.inputOffset == (if g.closed then |g.heard| else rs.Kept(|g.heard|)) <= |g.heard|
    && s.input == g.heard[s.inputOffset..]
    && s.outputThrough == |out|
    && s.outputOffset == (if g.closed then |out| else w.Start(w.FullCount(|out|))) <= |out|
    && s.output == out[s.outputOffset..]
    && s.emittedThrough == (if g.closed then |out| else w.Reached(w.FullCount(|out|)))
  }

  /** A segment has one record only. */
  function RecordOf(cfg: Config, g: Segment): (s: Source)
    requires cfg.Legal()
    ensures Represents(cfg, s, g)
  {
    var rs, w, out := cfg.For(g.inputRate), cfg.windows, g.Output(cfg);
    var inputOffset := if g.closed then |g.heard| else rs.Kept(|g.heard|);
    var outputOffset := if g.closed then |out| else w.Start(w.FullCount(|out|));
    KeptWithin(rs, g.heard);
    rs.ReadyWithinBatch(g.heard);
    StartWithin(w, |out|);
    Source(g.originMs, g.inputRate, g.heard[inputOffset..], inputOffset, |g.heard|, |out|, out[outputOffset..],
           outputOffset, if g.closed then |out| else w.Reached(w.FullCount(|out|)), g.EndMs(), g.sequence, g.closed)
  }

  lemma StartWithin(w: Windows, n: nat)
    requires w.Legal()
    ensures w.Start(w.FullCount(n)) <= n
  {
    var k := w.FullCount(n);
    if k > 0 {
      w.FullWindowFits(k - 1, n);
      w.StartStep(k - 1);
    }
  }

  lemma RecordIsUnique(cfg: Config, s: Source, g: Segment)
    requires cfg.Legal() && Represents(cfg, s, g)
    ensures s == RecordOf(cfg, g)
  {
  }

  /** Enough of the input is retained to go on converting. */
  ghost predicate Convertible(cfg: Config, s: Source, final: bool, heard: seq<Sample>) {
    var rs := cfg.For(s.inputRate);
    && s.inputThrough == |heard|
    && s.inputOffset <= |heard|
    && s.input == heard[s.inputOffset..]
    && if s.inputRate == cfg.rate then s.outputThrough == s.inputOffset
       else
         || (s.inputOffset <= rs.Oldest(s.outputThrough) && s.outputThrough <= rs.Ready(|heard|))
         || (final && s.inputOffset == |heard| && s.outputThrough == rs.Through(|heard|))
  }

  /** One output sample.  The source throws "Missing audio resampler history" when the read of
      `s.input` is out of range; here the range is proved. */
  method Interpolate(cfg: Config, s: Source, ghost heard: seq<Sample>) returns (sample: Sample)
    requires s.inputThrough == |heard| > 0
    requires s.inputOffset <= cfg.For(s.inputRate).Oldest(s.outputThrough) < |heard|
    requires s.input == heard[s.inputOffset..]
    ensures sample == cfg.For(s.inputRate).At(heard, s.outputThrough)
  {
    var rs, o := cfg.For(s.inputRate), s.outputThrough;
    rs.FloorCeil(o);
    hide rs.Radius, rs.Floor, rs.Ceil;
    var value, weight := 0.0, 0.0;
    var first, last := rs.Ceil(o) - rs.Radius(), rs.Floor(o) + rs.Radius();
    var index := first;
    while index <= last
      invariant first <= index <= last + 1
      invariant value == rs.Value(heard, o, first, index)
      invariant weight == rs.Weight(o, first, index)
    {
      var coefficient := rs.kernel(rs.inRate, rs.rate, o, index);
      var clamped := Max(0, Min(s.inputThrough - 1, index));
      value := value + s.input[clamped - s.inputOffset] * coefficient;
      weight := weight + coefficient;
      index := index + 1;
    }
    sample := Normalize(value, weight);
  }

  /** How many outputs a conversion of `heard` ends with. */
  function Target(cfg: Config, inRate: Rate, heard: seq<Sample>, final: bool): (n: nat)
    ensures n <= |cfg.For(inRate).Batch(heard)|
  {
    var rs := cfg.For(inRate);
    rs.ReadyWithinBatch(heard);
    if final then |rs.Batch(heard)| else rs.Ready(|heard|)
  }

  /** Whatever output comes next, the input it reads has been kept. */
  lemma HistoryKept(cfg: Config, s: Source, final: bool, heard: seq<Sample>, o: nat)
    requires s.inputRate != cfg.rate && Convertible(cfg, s, final, heard)
    requires s.outputThrough <= o < cfg.For(s.inputRate).Through(|heard|)
    ensures |heard| > 0 && s.inputOffset <= cfg.For(s.inputRate).Oldest(o) < |heard|
    ensures cfg.For(s.inputRate).Batch(heard)[o] == cfg.For(s.inputRate).At(heard, o)
  {
    var rs := cfg.For(s.inputRate);
    if |heard| == 0 {
      rs.EmptyThrough();
    }
    rs.HistoryReaches(o, |heard|);
    rs.OldestMonotone(s.outputThrough, o);
  }

  /** The loop of `convert`: the new outputs are the ones the whole input would give. */
  method ConvertLoop(cfg: Config, s: Source, final: bool, ghost heard: seq<Sample>)
    returns (converted: seq<Sample>, outputThrough: nat)
    requires s.inputRate != cfg.rate && Convertible(cfg, s, final, heard)
    ensures s.outputThrough <= outputThrough == Target(cfg, s.inputRate, heard, final)
    ensures converted == cfg.For(s.inputRate).Batch(heard)[s.outputThrough..outputThrough]
  {
    var rs := cfg.For(s.inputRate);
    ghost var batch := rs.Batch(heard);
    rs.ReadyWithinBatch(heard);
    hide rs.Radius, rs.Ceil, rs.Floor, rs.Oldest, rs.Through, rs.Ready, rs.At;
    converted, outputThrough := [], s.outputThrough;
    var through := rs.Through(s.inputThrough);
    while outputThrough < through
      invariant s.outputThrough <= outputThrough <= Target(cfg, s.inputRate, heard, final)
      invariant converted == batch[s.outputThrough..outputThrough]
    {
      rs.ReadyCountsSettled(outputThrough, |heard|);
      if !final && rs.Ceil(outputThrough) + rs.Radius() >= s.inputThrough {
        break;
      }
      HistoryKept(cfg, s, final, heard, outputThrough);
      var sample := Interpolate(cfg, s.(outputThrough := outputThrough), heard);
      converted := converted + [sample];
      outputThrough := outputThrough + 1;
    }
  }

  /** Where `convert` leaves the start of the retained input. */
  function Discarded(cfg: Config, inRate: Rate, n: nat, final: bool): nat {
    if final then n else cfg.For(inRate).Kept(n)
  }

  ghost predicate Converted(cfg: Config, s: Source, t: Source, final: bool, heard: seq<Sample>) {
    var target := Target(cfg, s.inputRate, heard, final);
    var kept := Discarded(cfg, s.inputRate, |heard|, final);
    && s.outputThrough <= target
    && kept <= |heard|
    && t == s.(input := heard[kept..], inputOffset := kept, outputThrough := target,
               output := s.output + cfg.For(s.inputRate).Batch(heard)[s.outputThrough..target])
  }

  function DiscardPoint(rs: Resampler, s: Source, outputThrough: nat, final: bool): int {
    if final then s.inputThrough
    else Min(s.inputThrough, Max(s.inputOffset, rs.Floor(outputThrough) - rs.Radius()))
  }

  /** The three-way clamp of the source always lands on the oldest input the next output reads. */
  lemma DiscardsUnneeded(cfg: Config, s: Source, final: bool, heard: seq<Sample>)
    requires s.inputRate != cfg.rate && Convertible(cfg, s, final, heard)
    ensures var kept := DiscardPoint(cfg.For(s.inputRate), s, Target(cfg, s.inputRate, heard, final), final);
            s.inputOffset <= kept <= |heard| && kept == Discarded(cfg, s.inputRate, |heard|, final)
  {
    var rs := cfg.For(s.inputRate);
    KeptWithin(rs, heard);
    if !final {
      rs.OldestMonotone(s.outputThrough, rs.Ready(|heard|));
    }
  }

  method Convert(cfg: Config, s: Source, final: bool, ghost heard: seq<Sample>) returns (t: Source)
    requires Convertible(cfg, s, final, heard)
    ensures Converted(cfg, s, t, final, heard)
  {
    if s.inputRate == cfg.rate {
      t := s.(output := s.output + s.input, outputThrough := s.outputThrough + |s.input|,
              inputOffset := s.inputThrough, input := []);
    } else {
      var rs := cfg.For(s.inputRate);
      var converted, outputThrough := ConvertLoop(cfg, s, final, heard);
      DiscardsUnneeded(cfg, s, final, heard);
      var discardThrough := DiscardPoint(rs, s, outputThrough, final);
      t := s.(output := s.output + converted, outputThrough := outputThrough,
              input := s.input[discardThrough - s.inputOffset..], inputOffset := discardThrough);
    }
  }

  lemma KeptWithin(rs: Resampler, heard: seq<Sample>)
    ensures rs.Kept(|heard|) <= |heard|
  {
    rs.ReadyWithinBatch(heard);
    if rs.inRate != rs.rate {
      if |heard| > 0 {
        rs.HistoryReaches(rs.Ready(|heard|), |heard|);
      } else {
        rs.EmptyThrough();
      }
    }
  }

  /** The windows before `k` are out, and the record holds the output from window `k` on. */
  ghost predicate AtWindow(cfg: Config, s: Source, out: seq<Sample>, k: nat)
    requires cfg.Legal()
  {
    var w := cfg.windows;
    && k <= w.FullCount(|out|)
    && s.outputThrough == |out|
    && s.outputOffset == w.Start(k) <= |out|
    && s.emittedThrough == w.Reached(k)
    && s.output == out[s.outputOffset..]
  }

  /** Everything is out. */
  ghost predicate Drained(s: Source, out: seq<Sample>) {
    s.output == [] && s.outputThrough == s.outputOffset == s.emittedThrough == |out|
  }

  /** What `emit` starts from, and keeps: window `k` is next, or nothing is left. */
  ghost predicate Emittable(cfg: Config, s: Source, out: seq<Sample>, k: nat, final: bool)
    requires cfg.Legal()
  {
    AtWindow(cfg, s, out, k) || (final && Drained(s, out) && k == |cfg.windows.Spans(|out|, true)|)
  }

  /** The window the loop of `emit` cuts is window `k`. */
  lemma NextSpan(cfg: Config, s: Source, out: seq<Sample>, k: nat, closed: bool)
    requires cfg.Legal() && AtWindow(cfg, s, out, k) && k < |cfg.windows.Spans(|out|, closed)|
    ensures var length := Min(cfg.windows.window, |s.output|);
            && 0 < length
            && cfg.windows.Spans(|out|, closed)[k] == Span(s.outputOffset, s.outputOffset + length)
            && s.outputOffset + length <= |out|
            && s.output[..length] == out[s.outputOffset..s.outputOffset + length]
    ensures s.emittedThrough == cfg.windows.Reached(k)
  {
    cfg.windows.FullWindowFits(k, |out|);
    cfg.windows.TailStartsInside(|out|);
  }

  /** The record after one window is cut. */
  function AfterCut(cfg: Config, s: Source): Source
    requires cfg.Legal() && 0 < |s.output|
  {
    var length := Min(cfg.windows.window, |s.output|);
    var stride := if length == cfg.windows.window then cfg.windows.Stride() else length;
    s.(emittedThrough := s.outputOffset + length, output := s.output[stride..], outputOffset := s.outputOffset + stride)
  }

  lemma AfterCutPlaces(cfg: Config, s: Source, out: seq<Sample>, k: nat, closed: bool)
    requires cfg.Legal() && AtWindow(cfg, s, out, k) && k < |cfg.windows.Spans(|out|, closed)| && 0 < |s.output|
    ensures Emittable(cfg, AfterCut(cfg, s), out, k + 1, closed)
    ensures |AfterCut(cfg, s).output| < |s.output|
  {
    cfg.windows.FullWindowFits(k, |out|);
    cfg.windows.StartStep(k);
    if k >= cfg.windows.FullCount(|out|) {
      assert Drained(AfterCut(cfg, s), out);
    } else {
      assert AtWindow(cfg, AfterCut(cfg, s), out, k + 1);
    }
  }

  /** The loop test of `emit`. */
  predicate Held(cfg: Config, s: Source, final: bool) {
    |s.output| < cfg.windows.window && (!final || s.outputOffset + |s.output| <= s.emittedThrough)
  }

  /** The loop ends exactly when every window is out. */
  lemma HeldMeansAllOut(cfg: Config, s: Source, out: seq<Sample>, k: nat, final: bool)
    requires cfg.Legal() && Emittable(cfg, s, out, k, final)
    ensures k <= |cfg.windows.Spans(|out|, final)|
    ensures Held(cfg, s, final) || s.output == [] <==> k == |cfg.windows.Spans(|out|, final)|
    ensures k == |cfg.windows.Spans(|out|, final)| && final ==> s.emittedThrough == s.outputThrough == |out|
    ensures k == |cfg.windows.Spans(|out|, final)| && !final ==> AtWindow(cfg, s, out, cfg.windows.FullCount(|out|))
  {
    var w := cfg.windows;
    w.FullWindowFits(k, |out|);
    w.TailStartsInside(|out|);
    if k > 0 {
      w.FullWindowFits(k - 1, |out|);
      w.StartStep(k - 1);
    }
  }

  /** One round of the loop of `emit`. */
  method CutWindow(cfg: Config, s: Source, name: string, captureID: string, ghost out: seq<Sample>, ghost k: nat,
                   ghost closed: bool)
    returns (item: Pending, t: Source)
    requires cfg.Legal() && AtWindow(cfg, s, out, k) && k < |cfg.windows.Spans(|out|, closed)|
    ensures [item] + Cuts(cfg, captureID, name, s.originMs, out, closed, k + 1)
            == Cuts(cfg, captureID, name, s.originMs, out, closed, k)
    ensures Emittable(cfg, t, out, k + 1, closed) && |t.output| < |s.output|
    ensures t == s.(output := t.output, outputOffset := t.outputOffset, emittedThrough := t.emittedThrough)
  {
    var w := cfg.windows;
    hide AtWindow, Emittable, Cuts, Ms, Seconds, w.Spans, w.Reached, w.FullCount;
    NextSpan(cfg, s, out, k, closed);
    AfterCutPlaces(cfg, s, out, k, closed);
    CutsStep(cfg, captureID, name, s.originMs, out, closed, k);
    var length := Min(w.window, |s.output|);
    var through := s.outputOffset + length;
    var chunk := Chunk(ChunkId(captureID, name, s.originMs, s.outputOffset), name,
                       s.originMs + Ms(s.outputOffset, cfg.rate), cfg.rate, s.output[..length]);
    item := Pending(chunk, Seconds(through - Max(s.emittedThrough, s.outputOffset), cfg.rate));
    var stride := if length == w.window then w.window - w.overlap else length;
    t := s.(emittedThrough := through, output := s.output[stride..], outputOffset := s.outputOffset + stride);
    assert t == AfterCut(cfg, s);
  }

  /** The state `emit` leaves. */
  ghost predicate Emitted(cfg: Config, s: Source, t: Source, out: seq<Sample>, final: bool)
    requires cfg.Legal()
  {
    && t == s.(output := t.output, outputOffset := t.outputOffset, emittedThrough := t.emittedThrough,
               finalized := s.finalized || final)
    && if final then Drained(t, out) else AtWindow(cfg, t, out, cfg.windows.FullCount(|out|))
  }

  method Emit(cfg: Config, s: Source, name: string, captureID: string, pending: seq<Pending>, final: bool,
              ghost out: seq<Sample>, ghost k: nat)
    returns (t: Source, queued: seq<Pending>)
    requires cfg.Legal() && Emittable(cfg, s, out, k, final)
    ensures k <= |cfg.windows.Spans(|out|, final)|
    ensures queued == pending + Cuts(cfg, captureID, name, s.originMs, out, final, k)
    ensures Emitted(cfg, s, t, out, final)
  {
    hide Cuts, AtWindow, Drained, Held, Emittable;
    HeldMeansAllOut(cfg, s, out, k, final);
    t, queued := s, pending;
    ghost var i: nat := k;
    while |t.output| > 0
      invariant t == s.(output := t.output, outputOffset := t.outputOffset, emittedThrough := t.emittedThrough)
      invariant Emittable(cfg, t, out, i, final)
      invariant k <= i <= |cfg.windows.Spans(|out|, final)|
      invariant queued + Cuts(cfg, captureID, name, s.originMs, out, final, i)
                == pending + Cuts(cfg, captureID, name, s.originMs, out, final, k)
      decreases |t.output|
    {
      HeldMeansAllOut(cfg, t, out, i, final);
      if Held(cfg, t, final) {
        break;
      }
      NotDrained(cfg, t, out, i, final);
      var item;
      item, t := CutWindow(cfg, t, name, captureID, out, i, final);
      Appended(queued, item, Cuts(cfg, captureID, name, s.originMs, out, final, i + 1));
      queued := queued + [item];
      i := i + 1;
      HeldMeansAllOut(cfg, t, out, i, final);
    }
    HeldMeansAllOut(cfg, t, out, i, final);
    NoMoreCuts(cfg, captureID, name, s.originMs, out, final);
    if final {
      t := t.(output := [], outputOffset := t.outputThrough, finalized := true);
      AllDrained(t, out);
    }
  }

  lemma NotDrained(cfg: Config, s: Source, out: seq<Sample>, k: nat, final: bool)
    requires cfg.Legal() && Emittable(cfg, s, out, k, final) && s.output != []
    ensures AtWindow(cfg, s, out, k)
  {
  }

  lemma NoMoreCuts(cfg: Config, captureID: string, name: string, originMs: real, out: seq<Sample>, closed: bool)
    requires cfg.Legal()
    ensures Cuts(cfg, captureID, name, originMs, out, closed, |cfg.windows.Spans(|out|, closed)|) == []
  {
  }

  lemma AllDrained(s: Source, out: seq<Sample>)
    requires s.output == [] && s.outputOffset == s.outputThrough == s.emittedThrough == |out|
    ensures Drained(s, out)
  {
  }

  lemma Appended<T>(a: seq<T>, x: T, b: seq<T>)
    ensures a + ([x] + b) == (a + [x]) + b
  {
  }

  /** The chunks a segment still owes when it is closed now. */
  function Owed(cfg: Config, captureID: string, name: string, g: Segment): seq<Pending>
    requires cfg.Legal()
  {
    if g.closed then [] else Growth(cfg, captureID, name, g, g.(closed := true))
  }

  lemma RepresentsConvertible(cfg: Config, s: Source, g: Segment)
    requires cfg.Legal() && Represents(cfg, s, g)
    ensures Convertible(cfg, s, true, g.heard)
  {
    cfg.For(g.inputRate).ReadyWithinBatch(g.heard);
  }

  lemma ExtensionOutput(cfg: Config, g: Segment, next: Segment)
    requires Extends(g, next)
    ensures g.Output(cfg) <= next.Output(cfg)
    ensures next.Output(cfg)
            == cfg.For(next.inputRate).Batch(next.heard)[..Target(cfg, next.inputRate, next.heard, next.closed)]
  {
    var later := next.heard[|g.heard|..];
    assert next == Segment(g.originMs, g.inputRate, g.heard + later, next.sequence, next.closed);
    OutputGrows(cfg, g, later, next.sequence, next.closed);
  }

  /** A conversion leaves an open record at the window it was at, with more output behind it. */
  lemma ConvertedAtWindow(cfg: Config, s: Source, t: Source, final: bool, g: Segment, next: Segment)
    requires cfg.Legal() && !g.closed && Extends(g, next) && final == next.closed
    requires s.inputRate == g.inputRate && s.outputThrough == |g.Output(cfg)|
    requires AtWindow(cfg, s, g.Output(cfg), cfg.windows.FullCount(|g.Output(cfg)|))
    requires Converted(cfg, s, t, final, next.heard)
    ensures AtWindow(cfg, t, next.Output(cfg), cfg.windows.FullCount(|g.Output(cfg)|))
  {
    var before, after := g.Output(cfg), next.Output(cfg);
    ExtensionOutput(cfg, g, next);
    cfg.windows.FullCountMonotone(|before|, |after|);
    assert t.output == before[s.outputOffset..] + after[|before|..];
  }

  lemma ClosedRepresents(cfg: Config, s: Source, t: Source, u: Source, g: Segment)
    requires cfg.Legal() && Represents(cfg, s, g)
    requires Converted(cfg, s, t, true, g.heard)
    requires Emitted(cfg, t, u, g.(closed := true).Output(cfg), true)
    ensures Represents(cfg, u, g.(closed := true))
    ensures u.input == [] && u.output == []
  {
  }

  /** `convert` then `emit` with `final`, as `accept` and `flush` do with a copy. */
  method Finish(cfg: Config, s: Source, name: string, captureID: string, pending: seq<Pending>, ghost g: Segment)
    returns (t: Source, queued: seq<Pending>)
    requires cfg.Legal() && Represents(cfg, s, g)
    ensures Represents(cfg, t, g.(closed := true))
    ensures t.input == [] && t.output == []
    ensures queued == pending + Owed(cfg, captureID, name, g)
  {
    ghost var out := g.(closed := true).Output(cfg);
    RepresentsConvertible(cfg, s, g);
    var converted := Convert(cfg, s, true, g.heard);
    ghost var k := |cfg.windows.Spans(|out|, true)|;
    if !g.closed {
      ConvertedAtWindow(cfg, s, converted, true, g, g.(closed := true));
      k := cfg.windows.FullCount(|g.Output(cfg)|);
    }
    t, queued := Emit(cfg, converted, name, captureID, pending, true, out, k);
    ClosedRepresents(cfg, s, converted, t, g);
  }

  /** The segment after one more packet. */
  function Longer(g: Segment, p: Packet): Segment {
    g.(heard := g.heard + p.samples, sequence := p.sequence)
  }

  /** The record of a source that starts with packet `p`, before its samples are added. */
  function FreshSource(p: Packet): Source {
    Source(p.startMs, p.sampleRate, [], 0, 0, 0, [], 0, 0, p.startMs, p.sequence, false)
  }

  function FreshSegment(p: Packet): Segment {
    Segment(p.startMs, p.sampleRate, [], p.sequence, false)
  }

  lemma FreshRepresents(cfg: Config, p: Packet)
    requires cfg.Legal()
    ensures Represents(cfg, FreshSource(p), FreshSegment(p))
  {
    var rs := cfg.For(p.sampleRate);
    rs.EmptyThrough();
    rs.ReadyWithinBatch([]);
    DivAtLeast(0, rs.rate, 1);
    cfg.windows.FullWindowFits(0, 0);
  }

  function WithSamples(s: Source, p: Packet): Source {
    var through := s.inputThrough + |p.samples|;
    s.(input := s.input + p.samples, inputThrough := through,
       endMs := s.originMs + Ms(through, s.inputRate), sequence := p.sequence)
  }

  lemma AppendedConvertible(cfg: Config, s: Source, g: Segment, p: Packet)
    requires cfg.Legal() && Represents(cfg, s, g) && !g.closed
    ensures Convertible(cfg, WithSamples(s, p), false, Longer(g, p).heard)
  {
    var rs := cfg.For(g.inputRate);
    rs.ReadyMonotone(|g.heard|, |g.heard + p.samples|);
    rs.ReadyWithinBatch(g.heard);
  }

  lemma AppendedAtWindow(cfg: Config, s: Source, g: Segment, p: Packet)
    requires cfg.Legal() && Represents(cfg, s, g) && !g.closed
    ensures s.inputRate == g.inputRate && s.originMs == g.originMs && s.outputThrough == |g.Output(cfg)|
    ensures AtWindow(cfg, WithSamples(s, p), g.Output(cfg), cfg.windows.FullCount(|g.Output(cfg)|))
  {
  }

  lemma LongerRepresents(cfg: Config, s: Source, t: Source, u: Source, g: Segment, p: Packet)
    requires cfg.Legal() && Represents(cfg, s, g) && !g.closed
    requires Converted(cfg, WithSamples(s, p), t, false, Longer(g, p).heard)
    requires Emitted(cfg, t, u, Longer(g, p).Output(cfg), false)
    ensures Represents(cfg, u, Longer(g, p))
  {
  }

  lemma OpenSpans(w: Windows, n: nat)
    requires w.Legal()
    ensures |w.Spans(n, false)| == w.FullCount(n)
  {
  }

  /** One packet joins an open source: append, `convert` and `emit` without `final`. */
  method Feed(cfg: Config, s: Source, p: Packet, pending: seq<Pending>, ghost g: Segment)
    returns (t: Source, queued: seq<Pending>)
    requires cfg.Legal() && Represents(cfg, s, g) && !g.closed
    ensures Represents(cfg, t, Longer(g, p))
    ensures queued == pending + Growth(cfg, p.captureID, p.source, g, Longer(g, p))
  {
    ghost var next := Longer(g, p);
    AppendedConvertible(cfg, s, g, p);
    AppendedAtWindow(cfg, s, g, p);
    OpenSpans(cfg.windows, |g.Output(cfg)|);
    hide Represents, Convertible, AtWindow, Converted, Emitted, Ms, Cuts, Windows.Spans, Windows.FullCount,
         Segment.Output;
    var through := s.inputThrough + |p.samples|;
    t := s.(input := s.input + p.samples, inputThrough := through,
            endMs := s.originMs + Ms(through, s.inputRate), sequence := p.sequence);
    var converted := Convert(cfg, t, false, next.heard);
    ConvertedAtWindow(cfg, t, converted, false, g, next);
    t, queued := Emit(cfg, converted, p.source, p.captureID, pending, false, next.Output(cfg),
                      cfg.windows.FullCount(|g.Output(cfg)|));
    LongerRepresents(cfg, s, converted, t, g, p);
  }
}
