/** What an audio source has said, and what must come out of it.

    A segment is one stretch of audio without a discontinuity: the concatenation `heard` of
    the accepted packets.  `Emission` is the list of chunks the segment is worth by now; it
    is defined on the whole of `heard`, with no incremental state. */
module Segments {
  import opened Resampling
  import opened Windowing

  datatype Config = Config(
    rate: Rate,
    windows: Windows,
    capacity: real,
    vad: bool,
    kernel: Kernel,
    silent: seq<Sample> -> bool)
  {
    ghost predicate Legal() {
      windows.Legal()
    }

    function For(inRate: Rate): Resampler {
      Resampler(inRate, rate, kernel)
    }
  }

  /** A packet that passed validation; it also stands for its own SHA-256 digest. */
  datatype Packet = Packet(
    captureID: string,
    source: string,
    sequence: nat,
    startMs: real,
    sampleRate: Rate,
    samples: seq<Sample>)

  datatype ChunkId = ChunkId(captureID: string, source: string, originMs: real, outputOffset: nat)

  datatype Chunk = Chunk(id: ChunkId, source: string, startMs: real, sampleRate: Rate, samples: seq<Sample>)

  /** A chunk waiting for inference; `seconds` is the audio no earlier chunk carried. */
  datatype Pending = Pending(chunk: Chunk, seconds: real)

  /** Milliseconds that `n` samples last. */
  function Ms(n: nat, rate: Rate): real {
    (n as real) * 1000.0 / (rate as real)
  }

  function Seconds(n: int, rate: Rate): real {
    (n as real) / (rate as real)
  }

  datatype Segment = Segment(originMs: real, inputRate: Rate, heard: seq<Sample>, sequence: nat, closed: bool) {
    function EndMs(): real {
      originMs + Ms(|heard|, inputRate)
    }

    /** The output so far: what is settled while open, everything once closed. */
    function Output(cfg: Config): seq<Sample> {
      var rs := cfg.For(inputRate);
      rs.ReadyWithinBatch(heard);
      if closed then rs.Batch(heard) else rs.Batch(heard)[..rs.Ready(|heard|)]
    }
  }

  /** The chunk cut at `span`, when earlier chunks reached `reached`. */
  function Cut(cfg: Config, captureID: string, name: string, originMs: real,
               output: seq<Sample>, span: Span, reached: nat): Pending
    requires span.lo <= span.hi <= |output|
  {
    Pending(
      Chunk(ChunkId(captureID, name, originMs, span.lo), name, originMs + Ms(span.lo, cfg.rate), cfg.rate,
            output[span.lo..span.hi]),
      Seconds(span.hi - Max(reached, span.lo), cfg.rate))
  }

  lemma SpanFits(w: Windows, n: nat, closed: bool, i: nat)
    requires w.Legal() && i < |w.Spans(n, closed)|
    ensures w.Spans(n, closed)[i].lo <= w.Spans(n, closed)[i].hi <= n
    ensures i <= w.FullCount(n)
  {
    w.TailStartsInside(n);
    w.FullWindowFits(i, n);
  }

  /** The chunks of an output stream, from window `k` on. */
  function Cuts(cfg: Config, captureID: string, name: string, originMs: real,
                output: seq<Sample>, closed: bool, k: nat): (chunks: seq<Pending>)
    requires cfg.Legal() && k <= |cfg.windows.Spans(|output|, closed)|
    ensures |chunks| == |cfg.windows.Spans(|output|, closed)| - k
    decreases |cfg.windows.Spans(|output|, closed)| - k
  {
    var spans := cfg.windows.Spans(|output|, closed);
    if k == |spans| then []
    else
      SpanFits(cfg.windows, |output|, closed, k);
      [Cut(cfg, captureID, name, originMs, output, spans[k], cfg.windows.Reached(k))]
      + Cuts(cfg, captureID, name, originMs, output, closed, k + 1)
  }

  /** Everything a segment has emitted by now. */
  function Emission(cfg: Config, captureID: string, name: string, segment: Segment): seq<Pending>
    requires cfg.Legal()
  {
    Cuts(cfg, captureID, name, segment.originMs, segment.Output(cfg), segment.closed, 0)
  }

  lemma {:induction false} CutsAt(cfg: Config, captureID: string, name: string, originMs: real,
                 output: seq<Sample>, closed: bool, k: nat, i: nat)
    requires cfg.Legal() && k <= i < |cfg.windows.Spans(|output|, closed)|
    ensures var spans := cfg.windows.Spans(|output|, closed);
            && spans[i].lo <= spans[i].hi <= |output|
            && Cuts(cfg, captureID, name, originMs, output, closed, k)[i - k]
               == Cut(cfg, captureID, name, originMs, output, spans[i], cfg.windows.Reached(i))
    decreases i - k
  {
    hide Windows.Spans, Windows.Reached, Windows.Legal, Cut, Cuts;
    CutsStep(cfg, captureID, name, originMs, output, closed, k);
    var rest := Cuts(cfg, captureID, name, originMs, output, closed, k + 1);
    Behind(Cut(cfg, captureID, name, originMs, output, cfg.windows.Spans(|output|, closed)[k], cfg.windows.Reached(k)),
           rest, i - k);
    if k < i {
      CutsAt(cfg, captureID, name, originMs, output, closed, k + 1, i);
    }
  }

  lemma Behind<T>(head: T, rest: seq<T>, j: nat)
    requires j <= |rest|
    ensures ([head] + rest)[j] == if j == 0 then head else rest[j - 1]
  {
  }

  lemma CutsStep(cfg: Config, captureID: string, name: string, originMs: real, output: seq<Sample>, closed: bool,
                 k: nat)
    requires cfg.Legal() && k < |cfg.windows.Spans(|output|, closed)|
    ensures var span := cfg.windows.Spans(|output|, closed)[k];
            && span.lo <= span.hi <= |output|
            && Cuts(cfg, captureID, name, originMs, output, closed, k)
               == [Cut(cfg, captureID, name, originMs, output, span, cfg.windows.Reached(k))]
                  + Cuts(cfg, captureID, name, originMs, output, closed, k + 1)
  {
    SpanFits(cfg.windows, |output|, closed, k);
    hide Windows.Spans, Windows.Reached, Cut;
  }

  lemma {:induction false} CutsFrom(cfg: Config, captureID: string, name: string, originMs: real,
                                    output: seq<Sample>, closed: bool, k: nat, j: nat)
    requires cfg.Legal() && k <= j <= |cfg.windows.Spans(|output|, closed)|
    ensures Cuts(cfg, captureID, name, originMs, output, closed, k)[j - k..]
            == Cuts(cfg, captureID, name, originMs, output, closed, j)
    decreases j - k
  {
    hide Windows.Spans, Windows.Reached, Cut, Cuts;
    if k < j {
      CutsStep(cfg, captureID, name, originMs, output, closed, k);
      CutsFrom(cfg, captureID, name, originMs, output, closed, k + 1, j);
      var all := Cuts(cfg, captureID, name, originMs, output, closed, k);
      assert all[j - k..] == all[1..][j - k - 1..];
    }
  }

  /** A window that is out is never cut differently later. */
  lemma {:induction false} CutStable(cfg: Config, captureID: string, name: string, originMs: real,
                  before: seq<Sample>, after: seq<Sample>, closed: bool, i: nat)
    requires cfg.Legal() && before <= after
    requires i < |cfg.windows.Spans(|before|, false)| <= |cfg.windows.Spans(|after|, closed)|
    requires cfg.windows.Spans(|before|, false)[i] == cfg.windows.Spans(|after|, closed)[i]
    ensures Cuts(cfg, captureID, name, originMs, after, closed, 0)[i]
            == Cuts(cfg, captureID, name, originMs, before, false, 0)[i]
  {
    CutsAt(cfg, captureID, name, originMs, after, closed, 0, i);
    CutsAt(cfg, captureID, name, originMs, before, false, 0, i);
    hide Windows.Spans, Windows.Reached, Cuts;
    var span := cfg.windows.Spans(|before|, false)[i];
    assert before[span.lo..span.hi] == after[span.lo..span.hi];
  }

  lemma SpansStay(w: Windows, m: nat, n: nat, closed: bool)
    requires w.Legal() && w.Spans(m, false) <= w.Spans(n, closed)
    ensures forall i :: 0 <= i < |w.Spans(m, false)| ==> w.Spans(m, false)[i] == w.Spans(n, closed)[i]
  {
    hide w.Spans;
  }

  /** Chunks already out are a prefix of the chunks of any longer or closed stream. */
  lemma {:induction false} CutsGrow(cfg: Config, captureID: string, name: string, originMs: real,
                 before: seq<Sample>, after: seq<Sample>, closed: bool)
    requires cfg.Legal() && before <= after
    ensures |cfg.windows.Spans(|before|, false)| <= |cfg.windows.Spans(|after|, closed)|
    ensures Cuts(cfg, captureID, name, originMs, after, closed, 0)
            == Cuts(cfg, captureID, name, originMs, before, false, 0)
               + Cuts(cfg, captureID, name, originMs, after, closed, |cfg.windows.Spans(|before|, false)|)
  {
    var w := cfg.windows;
    w.SpansGrow(|before|, |after|, closed);
    var k := |w.Spans(|before|, false)|;
    CutsFrom(cfg, captureID, name, originMs, after, closed, 0, k);
    SpansStay(w, |before|, |after|, closed);
    hide Windows.Spans, Windows.Reached, Cuts, Cut;
    var whole := Cuts(cfg, captureID, name, originMs, after, closed, 0);
    var first := Cuts(cfg, captureID, name, originMs, before, false, 0);
    forall i | 0 <= i < k
      ensures whole[i] == first[i]
    {
      CutStable(cfg, captureID, name, originMs, before, after, closed, i);
    }
    assert whole[..k] == first;
    assert whole == whole[..k] + whole[k..];
  }

  /** An open segment's output is a prefix of what it becomes when it goes on or closes. */
  lemma OutputGrows(cfg: Config, segment: Segment, later: seq<Sample>, sequence: nat, closed: bool)
    requires !segment.closed
    ensures segment.Output(cfg)
            <= Segment(segment.originMs, segment.inputRate, segment.heard + later, sequence, closed).Output(cfg)
  {
    var rs := cfg.For(segment.inputRate);
    rs.ReadyStable(segment.heard, later);
    rs.ReadyMonotone(|segment.heard|, |segment.heard + later|);
    rs.ReadyWithinBatch(segment.heard + later);
  }

  /** The chunks that `next` adds to those of the open segment it continues. */
  function Growth(cfg: Config, captureID: string, name: string, segment: Segment, next: Segment): seq<Pending>
    requires cfg.Legal() && Extends(segment, next)
  {
    EmissionGrows(cfg, captureID, name, segment, next);
    Cuts(cfg, captureID, name, next.originMs, next.Output(cfg), next.closed,
         |cfg.windows.Spans(|segment.Output(cfg)|, false)|)
  }

  predicate Extends(segment: Segment, next: Segment) {
    && !segment.closed
    && segment.originMs == next.originMs
    && segment.inputRate == next.inputRate
    && segment.heard <= next.heard
  }

  /** Split independence: however a segment got here, its emission so far is a prefix of the
      emission of every continuation, and the rest is `Growth`. */
  lemma EmissionGrows(cfg: Config, captureID: string, name: string, segment: Segment, next: Segment)
    requires cfg.Legal() && Extends(segment, next)
    ensures |cfg.windows.Spans(|segment.Output(cfg)|, false)| <= |cfg.windows.Spans(|next.Output(cfg)|, next.closed)|
    ensures Emission(cfg, captureID, name, next)
            == Emission(cfg, captureID, name, segment)
               + Cuts(cfg, captureID, name, next.originMs, next.Output(cfg), next.closed,
                      |cfg.windows.Spans(|segment.Output(cfg)|, false)|)
  {
    var later := next.heard[|segment.heard|..];
    assert segment.heard + later == next.heard;
    OutputGrows(cfg, segment, later, next.sequence, next.closed);
    assert next == Segment(segment.originMs, segment.inputRate, segment.heard + later, next.sequence, next.closed);
    CutsGrow(cfg, captureID, name, next.originMs, segment.Output(cfg), next.Output(cfg), next.closed);
  }
}
