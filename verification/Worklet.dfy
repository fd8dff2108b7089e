/** The capture worklet: it turns whatever the audio graph delivers into numbered mono frames. */
module Worklet {
  import opened Resampling
  import opened Segments
  import opened AudioHistory
  import opened Admission
  import opened AudioLog
  import opened AudioTheorems

  /** What is posted to the page: an audio frame, or the answer to a flush. */
  datatype Message =
    | Frame(source: string, sequence: nat, startMs: real, sampleRate: Rate, samples: seq<Sample>)
    | Flushed

  /** `channel[frame] ?? 0` summed over the channels; `NaN` and infinities absorb. */
  function Total(channels: seq<seq<Number>>, frame: nat): Number {
    if channels == [] then Finite(0.0)
    else
      var rest := Total(channels[..|channels| - 1], frame);
      var last := Last(channels);
      var value := if frame < |last| then last[frame] else Finite(0.0);
      if rest.Finite? && value.Finite? then Finite(rest.value + value.value) else NonFinite
  }

  /** The clamped mono sample of one frame. */
  function Mono(channels: seq<seq<Number>>, frame: nat): Sample {
    if channels == [] then 0.0
    else match Total(channels, frame)
      case Finite(total) => Clip(total / (|channels| as real))
      case NonFinite => 0.0
  }

  /** A mono sample is within [-1, 1]. */
  lemma {:induction false} MonoIsBounded(channels: seq<seq<Number>>, frame: nat)
    ensures -1.0 <= Mono(channels, frame) <= 1.0
  {
  }

  lemma {:induction false} TotalOfEqual(channels: seq<seq<Number>>, frame: nat, x: real)
    requires forall c :: 0 <= c < |channels| ==> frame < |channels[c]| && channels[c][frame] == Finite(x)
    ensures Total(channels, frame) == Finite(|channels| as real * x)
  {
    if channels != [] {
      TotalOfEqual(channels[..|channels| - 1], frame, x);
    }
  }

  /** Channels that agree give their sample, and so does a single one; what lies outside [-1, 1]
      gives the nearest end. */
  lemma {:induction false} MonoOfEqual(channels: seq<seq<Number>>, frame: nat, x: real)
    requires channels != []
    requires forall c :: 0 <= c < |channels| ==> frame < |channels[c]| && channels[c][frame] == Finite(x)
    ensures -1.0 <= x <= 1.0 ==> Mono(channels, frame) == x
    ensures x > 1.0 ==> Mono(channels, frame) == 1.0
    ensures x < -1.0 ==> Mono(channels, frame) == -1.0
  {
    TotalOfEqual(channels, frame, x);
    DividedBack(|channels| as real, x);
  }

  lemma DividedBack(n: real, x: real)
    requires n != 0.0
    ensures n * x / n == x
  {
    var q := n * x / n;
    assert q * n == n * x;
    assert (q - x) * n == 0.0;
  }

  /** Two channels give the average. */
  lemma {:induction false} MonoOfTwo(left: seq<Number>, right: seq<Number>, frame: nat, x: real, y: real)
    requires frame < |left| && left[frame] == Finite(x)
    requires frame < |right| && right[frame] == Finite(y)
    requires -2.0 <= x + y <= 2.0
    ensures 2.0 * Mono([left, right], frame) == x + y
  {
    assert [left, right][..1] == [left] && [left][..0] == [];
    assert Total([left], frame) == Finite(x);
  }

  /** No channel, a channel that is too short, and a value that is not a number are silence. */
  lemma {:induction false} MonoOfNothing(channel: seq<Number>, frame: nat)
    requires frame < |channel| ==> channel[frame] == NonFinite
    ensures Mono([], frame) == 0.0 && Mono([channel], frame) == 0.0
  {
    assert [channel][..0] == [];
  }

  function MonoRun(channels: seq<seq<Number>>, count: nat): seq<Sample> {
    seq(count, frame requires 0 <= frame => Mono(channels, frame))
  }

  /** The packets a page makes of the posted frames, in order. */
  function Packets(captureID: string, posted: seq<Message>): seq<Packet> {
    if posted == [] then []
    else
      var front := Packets(captureID, posted[..|posted| - 1]);
      match Last(posted)
      case Frame(source, sequence, startMs, sampleRate, samples) =>
        front + [Packet(captureID, source, sequence, startMs, sampleRate, samples)]
      case Flushed => front
  }

  lemma PacketsSnoc(captureID: string, posted: seq<Message>, m: Message)
    ensures Packets(captureID, posted + [m])
            == Packets(captureID, posted)
               + (if m.Frame?
                  then [Packet(captureID, m.source, m.sequence, m.startMs, m.sampleRate, m.samples)] else [])
  {
    assert (posted + [m])[..|posted|] == posted;
  }

  /** The capture id is the page's to choose: it changes nothing else about the packets. */
  lemma {:induction false} PacketsRenamed(first: string, second: string, posted: seq<Message>)
    ensures |Packets(first, posted)| == |Packets(second, posted)|
    ensures SamplesOf(Packets(first, posted)) == SamplesOf(Packets(second, posted))
    ensures forall i :: 0 <= i < |Packets(first, posted)| ==>
              Packets(second, posted)[i] == Packets(first, posted)[i].(captureID := second)
  {
    if posted != [] {
      PacketsRenamed(first, second, posted[..|posted| - 1]);
    }
  }

  lemma {:induction false} PacketsPrefixRenamed(first: string, second: string, posted: seq<Message>, n: nat)
    requires n <= |Packets(first, posted)| && |Packets(first, posted)| == |Packets(second, posted)|
    requires forall i :: 0 <= i < |Packets(first, posted)| ==>
               Packets(second, posted)[i] == Packets(first, posted)[i].(captureID := second)
    ensures SamplesOf(Packets(first, posted)[..n]) == SamplesOf(Packets(second, posted)[..n])
  {
    hide Packets;
    var a, b := Packets(first, posted), Packets(second, posted);
    if n > 0 {
      assert a[..n][..n - 1] == a[..n - 1] && b[..n][..n - 1] == b[..n - 1];
      PacketsPrefixRenamed(first, second, posted, n - 1);
    }
  }

  lemma NumberedRenamed(first: string, second: string, source: string, sampleRate: Rate, posted: seq<Message>)
    requires Numbered(source, sampleRate, Packets(first, posted))
    ensures Numbered(source, sampleRate, Packets(second, posted))
  {
    PacketsRenamed(first, second, posted);
    hide Packets, SamplesOf, Ms;
    forall i | 0 <= i < |Packets(second, posted)|
      ensures SamplesOf(Packets(second, posted)[..i]) == SamplesOf(Packets(first, posted)[..i])
    {
      PacketsPrefixRenamed(first, second, posted, i);
    }
  }

  /** Frame `i` has number `i` and starts where the samples of its predecessors end. */
  ghost predicate Numbered(source: string, sampleRate: Rate, frames: seq<Packet>) {
    forall i :: 0 <= i < |frames| ==>
      && frames[i].source == source
      && frames[i].sampleRate == sampleRate
      && frames[i].sequence == i
      && frames[i].startMs == Ms(|SamplesOf(frames[..i])|, sampleRate)
      && frames[i].samples != []
  }

  /** Only whole buffers were posted since `before`. */
  ghost predicate FullFrames(before: seq<Message>, after: seq<Message>, size: nat) {
    && before <= after
    && forall i :: |before| <= i < |after| ==> after[i].Frame? && |after[i].samples| == size
  }

  class MeetingPCM {
    const source: string
    const sampleRate: Rate
    const samples: array<Sample>
    var length: nat
    var frames: nat
    var sequence: nat
    var stopped: bool
    var posted: seq<Message>

    /** All clamped mono samples taken in so far. */
    ghost var heard: seq<Sample>

    ghost predicate Valid()
      reads this, samples
    {
      var out := Packets("", posted);
      && samples.Length == sampleRate / 4
      && 0 < samples.Length
      && length < samples.Length
      && frames == |heard|
      && sequence == |out|
      && Numbered(source, sampleRate, out)
      && heard == SamplesOf(out) + samples[..length]
    }

    /** An audio context never runs below 4 Hz; below that the buffer would have no room. */
    constructor (source: string, sampleRate: Rate)
      requires sampleRate >= 4
      ensures Valid() && fresh(samples) && heard == [] && posted == [] && !stopped
      ensures this.source == source && this.sampleRate == sampleRate
    {
      this.source, this.sampleRate := source, sampleRate;
      samples := new Sample[sampleRate / 4];
      length, frames, sequence, stopped, posted, heard := 0, 0, 0, false, [], [];
    }

    /** Nearly `Valid`: the buffer may be full. */
    ghost predicate Ready()
      reads this, samples
    {
      var out := Packets("", posted);
      && samples.Length == sampleRate / 4
      && 0 < samples.Length
      && length <= samples.Length
      && frames == |heard|
      && sequence == |out|
      && Numbered(source, sampleRate, out)
      && heard == SamplesOf(out) + samples[..length]
    }

    method Emit()
      requires Ready()
      modifies this`posted, this`sequence, this`length
      ensures Valid() && length == 0
      ensures SamplesOf(Packets("", posted)) == heard
      ensures old(length) == 0 ==> posted == old(posted)
      ensures old(length) > 0 ==> |posted| == |old(posted)| + 1 && posted[..|old(posted)|] == old(posted)
                                  && Last(posted).Frame? && Last(posted).samples == samples[..old(length)]
    {
      if length == 0 {
        return;
      }
      ghost var out := Packets("", posted);
      var frame := Frame(source, sequence, Ms(frames - length, sampleRate), sampleRate, samples[..length]);
      PacketsSnoc("", posted, frame);
      SamplesOfSnoc(out, Last(Packets("", posted + [frame])));
      NumberedSnoc(source, sampleRate, out, Last(Packets("", posted + [frame])));
      posted := posted + [frame];
      sequence := sequence + 1;
      length := 0;
    }

    method Process(channels: seq<seq<Number>>, count: nat) returns (alive: bool)
      requires Valid()
      modifies this`length, this`frames, this`sequence, this`posted, this`heard, samples
      ensures Valid()
      ensures alive == !stopped
      ensures heard == old(heard) + (if alive then MonoRun(channels, count) else [])
      ensures !alive ==> posted == old(posted)
      ensures FullFrames(old(posted), posted, samples.Length)
    {
      hide Mono, Numbered, Packets, SamplesOf;
      if stopped {
        return false;
      }
      for frame := 0 to count
        invariant Valid()
        invariant heard == old(heard) + MonoRun(channels, count)[..frame]
        invariant FullFrames(old(posted), posted, samples.Length)
      {
        Push(Mono(channels, frame));
      }
      assert MonoRun(channels, count)[..count] == MonoRun(channels, count);
      return true;
    }

    method Push(sample: Sample)
      requires Valid()
      modifies this`length, this`frames, this`sequence, this`posted, this`heard, samples
      ensures Valid()
      ensures heard == old(heard) + [sample]
      ensures FullFrames(old(posted), posted, samples.Length)
    {
      hide Numbered, Packets, SamplesOf, Ms;
      samples[length] := sample;
      length := length + 1;
      frames := frames + 1;
      heard := heard + [sample];
      if length == samples.Length {
        Emit();
      }
    }

    /** The `flush` message: the last, shorter frame goes out and the worklet stops. */
    method Flush()
      requires Valid()
      modifies this`stopped, this`posted, this`sequence, this`length
      ensures Valid() && stopped && length == 0
      ensures heard == old(heard)
      ensures SamplesOf(Packets("", posted)) == heard
      ensures posted != [] && Last(posted).Flushed?
    {
      stopped := true;
      Emit();
      PacketsSnoc("", posted, Flushed);
      posted := posted + [Flushed];
    }
  }

  /** What the audio graph hands over in one call of `process`. */
  datatype Block = Block(channels: seq<seq<Number>>, count: nat)

  function MonoAll(blocks: seq<Block>): seq<Sample> {
    if blocks == [] then [] else MonoAll(blocks[..|blocks| - 1]) + MonoRun(Last(blocks).channels, Last(blocks).count)
  }

  /** A whole capture: any number of blocks, then the flush. */
  method Capture(w: MeetingPCM, blocks: seq<Block>)
    requires w.Valid() && !w.stopped && w.heard == []
    modifies w, w.samples
    ensures w.Valid() && w.stopped && w.heard == MonoAll(blocks) && w.frames == |MonoAll(blocks)|
    ensures SamplesOf(Packets("", w.posted)) == MonoAll(blocks)
    ensures Numbered(w.source, w.sampleRate, Packets("", w.posted))
  {
    hide Numbered, Packets, SamplesOf, MonoRun;
    assert blocks[..0] == [];
    for i := 0 to |blocks|
      invariant w.Valid() && !w.stopped && w.heard == MonoAll(blocks[..i])
    {
      assert blocks[..i + 1][..i] == blocks[..i] && Last(blocks[..i + 1]) == blocks[i];
      var _ := w.Process(blocks[i].channels, blocks[i].count);
    }
    assert blocks[..|blocks|] == blocks;
    w.Flush();
  }

  lemma NumberedSnoc(source: string, sampleRate: Rate, frames: seq<Packet>, p: Packet)
    requires Numbered(source, sampleRate, frames)
    requires p.source == source && p.sampleRate == sampleRate && p.sequence == |frames|
    requires p.startMs == Ms(|SamplesOf(frames)|, sampleRate) && p.samples != []
    ensures Numbered(source, sampleRate, frames + [p])
  {
    var all := frames + [p];
    forall i | 0 <= i < |all|
      ensures all[..i] == frames[..i]
    {
    }
    assert frames[..|frames|] == frames;
  }
}
