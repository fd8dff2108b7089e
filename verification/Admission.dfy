/** The parts of `AudioProcessor` that work on values: validation, the replay window, staging a
    packet, the capacity tests, and the bookkeeping of the consumer. */
module Admission {
  import opened Wrappers
  import opened Resampling
  import opened Windowing
  import opened Segments
  import opened Streaming
  import opened AudioHistory

  /** A JavaScript number that may be `NaN` or infinite. */
  datatype Number = Finite(value: real) | NonFinite

  const MAX_SAFE := 9007199254740991
  const REPLAYS := 256

  datatype Input = Input(
    captureID: string,
    source: string,
    sequence: int,
    startMs: Number,
    sampleRate: int,
    samples: seq<Number>)

  datatype AudioError =
    | ClosedToInput
    | InvalidInput
    | ReplayExpired
    | ChangedDuplicate
    | InferenceFailed
    | Backpressure
    | ClockRegressed

  datatype Outcome = Returned(duplicate: bool) | Threw(error: AudioError)

  datatype Options = Options(
    chunkSeconds: Number,
    overlapSeconds: Number,
    sampleRate: Option<int>,
    vad: Option<bool>,
    maxBufferedSeconds: Option<Number>)

  /** `Math.round`. */
  function Round(x: real): int {
    (x + 0.5).Floor
  }

  /** A time in samples. */
  function Samples(seconds: real, rate: nat): (count: int)
    ensures Near(count, seconds, rate)
    ensures seconds >= 0.0 ==> count >= 0
  {
    Round(seconds * (rate as real))
  }

  function RateOf(o: Options): int {
    match o.sampleRate
    case Some(rate) => rate
    case None => 16000
  }

  /** The options that are good for a processor; a capacity that is not given never stands in
      the way. */
  predicate Acceptable(o: Options) {
    && 8000 <= RateOf(o) <= 192000
    && o.chunkSeconds.Finite? && 0.0 < o.chunkSeconds.value <= 30.0
    && o.overlapSeconds.Finite? && 0.0 <= o.overlapSeconds.value < o.chunkSeconds.value
    && Samples(o.overlapSeconds.value, RateOf(o)) < Samples(o.chunkSeconds.value, RateOf(o))
    && (o.maxBufferedSeconds.Some? ==>
          o.maxBufferedSeconds.value.Finite? && o.maxBufferedSeconds.value.value >= o.chunkSeconds.value)
  }

  /** The count of samples is the time, rounded, and up from halfway. */
  predicate Near(count: int, seconds: real, rate: int) {
    -0.5 < (count as real) - seconds * (rate as real) <= 0.5
  }

  /** The tests of the constructor; `None` where it throws. */
  function Configure(o: Options, kernel: Kernel, silent: seq<Sample> -> bool): (cfg: Option<Config>)
    ensures cfg.Some? <==> Acceptable(o)
    ensures cfg.Some? ==>
              && cfg.value.Legal()
              && (o.sampleRate.Some? ==> cfg.value.rate == o.sampleRate.value)
              && (o.sampleRate.None? ==> cfg.value.rate == 16000)
              && Near(cfg.value.windows.window, o.chunkSeconds.value, cfg.value.rate)
              && Near(cfg.value.windows.overlap, o.overlapSeconds.value, cfg.value.rate)
              && o.chunkSeconds.value <= cfg.value.capacity
              && (o.maxBufferedSeconds.Some? ==> Finite(cfg.value.capacity) == o.maxBufferedSeconds.value)
              && (o.maxBufferedSeconds.None? ==>
                    && cfg.value.capacity >= 60.0 && cfg.value.capacity >= 4.0 * o.chunkSeconds.value
                    && cfg.value.capacity in {60.0, 4.0 * o.chunkSeconds.value})
              && cfg.value.vad == (o.vad != Some(false)) && cfg.value.kernel == kernel && cfg.value.silent == silent
  {
    var rate := RateOf(o);
    if rate < 8000 || rate > 192000 then None
    else if !o.chunkSeconds.Finite? || o.chunkSeconds.value <= 0.0 || o.chunkSeconds.value > 30.0 then None
    else if !o.overlapSeconds.Finite? || o.overlapSeconds.value < 0.0
            || o.overlapSeconds.value >= o.chunkSeconds.value then None
    else
      var window := Samples(o.chunkSeconds.value, rate);
      var overlap := Samples(o.overlapSeconds.value, rate);
      if window < 1 || window <= overlap then None
      else
        var fallback := if 60.0 < 4.0 * o.chunkSeconds.value then 4.0 * o.chunkSeconds.value else 60.0;
        var capacity := if o.maxBufferedSeconds.Some? then o.maxBufferedSeconds.value else Finite(fallback);
        if !capacity.Finite? || capacity.value < o.chunkSeconds.value then None
        else Some(Config(rate, Windows(window, overlap), capacity.value, o.vad != Some(false), kernel, silent))
  }

  function Values(samples: seq<Number>): seq<Sample>
    requires forall i :: 0 <= i < |samples| ==> samples[i].Finite?
  {
    seq(|samples|, i requires 0 <= i < |samples| => samples[i].value)
  }

  /** The packets that `accept` can be asked to take, apart from the capture they belong to. */
  predicate LegalPacket(p: Packet) {
    && 0 < |p.captureID| <= 256
    && (p.source == "remote" || p.source == "microphone")
    && p.sequence <= 9007199254740991
    && p.startMs >= 0.0
    && 8000 <= p.sampleRate <= 192000
    && p.samples != []
  }

  /** How a packet arrives. */
  function ToInput(p: Packet): Input {
    Input(p.captureID, p.source, p.sequence, Finite(p.startMs), p.sampleRate,
          seq(|p.samples|, i requires 0 <= i < |p.samples| => Finite(p.samples[i])))
  }

  function Validate(current: Option<string>, input: Input): (p: Option<Packet>)
    ensures p.Some? ==>
              && LegalPacket(p.value) && ToInput(p.value) == input
              && (current.Some? ==> p.value.captureID == current.value)
  {
    if |input.captureID| == 0 || |input.captureID| > 256
       || (current.Some? && current.value != input.captureID) then None
    else if input.source != "remote" && input.source != "microphone" then None
    else if input.sequence < 0 || input.sequence > MAX_SAFE then None
    else if !input.startMs.Finite? || input.startMs.value < 0.0 then None
    else if input.sampleRate < 8000 || input.sampleRate > 192000 then None
    else if |input.samples| == 0 || exists i :: 0 <= i < |input.samples| && !input.samples[i].Finite? then None
    else Some(Packet(input.captureID, input.source, input.sequence, input.startMs.value, input.sampleRate,
                     Values(input.samples)))
  }

  /** Exactly the legal packets of the current capture come through, as themselves. */
  lemma ValidateRoundTrip(current: Option<string>, p: Packet)
    ensures Validate(current, ToInput(p))
            == if LegalPacket(p) && (current.Some? ==> p.captureID == current.value) then Some(p) else None
  {
    assert Values(ToInput(p).samples) == p.samples;
  }

  // ---- replays ----------------------------------------------------------------

  /** The digest remembered for a sequence number. */
  function Recall(recent: seq<Packet>, sequence: nat): Option<Packet> {
    if recent == [] then None
    else if recent[0].sequence == sequence then Some(recent[0])
    else Recall(recent[1..], sequence)
  }

  function LastFew(accepted: seq<Packet>): seq<Packet> {
    if |accepted| <= REPLAYS then accepted else accepted[|accepted| - REPLAYS..]
  }

  ghost predicate Increasing(accepted: seq<Packet>) {
    forall i, j :: 0 <= i < j < |accepted| ==> accepted[i].sequence < accepted[j].sequence
  }

  lemma {:induction false} RecallFinds(recent: seq<Packet>, sequence: nat)
    requires Increasing(recent)
    ensures Recall(recent, sequence).Some? ==> Recall(recent, sequence).value in recent
                                               && Recall(recent, sequence).value.sequence == sequence
    ensures forall p :: p in recent && p.sequence == sequence ==> Recall(recent, sequence) == Some(p)
  {
    if recent != [] {
      RecallFinds(recent[1..], sequence);
    }
  }

  /** `recent.set` and the eviction of the oldest entry. */
  function Remember(recent: seq<Packet>, p: Packet): seq<Packet> {
    var grown := recent + [p];
    if |grown| > REPLAYS then grown[1..] else grown
  }

  lemma RememberKeepsLastFew(accepted: seq<Packet>, p: Packet)
    ensures Remember(LastFew(accepted), p) == LastFew(accepted + [p])
  {
  }

  type Accepted = map<string, seq<Packet>>

  function SamplesOf(packets: seq<Packet>): seq<Sample> {
    if packets == [] then [] else SamplesOf(packets[..|packets| - 1]) + Last(packets).samples
  }

  function HeardIn(segments: seq<Segment>): seq<Sample> {
    if segments == [] then [] else HeardIn(segments[..|segments| - 1]) + Last(segments).heard
  }

  lemma HeardInSnoc(segments: seq<Segment>, g: Segment)
    ensures HeardIn(segments + [g]) == HeardIn(segments) + g.heard
  {
    assert (segments + [g])[..|segments|] == segments;
  }

  lemma HeardInCloses(segments: seq<Segment>)
    requires segments != []
    ensures HeardIn(CloseLast(segments)) == HeardIn(segments)
  {
    HeardInSnoc(segments[..|segments| - 1], Closed(Last(segments)));
  }

  /** No accepted sample is lost or moved, across gaps and flushes. */
  lemma HeardKeepsSamples(segments: seq<Segment>, p: Packet)
    ensures HeardIn(Heard(segments, p)) == HeardIn(segments) + p.samples
  {
    if segments == [] {
      HeardInSnoc([], Opened(p));
    } else {
      var front, g := segments[..|segments| - 1], Last(segments);
      if Continues(g, p) {
        HeardInSnoc(front, Longer(g, p));
      } else {
        HeardInCloses(segments);
        HeardInSnoc(CloseLast(segments), Opened(p));
      }
    }
  }

  /** What is remembered of a source: its packets, all of them in its segments, and the
      replay window over the last few. */
  ghost predicate Replayable(replays: map<string, seq<Packet>>, accepted: Accepted, history: History)
    requires WellFormed(history)
  {
    && accepted.Keys == history.Keys
    && replays.Keys == history.Keys
    && forall name :: name in history ==>
         SourceReplayable(replays[name], accepted[name], history[name])
  }

  function AcceptedOf(accepted: Accepted, name: string): seq<Packet> {
    if name in accepted then accepted[name] else []
  }

  ghost predicate SourceReplayable(recent: seq<Packet>, accepted: seq<Packet>, segments: seq<Segment>) {
    && accepted != [] && segments != []
    && Increasing(accepted)
    && recent == LastFew(accepted)
    && Last(accepted).sequence == Last(segments).sequence
    && SamplesOf(accepted) == HeardIn(segments)
  }

  lemma SourceReplayableAccepts(recent: seq<Packet>, accepted: seq<Packet>, segments: seq<Segment>, p: Packet)
    requires (recent == accepted == [] && segments == []) || SourceReplayable(recent, accepted, segments)
    requires segments != [] ==> Last(segments).sequence < p.sequence
    ensures SourceReplayable(Remember(recent, p), accepted + [p], Heard(segments, p))
  {
    SamplesOfSnoc(accepted, p);
    IncreasingSnoc(accepted, p);
    hide Increasing, Heard, HeardIn, SamplesOf, Remember, LastFew;
    RememberKeepsLastFew(accepted, p);
    HeardKeepsSamples(segments, p);
  }

  lemma SamplesOfSnoc(accepted: seq<Packet>, p: Packet)
    ensures SamplesOf(accepted + [p]) == SamplesOf(accepted) + p.samples
  {
    assert (accepted + [p])[..|accepted|] == accepted;
  }

  lemma IncreasingSnoc(accepted: seq<Packet>, p: Packet)
    requires Increasing(accepted)
    requires accepted != [] ==> Last(accepted).sequence < p.sequence
    ensures Increasing(accepted + [p])
  {
  }

  function RecentOf(replays: map<string, seq<Packet>>, name: string): seq<Packet> {
    if name in replays then replays[name] else []
  }

  lemma ReplayableAccepts(replays: map<string, seq<Packet>>, accepted: Accepted, history: History, p: Packet)
    requires WellFormed(history) && Replayable(replays, accepted, history)
    requires p.source in history ==> Last(history[p.source]).sequence < p.sequence
    ensures Replayable(replays[p.source := Remember(RecentOf(replays, p.source), p)],
                       accepted[p.source := AcceptedOf(accepted, p.source) + [p]],
                       history[p.source := Heard(SegmentsOf(history, p.source), p)])
  {
    hide SourceReplayable, Heard, Remember;
    assert p.source in history ==> SourceReplayable(replays[p.source], accepted[p.source], history[p.source]);
    SourceReplayableAccepts(RecentOf(replays, p.source), AcceptedOf(accepted, p.source),
                            SegmentsOf(history, p.source), p);
  }

  /** What looking a packet's number up in the replay window finds. */
  lemma RecallDecides(accepted: seq<Packet>, p: Packet)
    requires Increasing(accepted)
    ensures var found := Recall(LastFew(accepted), p.sequence);
            && (found == Some(p) <==> p in LastFew(accepted))
            && (found.Some? <==> exists q :: q in LastFew(accepted) && q.sequence == p.sequence)
            && (found.Some? ==> accepted != [] && p.sequence <= Last(accepted).sequence)
  {
    RecallFinds(LastFew(accepted), p.sequence);
  }

  // ---- records ----------------------------------------------------------------

  ghost predicate Recorded(cfg: Config, order: seq<string>, sources: map<string, Source>, history: History)
    requires cfg.Legal() && WellFormed(history)
  {
    && (forall i, j :: 0 <= i < j < |order| ==> order[i] != order[j])
    && (forall name :: name in order <==> name in sources)
    && (forall name :: name in sources ==> name in history && Represents(cfg, sources[name], Last(history[name])))
  }

  lemma RecordedIsRecords(cfg: Config, order: seq<string>, sources: map<string, Source>, history: History)
    requires cfg.Legal() && WellFormed(history) && Recorded(cfg, order, sources, history)
    ensures sources == Records(cfg, order, history)
  {
    forall name | name in sources
      ensures sources[name] == RecordOf(cfg, Last(history[name]))
    {
      RecordIsUnique(cfg, sources[name], Last(history[name]));
    }
  }

  lemma RecordedUpdate(cfg: Config, order: seq<string>, sources: map<string, Source>, history: History,
                       name: string, s: Source, segments: seq<Segment>)
    requires cfg.Legal() && WellFormed(history) && Recorded(cfg, order, sources, history)
    requires segments != [] && Represents(cfg, s, Last(segments))
    ensures WellFormed(history[name := segments])
    ensures Recorded(cfg, Joined(order, name), sources[name := s], history[name := segments])
  {
  }

  /** Insertion order of a JavaScript `Map` after `set(name, …)`. */
  function Joined(order: seq<string>, name: string): seq<string> {
    if name in order then order else order + [name]
  }

  function CloseAll(history: History, names: seq<string>): (closed: History)
    requires WellFormed(history) && forall name :: name in names ==> name in history
    ensures WellFormed(closed) && closed.Keys == history.Keys
  {
    map name | name in history :: if name in names then CloseLast(history[name]) else history[name]
  }

  /** `finalized` holds the finished copies of the sources named so far. */
  ghost predicate Finished(cfg: Config, names: seq<string>, finalized: map<string, Source>, history: History)
    requires cfg.Legal() && WellFormed(history)
  {
    && (forall name :: name in names <==> name in finalized)
    && (forall name :: name in finalized ==>
          && name in history
          && Represents(cfg, finalized[name], Closed(Last(history[name])))
          && finalized[name].input == [] && finalized[name].output == [])
  }

  lemma FinishedRecords(cfg: Config, order: seq<string>, sources: map<string, Source>,
                        finalized: map<string, Source>, history: History)
    requires cfg.Legal() && WellFormed(history) && Recorded(cfg, order, sources, history)
    requires Finished(cfg, order, finalized, history)
    ensures Recorded(cfg, order, finalized, CloseAll(history, order))
    ensures SourcesLoad(cfg, order, finalized) == 0.0
  {
    FinalizedHoldNothing(cfg, order, finalized);
  }

  lemma OwedAllSnoc(cfg: Config, captureID: string, order: seq<string>, i: nat, history: History)
    requires cfg.Legal() && WellFormed(history) && i < |order|
    requires forall name :: name in order ==> name in history
    ensures OwedAll(cfg, captureID, order[..i + 1], history)
            == OwedAll(cfg, captureID, order[..i], history) + Owed(cfg, captureID, order[i], Last(history[order[i]]))
  {
    assert order[..i + 1][..i] == order[..i];
    assert Last(order[..i + 1]) == order[i];
  }

  lemma FinishedSnoc(cfg: Config, order: seq<string>, i: nat, finalized: map<string, Source>, tail: Source,
                     history: History)
    requires cfg.Legal() && WellFormed(history) && i < |order|
    requires Finished(cfg, order[..i], finalized, history) && order[i] in history
    requires Represents(cfg, tail, Closed(Last(history[order[i]]))) && tail.input == [] && tail.output == []
    ensures Finished(cfg, order[..i + 1], finalized[order[i] := tail], history)
  {
    assert order[..i + 1] == order[..i] + [order[i]];
  }

  /** Finish a copy of every source in turn, as `accept` does to see whether `flush` would
      overrun, and as `flush` does for good. */
  method FinishAll(cfg: Config, captureID: string, order: seq<string>, sources: map<string, Source>,
                   ghost history: History)
    returns (finalized: map<string, Source>, queued: seq<Pending>)
    requires cfg.Legal() && WellFormed(history) && Recorded(cfg, order, sources, history)
    ensures queued == OwedAll(cfg, captureID, order, history)
    ensures Recorded(cfg, order, finalized, CloseAll(history, order))
    ensures SourcesLoad(cfg, order, finalized) == 0.0
  {
    finalized, queued := map[], [];
    FinishStart(cfg, captureID, order, history);
    OrderKnown(cfg, order, sources, history);
    hide *;
    for i := 0 to |order|
      invariant queued == OwedAll(cfg, captureID, order[..i], history)
      invariant Finished(cfg, order[..i], finalized, history)
    {
      var name := order[i];
      OwedAllSnoc(cfg, captureID, order, i, history);
      var tail;
      tail, queued := Finish(cfg, sources[name], name, captureID, queued, Last(history[name]));
      FinishedSnoc(cfg, order, i, finalized, tail, history);
      finalized := finalized[name := tail];
    }
    FinishedRecords(cfg, order, sources, finalized, history);
  }

  lemma FinishStart(cfg: Config, captureID: string, order: seq<string>, history: History)
    requires cfg.Legal() && WellFormed(history) && forall name :: name in order ==> name in history
    ensures OwedAll(cfg, captureID, order[..0], history) == [] && Finished(cfg, order[..0], map[], history)
    ensures order[..|order|] == order
  {
    assert order[..0] == [];
  }

  lemma OrderKnown(cfg: Config, order: seq<string>, sources: map<string, Source>, history: History)
    requires cfg.Legal() && WellFormed(history) && Recorded(cfg, order, sources, history)
    ensures forall i :: 0 <= i < |order| ==>
              && order[i] in sources && order[i] in history && history[order[i]] != []
              && Represents(cfg, sources[order[i]], Last(history[order[i]]))
  {
    hide Represents;
  }

  /** The two admission tests of `accept` on the state it would leave. */
  method Fitting(cfg: Config, captureID: string, order: seq<string>, sources: map<string, Source>,
                 pending: seq<Pending>, ghost history: History)
    returns (fits: bool)
    requires cfg.Legal() && WellFormed(history) && Recorded(cfg, order, sources, history)
    ensures fits <==> Fits(cfg, captureID, order, history, pending)
  {
    RecordedIsRecords(cfg, order, sources, history);
    if BufferedSeconds(cfg, order, sources, pending) > Limit(cfg) {
      return false;
    }
    var finalized, finalQueued := FinishAll(cfg, captureID, order, sources, history);
    return BufferedSeconds(cfg, order, finalized, pending + finalQueued) <= Limit(cfg);
  }

  lemma RecordIsLast(cfg: Config, s: Source, g: Segment)
    requires cfg.Legal() && Represents(cfg, s, g)
    ensures s.sequence == g.sequence && s.endMs == g.EndMs() && s.inputRate == g.inputRate && s.finalized == g.closed
  {
  }

  /** The new record of the packet's source, and the chunks it makes due. */
  method Stage(cfg: Config, sources: map<string, Source>, p: Packet, ghost segments: seq<Segment>)
    returns (discontinuity: bool, source: Source, queued: seq<Pending>)
    requires cfg.Legal()
    requires p.source in sources <==> segments != []
    requires p.source in sources ==> Represents(cfg, sources[p.source], Last(segments))
    ensures Represents(cfg, source, Last(Heard(segments, p)))
    ensures queued == Due(cfg, segments, p)
    ensures discontinuity <==> segments != [] && Discontinuous(Last(segments), p)
  {
    hide Represents, Growth, RecordOf;
    if p.source in sources {
      RecordIsLast(cfg, sources[p.source], Last(segments));
    }
    discontinuity, queued := false, [];
    if p.source in sources {
      var previous := sources[p.source];
      discontinuity := p.sequence != previous.sequence + 1
                       || Abs(p.startMs - previous.endMs) > Slack(previous.inputRate)
                       || p.sampleRate != previous.inputRate;
      if discontinuity {
        var tail;
        tail, queued := Finish(cfg, previous, p.source, p.captureID, queued, Last(segments));
      }
    }
    FreshRepresents(cfg, p);
    ghost var g := FreshSegment(p);
    source := FreshSource(p);
    if p.source in sources && !discontinuity && !sources[p.source].finalized {
      source, g := sources[p.source], Last(segments);
    }
    source, queued := Feed(cfg, source, p, queued, g);
  }

  // ---- the consumer -----------------------------------------------------------

  datatype Step = Skipped | Consumed | Failed

  /** What happened when chunk number `index` (in emission order) was at the head. */
  datatype Attempt = Attempt(index: nat, step: Step)

  /** Chunks that have left the queue. */
  function Left(journal: seq<Attempt>): nat {
    if journal == [] then 0
    else Left(journal[..|journal| - 1]) + (if Last(journal).step.Failed? then 0 else 1)
  }

  predicate Quiet(cfg: Config, item: Pending) {
    cfg.vad && cfg.silent(item.chunk.samples)
  }

  function TotalSeconds(items: seq<Pending>): real {
    if items == [] then 0.0 else TotalSeconds(items[..|items| - 1]) + Last(items).seconds
  }

  /** Every attempt was made on the oldest chunk not yet gone, only silence was skipped, and
      only a chunk with speech was ever offered. */
  ghost predicate InOrder(cfg: Config, emitted: seq<Pending>, journal: seq<Attempt>) {
    forall j :: 0 <= j < |journal| ==>
      && journal[j].index == Left(journal[..j]) < |emitted|
      && (journal[j].step.Skipped? <==> Quiet(cfg, emitted[journal[j].index]))
  }

  /** Nothing is lost, repeated or reordered between emission and consumption. */
  ghost predicate Queued(cfg: Config, emitted: seq<Pending>, pending: seq<Pending>, journal: seq<Attempt>,
                         processedSeconds: real) {
    && InOrder(cfg, emitted, journal)
    && Left(journal) <= |emitted|
    && pending == emitted[Left(journal)..]
    && processedSeconds == TotalSeconds(emitted[..Left(journal)])
  }

  lemma QueuedEmits(cfg: Config, emitted: seq<Pending>, pending: seq<Pending>, journal: seq<Attempt>,
                    processedSeconds: real, added: seq<Pending>)
    requires Queued(cfg, emitted, pending, journal, processedSeconds)
    ensures Queued(cfg, emitted + added, pending + added, journal, processedSeconds)
  {
    assert (emitted + added)[..Left(journal)] == emitted[..Left(journal)];
  }

  lemma QueuedStep(cfg: Config, emitted: seq<Pending>, pending: seq<Pending>, journal: seq<Attempt>,
                   processedSeconds: real, step: Step)
    requires Queued(cfg, emitted, pending, journal, processedSeconds) && pending != []
    requires step.Skipped? <==> Quiet(cfg, pending[0])
    ensures var next := journal + [Attempt(Left(journal), step)];
            if step.Failed? then Queued(cfg, emitted, pending, next, processedSeconds)
            else Queued(cfg, emitted, pending[1..], next, processedSeconds + pending[0].seconds)
  {
    InOrderStep(cfg, emitted, journal, step);
    OneMoreGone(emitted, Left(journal));
    hide InOrder, Quiet, Left, TotalSeconds;
  }

  lemma OneMoreGone(emitted: seq<Pending>, n: nat)
    requires n < |emitted|
    ensures emitted[n..][1..] == emitted[n + 1..] && emitted[n..][0] == emitted[n]
    ensures TotalSeconds(emitted[..n + 1]) == TotalSeconds(emitted[..n]) + emitted[n].seconds
  {
    assert Last(emitted[..n + 1]) == emitted[n] && emitted[..n + 1][..n] == emitted[..n];
  }

  lemma InOrderStep(cfg: Config, emitted: seq<Pending>, journal: seq<Attempt>, step: Step)
    requires InOrder(cfg, emitted, journal) && Left(journal) < |emitted|
    requires step.Skipped? <==> Quiet(cfg, emitted[Left(journal)])
    ensures var next := journal + [Attempt(Left(journal), step)];
            InOrder(cfg, emitted, next) && Left(next) == Left(journal) + if step.Failed? then 0 else 1
  {
    hide Quiet;
    var next := journal + [Attempt(Left(journal), step)];
    assert next[..|journal|] == journal && Last(next) == Attempt(Left(journal), step);
    forall j | 0 <= j < |journal|
      ensures next[j] == journal[j] && next[..j] == journal[..j]
    {
    }
  }

  lemma FitsShift(cfg: Config, captureID: string, order: seq<string>, history: History, pending: seq<Pending>)
    requires cfg.Legal() && WellFormed(history) && pending != []
    requires forall name :: name in order ==> name in history
    requires Fits(cfg, captureID, order, history, pending)
    ensures Fits(cfg, captureID, order, history, pending[1..])
  {
    var owed := OwedAll(cfg, captureID, order, history);
    assert pending == [pending[0]] + pending[1..];
    PendingLoadSplits(cfg, [pending[0]], pending[1..]);
    PendingLoadSplits(cfg, pending, owed);
    PendingLoadSplits(cfg, pending[1..], owed);
    PendingLoadNonNegative(cfg, [pending[0]]);
  }
}
