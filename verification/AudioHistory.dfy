/** Whole-run bookkeeping of the audio processor: which segments each source has spoken,
    which chunks they are worth, and how much audio is held back. */
module AudioHistory {
  import opened Resampling
  import opened Windowing
  import opened Segments
  import opened Streaming

  type History = map<string, seq<Segment>>

  ghost predicate WellFormed(history: History) {
    forall name :: name in history ==> history[name] != []
  }

  function Last<T>(s: seq<T>): T
    requires s != []
  {
    s[|s| - 1]
  }

  /** Half an input sample, in milliseconds. */
  function Slack(rate: Rate): real {
    500.0 / (rate as real)
  }

  function Abs(x: real): real {
    if x < 0.0 then -x else x
  }

  predicate Discontinuous(g: Segment, p: Packet) {
    || p.sequence != g.sequence + 1
    || Abs(p.startMs - g.EndMs()) > Slack(g.inputRate)
    || p.sampleRate != g.inputRate
  }

  /** The packet starts before the source's clock by more than half a sample. */
  predicate TooEarly(g: Segment, p: Packet) {
    p.startMs < g.EndMs() - Slack(g.inputRate)
  }

  predicate Continues(g: Segment, p: Packet) {
    !g.closed && !Discontinuous(g, p)
  }

  function Opened(p: Packet): Segment {
    Longer(FreshSegment(p), p)
  }

  function Closed(g: Segment): Segment {
    g.(closed := true)
  }

  function CloseLast(segments: seq<Segment>): seq<Segment>
    requires segments != []
  {
    segments[..|segments| - 1] + [Closed(Last(segments))]
  }

  /** The segments of a source after it accepts `p`. */
  function Heard(segments: seq<Segment>, p: Packet): (after: seq<Segment>)
    ensures after != [] && Last(after).sequence == p.sequence && !Last(after).closed
  {
    if segments == [] then [Opened(p)]
    else if Continues(Last(segments), p) then segments[..|segments| - 1] + [Longer(Last(segments), p)]
    else CloseLast(segments) + [Opened(p)]
  }

  /** All chunks the segments of one source are worth, in order. */
  function Emissions(cfg: Config, captureID: string, name: string, segments: seq<Segment>): seq<Pending>
    requires cfg.Legal()
  {
    if segments == [] then []
    else Emissions(cfg, captureID, name, segments[..|segments| - 1]) + Emission(cfg, captureID, name, Last(segments))
  }

  /** The chunks that accepting `p` makes due. */
  function Due(cfg: Config, segments: seq<Segment>, p: Packet): seq<Pending>
    requires cfg.Legal()
  {
    if segments == [] then Growth(cfg, p.captureID, p.source, FreshSegment(p), Opened(p))
    else if Continues(Last(segments), p)
    then Growth(cfg, p.captureID, p.source, Last(segments), Longer(Last(segments), p))
    else Owed(cfg, p.captureID, p.source, Last(segments))
         + Growth(cfg, p.captureID, p.source, FreshSegment(p), Opened(p))
  }

  lemma FreshEmitsNothing(cfg: Config, captureID: string, name: string, p: Packet)
    requires cfg.Legal()
    ensures Emission(cfg, captureID, name, FreshSegment(p)) == []
  {
    var rs := cfg.For(p.sampleRate);
    rs.EmptyThrough();
    rs.ReadyWithinBatch([]);
    cfg.windows.FullWindowFits(0, 0);
  }

  lemma EmissionCloses(cfg: Config, captureID: string, name: string, g: Segment)
    requires cfg.Legal()
    ensures Emission(cfg, captureID, name, Closed(g))
            == Emission(cfg, captureID, name, g) + Owed(cfg, captureID, name, g)
  {
    if !g.closed {
      EmissionGrows(cfg, captureID, name, g, Closed(g));
    } else {
      assert Closed(g) == g;
    }
  }

  lemma EmissionsSnoc(cfg: Config, captureID: string, name: string, segments: seq<Segment>, g: Segment)
    requires cfg.Legal()
    ensures Emissions(cfg, captureID, name, segments + [g])
            == Emissions(cfg, captureID, name, segments) + Emission(cfg, captureID, name, g)
  {
    assert (segments + [g])[..|segments|] == segments;
  }

  lemma EmissionsClose(cfg: Config, captureID: string, name: string, segments: seq<Segment>)
    requires cfg.Legal() && segments != []
    ensures Emissions(cfg, captureID, name, CloseLast(segments))
            == Emissions(cfg, captureID, name, segments) + Owed(cfg, captureID, name, Last(segments))
  {
    var front := segments[..|segments| - 1];
    EmissionsSnoc(cfg, captureID, name, front, Closed(Last(segments)));
    EmissionCloses(cfg, captureID, name, Last(segments));
  }

  /** What accepting `p` makes due is exactly what the new segments add. */
  lemma HeardEmits(cfg: Config, segments: seq<Segment>, p: Packet)
    requires cfg.Legal()
    ensures Emissions(cfg, p.captureID, p.source, Heard(segments, p))
            == Emissions(cfg, p.captureID, p.source, segments) + Due(cfg, segments, p)
  {
    hide Emission, Discontinuous;
    FreshEmitsNothing(cfg, p.captureID, p.source, p);
    EmissionGrows(cfg, p.captureID, p.source, FreshSegment(p), Opened(p));
    if segments == [] {
      EmissionsSnoc(cfg, p.captureID, p.source, [], Opened(p));
    } else {
      var front, g := segments[..|segments| - 1], Last(segments);
      if Continues(g, p) {
        EmissionsSnoc(cfg, p.captureID, p.source, front, Longer(g, p));
        EmissionGrows(cfg, p.captureID, p.source, g, Longer(g, p));
      } else {
        EmissionsClose(cfg, p.captureID, p.source, segments);
        EmissionsSnoc(cfg, p.captureID, p.source, CloseLast(segments), Opened(p));
      }
    }
  }

  // ---- held audio -------------------------------------------------------------

  function PendingLoad(cfg: Config, pending: seq<Pending>): real {
    if pending == [] then 0.0
    else PendingLoad(cfg, pending[..|pending| - 1]) + Seconds(|Last(pending).chunk.samples|, cfg.rate)
  }

  lemma {:induction false} PendingLoadSplits(cfg: Config, a: seq<Pending>, b: seq<Pending>)
    ensures PendingLoad(cfg, a + b) == PendingLoad(cfg, a) + PendingLoad(cfg, b)
  {
    if b == [] {
      assert a + b == a;
    } else {
      var front := b[..|b| - 1];
      PendingLoadSplits(cfg, a, front);
      assert (a + b)[..|a + b| - 1] == a + front;
    }
  }

  lemma {:induction false} PendingLoadNonNegative(cfg: Config, pending: seq<Pending>)
    ensures PendingLoad(cfg, pending) >= 0.0
  {
    if pending != [] {
      PendingLoadNonNegative(cfg, pending[..|pending| - 1]);
    }
  }

  function SourceLoad(cfg: Config, s: Source): real {
    Seconds(|s.input|, s.inputRate) + Seconds(|s.output|, cfg.rate)
  }

  /** `bufferedSeconds`: everything retained for any source, and everything waiting. */
  function BufferedSeconds(cfg: Config, order: seq<string>, sources: map<string, Source>, pending: seq<Pending>): real
    requires forall name :: name in order ==> name in sources
  {
    SourcesLoad(cfg, order, sources) + PendingLoad(cfg, pending)
  }

  function SourcesLoad(cfg: Config, order: seq<string>, sources: map<string, Source>): real
    requires forall name :: name in order ==> name in sources
  {
    if order == [] then 0.0
    else SourcesLoad(cfg, order[..|order| - 1], sources) + SourceLoad(cfg, sources[Last(order)])
  }

  lemma {:induction false} FinalizedHoldNothing(cfg: Config, order: seq<string>, sources: map<string, Source>)
    requires forall name :: name in order ==> name in sources && sources[name].input == [] && sources[name].output == []
    ensures SourcesLoad(cfg, order, sources) == 0.0
  {
    if order != [] {
      FinalizedHoldNothing(cfg, order[..|order| - 1], sources);
    }
  }

  /** What closing every source in `order` would add to the queue. */
  function OwedAll(cfg: Config, captureID: string, order: seq<string>, history: History): seq<Pending>
    requires cfg.Legal() && WellFormed(history)
    requires forall name :: name in order ==> name in history
  {
    if order == [] then []
    else OwedAll(cfg, captureID, order[..|order| - 1], history)
         + Owed(cfg, captureID, Last(order), Last(history[Last(order)]))
  }

  /** The records the sources in `order` must have. */
  function Records(cfg: Config, order: seq<string>, history: History): map<string, Source>
    requires cfg.Legal() && WellFormed(history)
    requires forall name :: name in order ==> name in history
  {
    map name | name in order :: RecordOf(cfg, Last(history[name]))
  }

  /** Both bounds `accept` insists on: what is held now, and what finishing now would queue. */
  ghost predicate Fits(cfg: Config, captureID: string, order: seq<string>, history: History, pending: seq<Pending>)
    requires cfg.Legal() && WellFormed(history)
    requires forall name :: name in order ==> name in history
  {
    && BufferedSeconds(cfg, order, Records(cfg, order, history), pending) <= Limit(cfg)
    && PendingLoad(cfg, pending + OwedAll(cfg, captureID, order, history)) <= Limit(cfg)
  }

  function Limit(cfg: Config): real {
    cfg.capacity + 0.000000001
  }

  // ---- chunks of one source ---------------------------------------------------

  function OfSource(emitted: seq<Pending>, name: string): seq<Pending> {
    if emitted == [] then []
    else OfSource(emitted[..|emitted| - 1], name)
         + (if Last(emitted).chunk.source == name then [Last(emitted)] else [])
  }

  lemma {:induction false} OfSourceSplits(a: seq<Pending>, b: seq<Pending>, name: string)
    ensures OfSource(a + b, name) == OfSource(a, name) + OfSource(b, name)
  {
    if b == [] {
      assert a + b == a;
    } else {
      var front := b[..|b| - 1];
      OfSourceSplits(a, front, name);
      assert (a + b)[..|a + b| - 1] == a + front;
    }
  }

  lemma {:induction false} OfSourceAll(chunks: seq<Pending>, owner: string, name: string)
    requires forall i :: 0 <= i < |chunks| ==> chunks[i].chunk.source == owner
    ensures OfSource(chunks, name) == if name == owner then chunks else []
  {
    if chunks != [] {
      OfSourceAll(chunks[..|chunks| - 1], owner, name);
    }
  }

  lemma {:induction false} CutsNamed(cfg: Config, captureID: string, name: string, originMs: real,
                  output: seq<Sample>, closed: bool, k: nat)
    requires cfg.Legal() && k <= |cfg.windows.Spans(|output|, closed)|
    ensures forall i :: 0 <= i < |Cuts(cfg, captureID, name, originMs, output, closed, k)|
                        ==> Cuts(cfg, captureID, name, originMs, output, closed, k)[i].chunk.source == name
    decreases |cfg.windows.Spans(|output|, closed)| - k
  {
    if k < |cfg.windows.Spans(|output|, closed)| {
      CutsNamed(cfg, captureID, name, originMs, output, closed, k + 1);
    }
  }

  lemma OwedNamed(cfg: Config, captureID: string, owner: string, g: Segment, name: string)
    requires cfg.Legal()
    ensures var owed := Owed(cfg, captureID, owner, g);
            OfSource(owed, name) == (if name == owner then owed else [])
    ensures forall item :: item in Owed(cfg, captureID, owner, g) ==> item.chunk.source == owner
  {
    if !g.closed {
      EmissionGrows(cfg, captureID, owner, g, Closed(g));
      CutsNamed(cfg, captureID, owner, g.originMs, Closed(g).Output(cfg), true,
                |cfg.windows.Spans(|g.Output(cfg)|, false)|);
    }
    OfSourceAll(Owed(cfg, captureID, owner, g), owner, name);
  }

  lemma DueNamed(cfg: Config, segments: seq<Segment>, p: Packet, name: string)
    requires cfg.Legal()
    ensures var due := Due(cfg, segments, p);
            OfSource(due, name) == (if name == p.source then due else [])
    ensures forall item :: item in Due(cfg, segments, p) ==> item.chunk.source == p.source
  {
    var g := if segments != [] && Continues(Last(segments), p) then Last(segments) else FreshSegment(p);
    EmissionGrows(cfg, p.captureID, p.source, g, Longer(g, p));
    CutsNamed(cfg, p.captureID, p.source, g.originMs, Longer(g, p).Output(cfg), false,
              |cfg.windows.Spans(|g.Output(cfg)|, false)|);
    if segments != [] {
      OwedNamed(cfg, p.captureID, p.source, Last(segments), name);
    }
    OfSourceAll(Due(cfg, segments, p), p.source, name);
  }

  /** The record of a run: every source's chunks are the emissions of its segments. */
  ghost predicate Faithful(cfg: Config, captureID: string, history: History, emitted: seq<Pending>)
    requires cfg.Legal()
  {
    && WellFormed(history)
    && (forall name :: name in history ==> OfSource(emitted, name) == Emissions(cfg, captureID, name, history[name]))
    && (forall item :: item in emitted ==> item.chunk.source in history)
  }

  lemma {:induction false} OfAbsentSource(emitted: seq<Pending>, name: string)
    requires forall item :: item in emitted ==> item.chunk.source != name
    ensures OfSource(emitted, name) == []
  {
    if emitted != [] {
      OfAbsentSource(emitted[..|emitted| - 1], name);
    }
  }

  function SegmentsOf(history: History, name: string): seq<Segment> {
    if name in history then history[name] else []
  }

  /** One source moves on, and its new chunks join the end of the common queue. */
  lemma FaithfulAppends(cfg: Config, captureID: string, history: History, emitted: seq<Pending>,
                        name: string, segments: seq<Segment>, added: seq<Pending>)
    requires cfg.Legal() && Faithful(cfg, captureID, history, emitted) && segments != []
    requires Emissions(cfg, captureID, name, segments)
             == Emissions(cfg, captureID, name, SegmentsOf(history, name)) + added
    requires forall i :: 0 <= i < |added| ==> added[i].chunk.source == name
    ensures Faithful(cfg, captureID, history[name := segments], emitted + added)
  {
    var after := history[name := segments];
    forall other | other in after
      ensures OfSource(emitted + added, other) == Emissions(cfg, captureID, other, after[other])
    {
      hide OfSource, Emissions;
      OfSourceSplits(emitted, added, other);
      OfSourceAll(added, name, other);
      if other == name {
        EmittedBefore(cfg, captureID, history, emitted, name);
      }
    }
  }

  lemma EmittedBefore(cfg: Config, captureID: string, history: History, emitted: seq<Pending>, name: string)
    requires cfg.Legal() && Faithful(cfg, captureID, history, emitted)
    ensures OfSource(emitted, name) == Emissions(cfg, captureID, name, SegmentsOf(history, name))
  {
    if name !in history {
      OfAbsentSource(emitted, name);
    }
  }

  lemma FaithfulAccepts(cfg: Config, history: History, emitted: seq<Pending>, p: Packet)
    requires cfg.Legal() && Faithful(cfg, p.captureID, history, emitted)
    ensures var before := SegmentsOf(history, p.source);
            Faithful(cfg, p.captureID, history[p.source := Heard(before, p)], emitted + Due(cfg, before, p))
  {
    var before := SegmentsOf(history, p.source);
    HeardEmits(cfg, before, p);
    DueNamed(cfg, before, p, p.source);
    FaithfulAppends(cfg, p.captureID, history, emitted, p.source, Heard(before, p), Due(cfg, before, p));
  }

  lemma FaithfulCloses(cfg: Config, captureID: string, history: History, emitted: seq<Pending>, name: string)
    requires cfg.Legal() && Faithful(cfg, captureID, history, emitted) && name in history
    ensures Faithful(cfg, captureID, history[name := CloseLast(history[name])],
                     emitted + Owed(cfg, captureID, name, Last(history[name])))
  {
    var segments := history[name];
    EmissionsClose(cfg, captureID, name, segments);
    OwedNamed(cfg, captureID, name, Last(segments), name);
    FaithfulAppends(cfg, captureID, history, emitted, name, CloseLast(segments),
                    Owed(cfg, captureID, name, Last(segments)));
  }
}
