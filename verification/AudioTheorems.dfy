/** What the audio pipeline promises over whole runs. */
module AudioTheorems {
  import Conversion
  import opened Wrappers
  import opened Resampling
  import opened Windowing
  import opened Segments
  import opened Streaming
  import opened AudioHistory
  import opened Admission
  import opened AudioLog
  import opened AudioGaps
  import opened AudioState
  import opened Audio

  // ---- a finished segment is its batch ----------------------------------------

  /** `chunks` are what a finished segment comes to: resample the whole input, cut it into the
      one good set of windows, and count every output sample once. */
  ghost predicate IsBatch(cfg: Config, g: Segment, chunks: seq<Pending>)
    requires cfg.Legal()
  {
    var output := cfg.For(g.inputRate).Batch(g.heard);
    var spans := cfg.windows.Spans(|output|, true);
    && Conversion.IsConversion(cfg.For(g.inputRate), g.heard, output)
    && cfg.windows.IsWindowing(spans, |output|)
    && |chunks| == |spans|
    && (forall i :: 0 <= i < |chunks| ==> IsCut(cfg, g, output, spans[i], chunks[i].chunk))
    && TotalSeconds(chunks) == |output| as real / cfg.rate as real
  }

  /** The chunk holds the output samples of the span, and says when they start and at what rate. */
  predicate IsCut(cfg: Config, g: Segment, output: seq<Sample>, span: Span, chunk: Chunk) {
    && 0 <= span.lo <= span.hi <= |output|
    && chunk.samples == output[span.lo..span.hi]
    && chunk.sampleRate == cfg.rate
    && chunk.startMs == g.originMs + span.lo as real * 1000.0 / cfg.rate as real
  }

  lemma ClosedSegmentIsBatch(cfg: Config, captureID: string, name: string, g: Segment)
    requires cfg.Legal() && g.closed
    ensures IsBatch(cfg, g, Emission(cfg, captureID, name, g))
  {
    var w, output, chunks := cfg.windows, g.Output(cfg), Emission(cfg, captureID, name, g);
    w.SpansAreWindowing(|output|);
    BatchSeconds(cfg, captureID, name, g);
    Conversion.BatchIsConversion(cfg.For(g.inputRate), g.heard);
    SecondsAre(|output|, cfg.rate);
    hide w.Spans, w.IsWindowing, TotalSeconds, Seconds, Emission, IsCut, Conversion.IsConversion;
    forall i | 0 <= i < |chunks|
      ensures IsCut(cfg, g, output, w.Spans(|output|, true)[i], chunks[i].chunk)
    {
      BatchCuts(cfg, captureID, name, g, i);
    }
  }

  lemma SecondsAre(n: nat, rate: Rate)
    ensures Seconds(n, rate) == n as real / rate as real
  {
  }

  lemma MsAre(n: nat, rate: Rate)
    ensures Ms(n, rate) == n as real * 1000.0 / rate as real
  {
  }

  lemma BatchCuts(cfg: Config, captureID: string, name: string, g: Segment, i: nat)
    requires cfg.Legal() && g.closed && i < |cfg.windows.Spans(|g.Output(cfg)|, true)|
    ensures i < |Emission(cfg, captureID, name, g)|
    ensures IsCut(cfg, g, g.Output(cfg), cfg.windows.Spans(|g.Output(cfg)|, true)[i],
                  Emission(cfg, captureID, name, g)[i].chunk)
  {
    MsAre(cfg.windows.Spans(|g.Output(cfg)|, true)[i].lo, cfg.rate);
    hide Ms, Seconds;
    CutsAt(cfg, captureID, name, g.originMs, g.Output(cfg), true, 0, i);
    SpanFits(cfg.windows, |g.Output(cfg)|, true, i);
  }

  lemma BatchSeconds(cfg: Config, captureID: string, name: string, g: Segment)
    requires cfg.Legal() && g.closed
    ensures |Emission(cfg, captureID, name, g)| == |cfg.windows.Spans(|g.Output(cfg)|, true)|
    ensures TotalSeconds(Emission(cfg, captureID, name, g)) == Seconds(|g.Output(cfg)|, cfg.rate)
  {
    var w, n, chunks := cfg.windows, |g.Output(cfg)|, Emission(cfg, captureID, name, g);
    var spans := w.Spans(n, true);
    w.SpansAreWindowing(n);
    SecondsAreFresh(cfg, captureID, name, g, |spans|);
    w.FreshTotalIsReach(spans, n, |spans|);
    assert chunks[..|spans|] == chunks;
    hide TotalSeconds, Seconds, w.Spans, w.FreshTotal;
  }

  lemma {:induction false} SecondsAreFresh(cfg: Config, captureID: string, name: string, g: Segment, k: nat)
    requires cfg.Legal() && g.closed && k <= |cfg.windows.Spans(|g.Output(cfg)|, true)|
    ensures TotalSeconds(Emission(cfg, captureID, name, g)[..k])
            == Seconds(cfg.windows.FreshTotal(cfg.windows.Spans(|g.Output(cfg)|, true), k), cfg.rate)
  {
    hide Seconds, Windows.Spans, Windows.Fresh, Emission, TotalSeconds, Segment.Output;
    if k > 0 {
      var w, chunks := cfg.windows, Emission(cfg, captureID, name, g);
      var spans := w.Spans(|g.Output(cfg)|, true);
      EmissionLength(cfg, captureID, name, g);
      SecondsAreFresh(cfg, captureID, name, g, k - 1);
      SecondsOfCut(cfg, captureID, name, g, k - 1);
      SecondsAdd(w.FreshTotal(spans, k - 1), w.Fresh(spans, k - 1), cfg.rate);
      TotalOfPrefix(chunks, k - 1);
    } else {
      NothingFresh(cfg, captureID, name, g);
    }
  }

  lemma EmissionLength(cfg: Config, captureID: string, name: string, g: Segment)
    requires cfg.Legal() && g.closed
    ensures |Emission(cfg, captureID, name, g)| == |cfg.windows.Spans(|g.Output(cfg)|, true)|
  {
    hide Windows.Spans, Segment.Output;
  }

  lemma NothingFresh(cfg: Config, captureID: string, name: string, g: Segment)
    requires cfg.Legal()
    ensures TotalSeconds(Emission(cfg, captureID, name, g)[..0])
            == Seconds(cfg.windows.FreshTotal(cfg.windows.Spans(|g.Output(cfg)|, true), 0), cfg.rate)
  {
    hide Windows.Spans, Segment.Output, Emission;
  }

  lemma TotalOfPrefix(chunks: seq<Pending>, k: nat)
    requires k < |chunks|
    ensures TotalSeconds(chunks[..k + 1]) == TotalSeconds(chunks[..k]) + chunks[k].seconds
  {
    assert chunks[..k + 1][..k] == chunks[..k] && Last(chunks[..k + 1]) == chunks[k];
  }

  lemma SecondsOfCut(cfg: Config, captureID: string, name: string, g: Segment, i: nat)
    requires cfg.Legal() && g.closed && i < |cfg.windows.Spans(|g.Output(cfg)|, true)|
    ensures Emission(cfg, captureID, name, g)[i].seconds
            == Seconds(cfg.windows.Fresh(cfg.windows.Spans(|g.Output(cfg)|, true), i), cfg.rate)
  {
    hide Seconds, Windows.Spans, Windows.Reached, Segment.Output, Cuts;
    CutsAt(cfg, captureID, name, g.originMs, g.Output(cfg), true, 0, i);
    ReachedIsPrevious(cfg.windows, |g.Output(cfg)|, i);
  }

  lemma ReachedIsPrevious(w: Windows, n: nat, i: nat)
    requires w.Legal() && i < |w.Spans(n, true)|
    ensures w.Reached(i) == if i == 0 then 0 else w.Spans(n, true)[i - 1].hi
  {
    SpanFits(w, n, true, i);
  }

  lemma SecondsAdd(a: int, b: int, rate: Rate)
    ensures Seconds(a + b, rate) == Seconds(a, rate) + Seconds(b, rate)
  {
  }

  // ---- fragmentation does not matter ------------------------------------------

  /** Packets of one source that follow each other without a gap. */
  ghost predicate Contiguous(packets: seq<Packet>) {
    forall i :: 0 < i < |packets| ==> Adjoins(packets[0], packets[..i], packets[i])
  }

  ghost predicate Adjoins(first: Packet, before: seq<Packet>, p: Packet)
  {
    && before != []
    && p.source == first.source
    && p.sampleRate == first.sampleRate
    && p.sequence == Last(before).sequence + 1
    && Abs(p.startMs - (first.startMs + Ms(|SamplesOf(before)|, first.sampleRate))) <= Slack(first.sampleRate)
  }

  /** However a contiguous input is cut into packets, it is one segment with all the samples. */
  lemma {:induction false} ContiguousIsOneSegment(packets: seq<Packet>)
    requires packets != [] && Contiguous(packets)
    ensures HeardAll([], packets)
            == [Segment(packets[0].startMs, packets[0].sampleRate, SamplesOf(packets), Last(packets).sequence, false)]
  {
    var front, p := packets[..|packets| - 1], Last(packets);
    if front == [] {
      assert packets == [p];
      assert SamplesOf([p]) == SamplesOf([]) + p.samples;
    } else {
      forall i | 0 < i < |front|
        ensures Adjoins(front[0], front[..i], front[i])
      {
        assert Adjoins(packets[0], packets[..i], packets[i]);
        assert front[..i] == packets[..i];
      }
      ContiguousIsOneSegment(front);
      assert Adjoins(packets[0], packets[..|front|], packets[|front|]);
    }
  }

  /** A contiguous sound, finalized once or more. */
  ghost predicate OneSound(entries: seq<Entry>, packets: seq<Packet>) {
    packets != [] && Contiguous(packets) && exists n: nat :: n > 0 && entries == Spoken(packets) + Ends(n)
  }

  lemma OneSoundIsOneSegment(entries: seq<Entry>, packets: seq<Packet>)
    requires packets != [] && OneSound(entries, packets)
    ensures Told(entries)
            == [Segment(packets[0].startMs, packets[0].sampleRate, SamplesOf(packets), Last(packets).sequence, true)]
  {
    var n: nat :| n > 0 && entries == Spoken(packets) + Ends(n);
    ToldSpoken(packets);
    ContiguousIsOneSegment(packets);
    ToldEnds(Spoken(packets), n);
  }

  /** However the same sound was cut into packets, and whatever else went on, it ends in the
      same chunks. */
  lemma FragmentationIsInvisible(cfg: Config, one: State, other: State, name: string, a: seq<Packet>, b: seq<Packet>)
    requires a != [] && b != [] && a[0].startMs == b[0].startMs && a[0].sampleRate == b[0].sampleRate
    requires SamplesOf(a) == SamplesOf(b)
    requires OneSound(LogOf(one.log, name), a) && OneSound(LogOf(other.log, name), b)
    requires Sound(cfg, one) && Sound(cfg, other) && one.capture == other.capture
    ensures OfSource(one.emitted, name) == OfSource(other.emitted, name)
  {
    OneSoundIsOneSegment(LogOf(one.log, name), a);
    OneSoundIsOneSegment(LogOf(other.log, name), b);
    ToldEmits(cfg, one, name);
    ToldEmits(cfg, other, name);
    hide Sound, OneSound;
    SameEmission(cfg, one.capture, name, Last(Told(LogOf(one.log, name))), Last(Told(LogOf(other.log, name))));
  }

  /** The number of the last packet does not show in the chunks. */
  lemma {:induction false} SameEmission(cfg: Config, captureID: string, name: string, g: Segment, h: Segment)
    requires cfg.Legal() && h == g.(sequence := h.sequence)
    ensures Emissions(cfg, captureID, name, [g]) == Emissions(cfg, captureID, name, [h])
  {
    EmissionIgnoresNumber(cfg, captureID, name, g, h);
    hide Emission, Emissions;
    assert [g] == [] + [g] && [h] == [] + [h];
    EmissionsSnoc(cfg, captureID, name, [], g);
    EmissionsSnoc(cfg, captureID, name, [], h);
  }

  lemma {:induction false} EmissionIgnoresNumber(cfg: Config, captureID: string, name: string, g: Segment, h: Segment)
    requires cfg.Legal() && h == g.(sequence := h.sequence)
    ensures Emission(cfg, captureID, name, g) == Emission(cfg, captureID, name, h)
  {
    assert g.Output(cfg) == h.Output(cfg);
    hide Cuts, Segment.Output;
  }

  /** What a source's chunks are, from its log alone. */
  lemma ToldEmits(cfg: Config, st: State, name: string)
    requires Sound(cfg, st) && LogOf(st.log, name) != []
    ensures OfSource(st.emitted, name) == Emissions(cfg, st.capture, name, Told(LogOf(st.log, name)))
  {
    SoundLogged(cfg, st);
    hide Fits, Queued, Recorded, Replayable, Logged, Reported, Quiet, Emissions, OfSource, Spaced, Told, Over;
  }

  // ---- replays ------------------------------------------------------------------

  /** Sending an accepted packet again is harmless: it is known, and nothing changes. */
  lemma ReplayIsDuplicate(cfg: Config, st: State, p: Packet)
    requires Sound(cfg, st) && !st.closed && (st.captureID.Some? ==> st.captureID == Some(p.captureID))
    requires |p.samples| > 0 && Verdict(cfg, st, p) == Returned(false)
    ensures Sound(cfg, WithPacket(cfg, st, p))
    ensures Verdict(cfg, WithPacket(cfg, st, p), p) == Returned(true)
  {
    SoundRecorded(cfg, st);
    AcceptedMeans(cfg, st, p);
    NewestIsRemembered(AcceptedOf(st.accepted, p.source), p);
    hide *;
    PacketSound(cfg, st, p);
    AcceptedIsAppended(cfg, st, p);
    RememberedIsDuplicate(cfg, WithPacket(cfg, st, p), p);
  }

  lemma AcceptedMeans(cfg: Config, st: State, p: Packet)
    requires Sound(cfg, st) && !st.closed && Verdict(cfg, st, p) == Returned(false)
    ensures WellFormed(st.history) && OnTime(st, p)
    ensures (forall name :: name in st.order ==> name in st.history) && Room(cfg, st, p)
  {
    SoundRecorded(cfg, st);
    VerdictMeans(cfg, st, p);
    SoundReplayable(cfg, st, p.source);
    hide Sound, Room, Verdict, Recorded, Represents, TooEarly, WellFormed;
    if p.source in st.history {
      UnansweredIsNew(st.replays[p.source], st.accepted[p.source], st.history[p.source], p);
    }
  }

  /** A packet is accepted when no test along the way has an answer for it. */
  lemma VerdictMeans(cfg: Config, st: State, p: Packet)
    requires Sound(cfg, st) && Verdict(cfg, st, p) == Returned(false)
    requires WellFormed(st.history) && forall name :: name in st.order ==> name in st.history
    ensures ReplayAnswer(AcceptedOf(st.accepted, p.source), p) == None && Room(cfg, st, p)
    ensures p.source in st.history ==> !TooEarly(Last(st.history[p.source]), p)
  {
    hide Sound, Room, Spare, TooEarly, LastFew, WellFormed, AcceptedOf;
  }

  lemma UnansweredIsNew(recent: seq<Packet>, accepted: seq<Packet>, segments: seq<Segment>, p: Packet)
    requires SourceReplayable(recent, accepted, segments) && ReplayAnswer(accepted, p) == None
    ensures Last(segments).sequence < p.sequence
  {
    hide LastFew, Increasing, SamplesOf, HeardIn;
  }

  lemma AcceptedIsAppended(cfg: Config, st: State, p: Packet)
    requires cfg.Legal()
    ensures AcceptedOf(WithPacket(cfg, st, p).accepted, p.source) == AcceptedOf(st.accepted, p.source) + [p]
  {
    hide Due, Heard, RecordOf, Remember, Joined, RecentOf, NewGaps;
  }

  lemma RememberedIsDuplicate(cfg: Config, st: State, p: Packet)
    requires Sound(cfg, st) && p in LastFew(AcceptedOf(st.accepted, p.source))
    ensures Verdict(cfg, st, p) == Returned(true)
  {
    hide Sound, Spare, Room, TooEarly, LastFew, PressAnswer;
  }

  lemma NewestIsRemembered(accepted: seq<Packet>, p: Packet)
    ensures p in LastFew(accepted + [p])
  {
    assert Last(LastFew(accepted + [p])) == p;
  }

  /** The packet is one of the last 256 taken. */
  ghost predicate IsRecent(taken: seq<Packet>, p: Packet) {
    exists i :: 0 <= i < |taken| && |taken| - 256 <= i && taken[i] == p
  }

  ghost predicate IsRecentNumber(taken: seq<Packet>, sequence: nat) {
    exists i :: 0 <= i < |taken| && |taken| - 256 <= i && taken[i].sequence == sequence
  }

  /** How a packet whose number is not new is answered: one of the last 256 again is a duplicate, one
      of their numbers with anything else is refused, and so is an older number. */
  lemma OldNumbersAre(cfg: Config, st: State, p: Packet)
    requires Sound(cfg, st)
    ensures var taken := Taken(LogOf(st.log, p.source));
            && (Verdict(cfg, st, p) == Returned(true) <==> IsRecent(taken, p))
            && (Verdict(cfg, st, p) == Threw(ChangedDuplicate)
                <==> taken != [] && p.sequence <= Last(taken).sequence
                     && !IsRecent(taken, p) && IsRecentNumber(taken, p.sequence))
            && (Verdict(cfg, st, p) == Threw(ReplayExpired)
                <==> taken != [] && p.sequence <= Last(taken).sequence && !IsRecentNumber(taken, p.sequence))
  {
    LoggedTaken(cfg, st, p.source);
    ReplayAnswers(AcceptedOf(st.accepted, p.source), p);
    VerdictReplays(cfg, st, p);
    hide *;
  }

  lemma LoggedTaken(cfg: Config, st: State, name: string)
    requires Sound(cfg, st)
    ensures AcceptedOf(st.accepted, name) == Taken(LogOf(st.log, name))
  {
    SoundParts(cfg, st);
    hide Sound, Told, Recorded, Fits, Queued, Phased, Reported, Faithful, Spaced, WellFormed;
    LoggedAccepted(st.log, st.accepted, st.history, name);
  }

  lemma LoggedAccepted(log: Log, accepted: Accepted, history: History, name: string)
    requires Logged(log, accepted, history)
    ensures AcceptedOf(accepted, name) == Taken(LogOf(log, name))
  {
    hide Told;
  }

  lemma VerdictReplays(cfg: Config, st: State, p: Packet)
    requires Sound(cfg, st)
    ensures var answer := ReplayAnswer(AcceptedOf(st.accepted, p.source), p);
            && answer in {None, Some(Returned(true)), Some(Threw(ChangedDuplicate)), Some(Threw(ReplayExpired))}
            && (answer.Some? ==> Verdict(cfg, st, p) == answer.value)
            && (answer.None? ==> Verdict(cfg, st, p) !in
                                   {Returned(true), Threw(ChangedDuplicate), Threw(ReplayExpired)})
  {
    PressAnswers(cfg, st, p);
    ReplayIsAbout(AcceptedOf(st.accepted, p.source), p);
    hide Sound, Room, PressAnswer, ReplayAnswer, WellFormed, AcceptedOf;
  }

  lemma PressAnswers(cfg: Config, st: State, p: Packet)
    requires Sound(cfg, st)
    ensures PressAnswer(cfg, st, p) in {None, Some(InferenceFailed), Some(Backpressure), Some(ClockRegressed)}
  {
    SoundRecorded(cfg, st);
    hide Sound, Spare, TooEarly, WellFormed;
  }

  lemma {:induction false} ReplayIsAbout(taken: seq<Packet>, p: Packet)
    ensures ReplayAnswer(taken, p) in
              {None, Some(Returned(true)), Some(Threw(ChangedDuplicate)), Some(Threw(ReplayExpired))}
  {
    hide LastFew;
  }

  lemma {:induction false} ReplayAnswers(taken: seq<Packet>, p: Packet)
    ensures ReplayAnswer(taken, p) == Some(Returned(true)) <==> IsRecent(taken, p)
    ensures ReplayAnswer(taken, p) == Some(Threw(ChangedDuplicate))
            <==> taken != [] && p.sequence <= Last(taken).sequence
                 && !IsRecent(taken, p) && IsRecentNumber(taken, p.sequence)
    ensures ReplayAnswer(taken, p) == Some(Threw(ReplayExpired))
            <==> taken != [] && p.sequence <= Last(taken).sequence && !IsRecentNumber(taken, p.sequence)
  {
    var few := LastFew(taken);
    var k := |taken| - |few|;
    assert forall i :: 0 <= i < |few| ==> few[i] == taken[k + i];
    assert IsRecent(taken, p) <==> p in few by {
      if i :| 0 <= i < |taken| && |taken| - 256 <= i && taken[i] == p {
        assert few[i - k] == p;
      }
    }
    assert IsRecentNumber(taken, p.sequence) <==> exists q :: q in few && q.sequence == p.sequence by {
      if i :| 0 <= i < |taken| && |taken| - 256 <= i && taken[i].sequence == p.sequence {
        assert few[i - k] in few;
      }
    }
    if IsRecent(taken, p) {
      assert IsRecentNumber(taken, p.sequence);
    }
    hide IsRecent, IsRecentNumber, LastFew;
  }

  // ---- which packets are taken -----------------------------------------------------

  /** With the packet, the capacity would hold, and would after `flush`. */
  ghost predicate RoomWith(cfg: Config, st: State, p: Packet)
    requires cfg.Legal()
  {
    var next := WithPacket(cfg, st, p);
    && WellFormed(next.history)
    && (forall name :: name in next.order ==> name in next.sources && name in next.history)
    && WithinCapacity(cfg, next)
  }

  /** Exactly which packets are taken: nothing has failed, the packet comes later than all its source
      sent, and the capacity holds with its samples, with the chunks they make due, and once
      everything is finalized. */
  lemma TakenExactly(cfg: Config, st: State, p: Packet)
    requires Sound(cfg, st) && !st.closed
    ensures cfg.Legal() && forall name :: name in st.order ==> name in st.sources
    ensures Verdict(cfg, st, p) == Returned(false) <==>
              && st.error.None? && IsLater(LogOf(st.log, p.source), p)
              && BufferedSeconds(cfg, st.order, st.sources, st.pending)
                 + |p.samples| as real / p.sampleRate as real <= cfg.capacity + 0.000000001
              && RoomWith(cfg, st, p)
  {
    SoundRecorded(cfg, st);
    RecordedIsRecords(cfg, st.order, st.sources, st.history);
    RoomIs(cfg, st, p);
    LaterIs(cfg, st, p);
    SpareIs(cfg, st, p);
    VerdictIs(cfg, st, p);
    hide Sound, Room, RoomWith, Recorded, Represents, TooEarly, WellFormed, IsLater, BufferedSeconds, Verdict, Spare,
         ReplayAnswer;
  }

  lemma VerdictIs(cfg: Config, st: State, p: Packet)
    requires Sound(cfg, st)
    requires cfg.Legal() && WellFormed(st.history) && forall name :: name in st.order ==> name in st.history
    requires forall name :: name in st.history ==> st.history[name] != []
    ensures Verdict(cfg, st, p) == Returned(false) <==>
              && ReplayAnswer(AcceptedOf(st.accepted, p.source), p) == None
              && st.error.None? && Spare(cfg, st, p)
              && (p.source in st.history ==> !TooEarly(Last(st.history[p.source]), p))
              && Room(cfg, st, p)
  {
    hide Sound, Room, Spare, TooEarly, LastFew, WellFormed, AcceptedOf;
  }

  lemma SpareIs(cfg: Config, st: State, p: Packet)
    requires cfg.Legal() && WellFormed(st.history) && Recorded(cfg, st.order, st.sources, st.history)
    requires forall name :: name in st.order ==> name in st.history
    ensures forall name :: name in st.order ==> name in st.sources
    ensures Spare(cfg, st, p) <==>
              BufferedSeconds(cfg, st.order, st.sources, st.pending)
              + |p.samples| as real / p.sampleRate as real <= cfg.capacity + 0.000000001
  {
    RecordedIsRecords(cfg, st.order, st.sources, st.history);
    hide BufferedSeconds, Records, WellFormed, Represents;
  }

  lemma RoomIs(cfg: Config, st: State, p: Packet)
    requires cfg.Legal() && WellFormed(st.history) && Recorded(cfg, st.order, st.sources, st.history)
    requires forall name :: name in st.order ==> name in st.history
    ensures Room(cfg, st, p) <==> RoomWith(cfg, st, p)
  {
    hide *;
    PacketRecorded(cfg, st, p);
    RoomFits(cfg, st, p);
    FitsIs(cfg, WithPacket(cfg, st, p));
    RoomWithMeans(cfg, st, p);
  }

  lemma RoomFits(cfg: Config, st: State, p: Packet)
    requires cfg.Legal() && WellFormed(st.history) && Recorded(cfg, st.order, st.sources, st.history)
    requires forall name :: name in st.order ==> name in st.history
    ensures var next := WithPacket(cfg, st, p);
            && WellFormed(next.history) && (forall name :: name in next.order ==> name in next.history)
            && (Room(cfg, st, p) <==> Fits(cfg, next.capture, next.order, next.history, next.pending))
  {
    PacketRecorded(cfg, st, p);
    RecordedNames(cfg, WithPacket(cfg, st, p).order, WithPacket(cfg, st, p).sources, WithPacket(cfg, st, p).history);
    hide Represents, Heard, Due, RecordOf, Remember, Recorded, WellFormed, NewGaps, Joined, Fits;
  }

  lemma RoomWithMeans(cfg: Config, st: State, p: Packet)
    requires cfg.Legal()
    ensures var next := WithPacket(cfg, st, p);
            RoomWith(cfg, st, p) <==>
              && WellFormed(next.history)
              && (forall name :: name in next.order ==> name in next.sources && name in next.history)
              && WithinCapacity(cfg, next)
  {
    hide WellFormed, WithinCapacity, WithPacket;
  }

  lemma FitsIs(cfg: Config, st: State)
    requires cfg.Legal() && WellFormed(st.history) && Recorded(cfg, st.order, st.sources, st.history)
    ensures forall name :: name in st.order ==> name in st.sources && name in st.history
    ensures Fits(cfg, st.capture, st.order, st.history, st.pending) <==> WithinCapacity(cfg, st)
  {
    RecordedNames(cfg, st.order, st.sources, st.history);
    RecordedIsRecords(cfg, st.order, st.sources, st.history);
    hide BufferedSeconds, Records, Represents, Recorded, OwedAll, CloseAll, EndAll, PendingLoad, WellFormed;
  }

  lemma RecordedNames(cfg: Config, order: seq<string>, sources: map<string, Source>, history: History)
    requires cfg.Legal() && WellFormed(history) && Recorded(cfg, order, sources, history)
    ensures forall name :: name in order ==> name in sources && name in history
  {
    hide Represents;
  }

  lemma LaterIs(cfg: Config, st: State, p: Packet)
    requires Sound(cfg, st) && !st.closed
    ensures IsLater(LogOf(st.log, p.source), p)
            <==> && ReplayAnswer(AcceptedOf(st.accepted, p.source), p) == None
                 && (p.source in st.history ==>
                       st.history[p.source] != [] && !TooEarly(Last(st.history[p.source]), p))
  {
    SoundRecorded(cfg, st);
    SoundLogged(cfg, st);
    hide Sound, Told, Taken, Represents, Recorded, WellFormed, TooEarly, IsLater, LastFew;
    LaterThan(LogOf(st.log, p.source), p);
    if p.source in st.history {
      SoundReplayable(cfg, st, p.source);
      SoundIncreasing(cfg, st);
      NewIsBehind(st.accepted[p.source], p);
      LastTaken(st.log[p.source]);
    }
  }

  /** A number behind the last one taken is none of those remembered. */
  lemma {:induction false} NewIsBehind(packets: seq<Packet>, p: Packet)
    requires Increasing(packets) && packets != []
    ensures ReplayAnswer(packets, p) == None <==> Last(packets).sequence < p.sequence
  {
    if p in LastFew(packets) {
      assert p in packets;
    }
  }

  // ---- chunk ids ---------------------------------------------------------------

  ghost predicate DistinctIds(chunks: seq<Pending>) {
    forall i, j :: 0 <= i < j < |chunks| ==> chunks[i].chunk.id != chunks[j].chunk.id
  }

  /** Ids of one segment share its origin and have increasing offsets. */
  lemma EmissionIds(cfg: Config, captureID: string, name: string, g: Segment)
    requires cfg.Legal()
    ensures var chunks := Emission(cfg, captureID, name, g);
            && DistinctIds(chunks)
            && forall i :: 0 <= i < |chunks| ==>
                 && chunks[i].chunk.id.originMs == g.originMs
                 && chunks[i].chunk.id.source == chunks[i].chunk.source == name
  {
    var chunks, output, w := Emission(cfg, captureID, name, g), g.Output(cfg), cfg.windows;
    var spans := w.Spans(|output|, g.closed);
    hide Ms, Seconds, Cuts, w.FullCount;
    forall i | 0 <= i < |chunks|
      ensures chunks[i].chunk.id == ChunkId(captureID, name, g.originMs, w.Start(i))
      ensures chunks[i].chunk.source == name
    {
      CutsAt(cfg, captureID, name, g.originMs, output, g.closed, 0, i);
      SpanFits(w, |output|, g.closed, i);
    }
    forall i, j | 0 <= i < j < |chunks|
      ensures w.Start(i) < w.Start(j)
    {
      MulMonotone(i + 1, j, w.Stride());
      w.StartStep(i);
    }
  }

  /** Later segments start later. */
  lemma {:induction false} OriginsIncrease(segments: seq<Segment>, i: nat, j: nat)
    requires SpacedOut(segments) && i < j < |segments|
    ensures segments[i].originMs < segments[j].originMs
    decreases j
  {
    assert segments[j - 1 + 1].originMs >= segments[j - 1].EndMs() - Slack(segments[j - 1].inputRate);
    HalfSampleIsShort(|segments[j - 1].heard|, segments[j - 1].inputRate);
    if i < j - 1 {
      OriginsIncrease(segments, i, j - 1);
    }
  }

  lemma HalfSampleIsShort(n: nat, rate: Rate)
    requires n > 0
    ensures Ms(n, rate) > Slack(rate)
  {
    var r := rate as real;
    assert (n as real) * 1000.0 >= 1000.0;
    QuotientGrows(500.0, (n as real) * 1000.0, r);
  }

  lemma QuotientGrows(a: real, b: real, r: real)
    requires a < b && r > 0.0
    ensures a / r < b / r
  {
  }

  /** Each id carries the source of its chunk and the origin of some segment. */
  ghost predicate IdsFrom(chunks: seq<Pending>, segments: seq<Segment>) {
    forall i :: 0 <= i < |chunks| ==>
      && chunks[i].chunk.id.source == chunks[i].chunk.source
      && exists k :: 0 <= k < |segments| && chunks[i].chunk.id.originMs == segments[k].originMs
  }

  lemma {:induction false} EmissionsIds(cfg: Config, captureID: string, name: string, segments: seq<Segment>)
    requires cfg.Legal() && SpacedOut(segments)
    ensures DistinctIds(Emissions(cfg, captureID, name, segments))
    ensures IdsFrom(Emissions(cfg, captureID, name, segments), segments)
  {
    if segments != [] {
      var front, g := segments[..|segments| - 1], Last(segments);
      SpacedOutFront(segments);
      EmissionsIds(cfg, captureID, name, front);
      EmissionIds(cfg, captureID, name, g);
      EmissionsSnoc(cfg, captureID, name, front, g);
      assert segments == front + [g];
      hide Emissions, Emission, SpacedOut, DistinctIds;
      forall k | 0 <= k < |front|
        ensures front[k].originMs < g.originMs
      {
        OriginsIncrease(segments, k, |segments| - 1);
      }
      DistinctJoin(Emissions(cfg, captureID, name, front), Emission(cfg, captureID, name, g), g.originMs);
      IdsJoin(Emissions(cfg, captureID, name, front), Emission(cfg, captureID, name, g), front, g);
    }
  }

  lemma IdsJoin(a: seq<Pending>, b: seq<Pending>, front: seq<Segment>, g: Segment)
    requires IdsFrom(a, front)
    requires forall i :: 0 <= i < |b| ==>
               b[i].chunk.id.source == b[i].chunk.source && b[i].chunk.id.originMs == g.originMs
    ensures IdsFrom(a + b, front + [g])
  {
    var all, segments := a + b, front + [g];
    forall i | 0 <= i < |all|
      ensures all[i].chunk.id.source == all[i].chunk.source
      ensures exists k :: 0 <= k < |segments| && all[i].chunk.id.originMs == segments[k].originMs
    {
      if i < |a| {
        var k :| 0 <= k < |front| && a[i].chunk.id.originMs == front[k].originMs;
        assert segments[k] == front[k];
      } else {
        assert all[i] == b[i - |a|] && segments[|front|] == g;
      }
    }
  }

  lemma SpacedOutFront(segments: seq<Segment>)
    requires SpacedOut(segments) && segments != []
    ensures SpacedOut(segments[..|segments| - 1])
  {
    var front := segments[..|segments| - 1];
    forall i | 0 <= i < |front| - 1
      ensures front[i + 1].originMs >= front[i].EndMs() - Slack(front[i].inputRate)
    {
      assert segments[i + 1].originMs >= segments[i].EndMs() - Slack(segments[i].inputRate);
    }
  }

  lemma DistinctJoin(a: seq<Pending>, b: seq<Pending>, originMs: real)
    requires DistinctIds(a) && DistinctIds(b)
    requires forall i :: 0 <= i < |a| ==> a[i].chunk.id.originMs != originMs
    requires forall i :: 0 <= i < |b| ==> b[i].chunk.id.originMs == originMs
    ensures DistinctIds(a + b)
  {
  }

  lemma {:induction false} OfSourceHas(emitted: seq<Pending>, i: nat)
    requires i < |emitted|
    ensures emitted[i] in OfSource(emitted, emitted[i].chunk.source)
  {
    if i < |emitted| - 1 {
      OfSourceHas(emitted[..|emitted| - 1], i);
    }
  }

  /** Distinct within every source is distinct altogether. */
  lemma {:induction false} DistinctAcross(emitted: seq<Pending>)
    requires forall i :: 0 <= i < |emitted| ==> emitted[i].chunk.id.source == emitted[i].chunk.source
    requires forall name {:trigger OfSource(emitted, name)} :: DistinctIds(OfSource(emitted, name))
    ensures DistinctIds(emitted)
  {
    if emitted != [] {
      var front, x := emitted[..|emitted| - 1], Last(emitted);
      forall name
        ensures DistinctIds(OfSource(front, name))
      {
        assert OfSource(front, name) <= OfSource(emitted, name);
      }
      DistinctAcross(front);
      forall i | 0 <= i < |front|
        ensures front[i].chunk.id != x.chunk.id
      {
        if front[i].chunk.source == x.chunk.source {
          OfSourceHas(front, i);
          var own := OfSource(front, x.chunk.source);
          assert OfSource(emitted, x.chunk.source) == own + [x];
          var j :| 0 <= j < |own| && own[j] == front[i];
          assert (own + [x])[j].chunk.id != (own + [x])[|own|].chunk.id;
        }
      }
    }
  }

  /** Over any run, no two chunks get the same id, so none is mistaken for one already done. */
  lemma ChunkIdsAreUnique(cfg: Config, st: State)
    requires Sound(cfg, st)
    ensures DistinctIds(st.emitted)
  {
    hide Fits, Queued, Recorded, Replayable, Logged, Reported, Quiet, Emissions, OfSource;
    forall name
      ensures DistinctIds(OfSource(st.emitted, name))
    {
      if name in st.history {
        EmissionsIds(cfg, st.capture, name, st.history[name]);
      } else {
        OfAbsentSource(st.emitted, name);
      }
    }
    forall i | 0 <= i < |st.emitted|
      ensures st.emitted[i].chunk.id.source == st.emitted[i].chunk.source
    {
      var name := st.emitted[i].chunk.source;
      assert st.emitted[i] in st.emitted;
      OfSourceHas(st.emitted, i);
      EmissionsIds(cfg, st.capture, name, st.history[name]);
    }
    DistinctAcross(st.emitted);
  }

  // ---- whole runs --------------------------------------------------------------

  /** The segments of a source are the ones its packets and flushes call for, they hold every
      accepted sample once and in order, and its chunks are the batch chunks of these segments,
      of which only the last can still grow. */
  ghost predicate SourceIsBatch(cfg: Config, st: State, name: string)
    requires cfg.Legal()
  {
    && name in st.log && name in st.accepted && name in st.history
    && var segments := st.history[name];
       && segments == Told(st.log[name]) && st.accepted[name] == Taken(st.log[name])
       && HeardIn(segments) == SamplesOf(st.accepted[name])
       && Superseded(segments)
       && OfSource(st.emitted, name) == Emissions(cfg, st.capture, name, segments)
  }

  ghost predicate ChunksAreBatches(cfg: Config, st: State)
    requires cfg.Legal()
  {
    && DistinctIds(st.emitted)
    && (forall item :: item in st.emitted ==> item.chunk.source in st.log)
    && (forall name :: name in st.log ==> SourceIsBatch(cfg, st, name))
  }

  /** The chunks fall into one batch for each segment, in order. */
  ghost predicate AreBatches(cfg: Config, segments: seq<Segment>, chunks: seq<Pending>)
    requires cfg.Legal()
  {
    if segments == [] then chunks == []
    else exists n :: 0 <= n <= |chunks|
                     && AreBatches(cfg, segments[..|segments| - 1], chunks[..n])
                     && IsBatch(cfg, Last(segments), chunks[n..])
  }

  /** The output samples that all segments come to. */
  function OutputLength(cfg: Config, segments: seq<Segment>): nat
    requires cfg.Legal()
  {
    if segments == [] then 0
    else OutputLength(cfg, segments[..|segments| - 1]) + |Last(segments).Output(cfg)|
  }

  /** Everything the source ever said has come out: each segment as its batch, with no accepted
      sample missing and no output sample counted twice. */
  ghost predicate SourceIsOut(cfg: Config, st: State, name: string)
    requires cfg.Legal() && name in st.log
  {
    && AreBatches(cfg, Told(st.log[name]), OfSource(st.emitted, name))
    && TotalSeconds(OfSource(st.emitted, name)) == Seconds(OutputLength(cfg, Told(st.log[name])), cfg.rate)
    && HeardIn(Told(st.log[name])) == SamplesOf(Taken(st.log[name]))
  }

  ghost predicate EverythingIsOut(cfg: Config, st: State)
    requires cfg.Legal()
  {
    forall name :: name in st.log ==> SourceIsOut(cfg, st, name)
  }

  /** What was skipped is silent, and with voice detection off nothing is. */
  ghost predicate SkippedRightly(cfg: Config, st: State) {
    forall j :: 0 <= j < |st.journal| ==>
      && st.journal[j].index < |st.emitted|
      && (st.journal[j].step.Skipped? <==> cfg.vad && cfg.silent(st.emitted[st.journal[j].index].chunk.samples))
  }

  /** The consumer saw the chunks in order, each gone after one success or because it is
      silent; what it did not see is still waiting. */
  ghost predicate ConsumedInOrder(cfg: Config, st: State) {
    && InOrder(cfg, st.emitted, st.journal)
    && SkippedRightly(cfg, st)
    && Left(st.journal) + |st.pending| == |st.emitted|
    && st.emitted[Left(st.journal)..] == st.pending
    && st.processedSeconds + TotalSeconds(st.pending) == TotalSeconds(st.emitted)
  }

  /** The capacity holds now, and would hold after `flush`. */
  ghost predicate WithinCapacity(cfg: Config, st: State)
    requires cfg.Legal() && WellFormed(st.history)
    requires forall name :: name in st.order ==> name in st.sources && name in st.history
  {
    && BufferedSeconds(cfg, st.order, st.sources, st.pending) <= cfg.capacity + 0.000000001
    && PendingLoad(cfg, AllFinalized(cfg, st).pending) <= cfg.capacity + 0.000000001
  }

  lemma {:induction false} TotalSecondsSplits(a: seq<Pending>, b: seq<Pending>)
    ensures TotalSeconds(a + b) == TotalSeconds(a) + TotalSeconds(b)
  {
    if b == [] {
      assert a + b == a;
    } else {
      TotalSecondsSplits(a, b[..|b| - 1]);
      assert (a + b)[..|a + b| - 1] == a + b[..|b| - 1];
    }
  }

  lemma SourceIsTold(cfg: Config, st: State, name: string)
    requires Sound(cfg, st) && name in st.log
    ensures cfg.Legal() && SourceIsBatch(cfg, st, name)
  {
    SoundLogged(cfg, st);
    ToldSuperseded(st.log[name]);
    ToldKeepsSamples(st.log[name]);
    hide Fits, Queued, Recorded, Replayable, Logged, Reported, Emissions, OfSource, HeardIn, SamplesOf, Spaced, Told,
         Taken, Over, Superseded, Quiet;
  }

  lemma EmittedIsLogged(cfg: Config, st: State, item: Pending)
    requires Sound(cfg, st) && item in st.emitted
    ensures item.chunk.source in st.log
  {
    SoundLogged(cfg, st);
    hide Fits, Queued, Recorded, Replayable, Logged, Reported, Emissions, OfSource, Spaced, Over, Quiet;
  }

  lemma SoundMeansBatches(cfg: Config, st: State)
    requires Sound(cfg, st)
    ensures cfg.Legal() && ChunksAreBatches(cfg, st)
  {
    ChunkIdsAreUnique(cfg, st);
    SoundRecorded(cfg, st);
    hide Sound, DistinctIds, SourceIsBatch, Recorded, WellFormed, Represents;
    forall name | name in st.log
      ensures SourceIsBatch(cfg, st, name)
    {
      SourceIsTold(cfg, st, name);
    }
    forall item | item in st.emitted
      ensures item.chunk.source in st.log
    {
      EmittedIsLogged(cfg, st, item);
    }
  }

  lemma OneMoreBatch(cfg: Config, front: seq<Segment>, g: Segment, before: seq<Pending>, chunks: seq<Pending>)
    requires cfg.Legal() && AreBatches(cfg, front, before) && IsBatch(cfg, g, chunks)
    ensures AreBatches(cfg, front + [g], before + chunks)
  {
    hide IsBatch;
    var all, n := before + chunks, |before|;
    assert (front + [g])[..|front|] == front && Last(front + [g]) == g;
    assert all[..n] == before && all[n..] == chunks;
  }

  lemma {:induction false} EmissionsAreBatches(cfg: Config, captureID: string, name: string, segments: seq<Segment>)
    requires cfg.Legal() && AllClosed(segments)
    ensures AreBatches(cfg, segments, Emissions(cfg, captureID, name, segments))
  {
    hide IsBatch, Emission;
    if segments != [] {
      var front, g := segments[..|segments| - 1], Last(segments);
      assert segments == front + [g];
      EmissionsAreBatches(cfg, captureID, name, front);
      ClosedSegmentIsBatch(cfg, captureID, name, g);
      EmissionsSnoc(cfg, captureID, name, front, g);
      hide AreBatches, Emissions;
      OneMoreBatch(cfg, front, g, Emissions(cfg, captureID, name, front), Emission(cfg, captureID, name, g));
    }
  }

  lemma {:induction false} EmissionsLast(cfg: Config, captureID: string, name: string, segments: seq<Segment>)
    requires cfg.Legal() && AllClosed(segments)
    ensures TotalSeconds(Emissions(cfg, captureID, name, segments)) == Seconds(OutputLength(cfg, segments), cfg.rate)
  {
    hide Emission, TotalSeconds, Seconds;
    if segments == [] {
      NothingLasts(cfg.rate);
    } else {
      var front, g := segments[..|segments| - 1], Last(segments);
      EmissionsLast(cfg, captureID, name, front);
      BatchLasts(cfg, captureID, name, g);
      TotalSecondsSplits(Emissions(cfg, captureID, name, front), Emission(cfg, captureID, name, g));
      SecondsAdd(OutputLength(cfg, front), |g.Output(cfg)|, cfg.rate);
    }
  }

  lemma NothingLasts(rate: Rate)
    ensures TotalSeconds([]) == 0.0 == Seconds(0, rate)
  {
  }

  lemma BatchLasts(cfg: Config, captureID: string, name: string, g: Segment)
    requires cfg.Legal() && g.closed
    ensures TotalSeconds(Emission(cfg, captureID, name, g)) == Seconds(|g.Output(cfg)|, cfg.rate)
  {
    ClosedSegmentIsBatch(cfg, captureID, name, g);
    hide Emission, TotalSeconds, Seconds, Ms;
  }

  /** Once every source is finalized, everything is out. */
  lemma OverMeansOut(cfg: Config, st: State)
    requires Sound(cfg, st) && Over(st.history)
    ensures cfg.Legal() && EverythingIsOut(cfg, st)
  {
    SoundMeansBatches(cfg, st);
    SoundLogged(cfg, st);
    hide *;
    forall name | name in st.log
      ensures SourceIsOut(cfg, st, name)
    {
      SourceOut(cfg, st, name);
    }
    OutFrom(cfg, st);
  }

  lemma OutFrom(cfg: Config, st: State)
    requires cfg.Legal() && forall name :: name in st.log ==> SourceIsOut(cfg, st, name)
    ensures EverythingIsOut(cfg, st)
  {
    hide SourceIsOut;
  }

  lemma SourceOut(cfg: Config, st: State, name: string)
    requires cfg.Legal() && ChunksAreBatches(cfg, st) && Over(st.history) && name in st.log
    ensures SourceIsOut(cfg, st, name)
  {
    hide DistinctIds;
    assert SourceIsBatch(cfg, st, name);
    hide AreBatches, IsBatch, TotalSeconds, Seconds, Told, Taken, Emissions, OfSource, HeardIn, SamplesOf, OutputLength,
         AllClosed, ChunksAreBatches;
    EmissionsAreBatches(cfg, st.capture, name, st.history[name]);
    EmissionsLast(cfg, st.capture, name, st.history[name]);
  }

  /** After a flush, everything that was ever accepted is out. */
  lemma FlushedIsOut(cfg: Config, st: State)
    requires Sound(cfg, st)
    ensures cfg.Legal() && WellFormed(st.history) && forall name :: name in st.order ==> name in st.history
    ensures Sound(cfg, AllFinalized(cfg, st)) && EverythingIsOut(cfg, AllFinalized(cfg, st))
  {
    SoundRecorded(cfg, st);
    SoundLogged(cfg, st);
    FinalizeSound(cfg, st);
    FinalizedIsEnded(cfg, st);
    hide Sound, EverythingIsOut, AllFinalized;
    OverMeansOut(cfg, AllFinalized(cfg, st));
  }

  lemma FinalizedIsEnded(cfg: Config, st: State)
    requires Sound(cfg, st)
    ensures cfg.Legal() && WellFormed(st.history) && forall name :: name in st.order ==> name in st.history
    ensures Over(AllFinalized(cfg, st).history)
  {
    SoundRecorded(cfg, st);
    SoundLogged(cfg, st);
    hide Sound, Logged, Told, OwedAll, Records, Represents, AllClosed;
    if st.closed {
      ClosedHasNoOrder(cfg, st);
      OverStays(st.history);
    } else {
      forall name | name in st.history
        ensures AllClosed(CloseLast(st.history[name]))
      {
        ToldSuperseded(st.log[name]);
        ClosingTheLast(st.history[name]);
      }
    }
  }

  lemma ClosedHasNoOrder(cfg: Config, st: State)
    requires Sound(cfg, st) && st.closed
    ensures st.order == []
  {
  }

  lemma ClosingTheLast(segments: seq<Segment>)
    requires segments != [] && Superseded(segments)
    ensures AllClosed(CloseLast(segments))
  {
  }

  lemma {:induction false} SkippedInOrder(cfg: Config, emitted: seq<Pending>, journal: seq<Attempt>)
    ensures InOrder(cfg, emitted, journal) ==>
              forall j :: 0 <= j < |journal| ==>
                && journal[j].index < |emitted|
                && (journal[j].step.Skipped? <==> cfg.vad && cfg.silent(emitted[journal[j].index].chunk.samples))
  {
  }

  lemma SoundMeansInOrder(cfg: Config, st: State)
    requires Sound(cfg, st)
    ensures ConsumedInOrder(cfg, st)
  {
    SkippedInOrder(cfg, st.emitted, st.journal);
    hide Fits, Recorded, Replayable, Logged, Reported, Faithful, Spaced, InOrder;
    var gone := st.emitted[..Left(st.journal)];
    assert st.emitted == gone + st.pending;
    TotalSecondsSplits(gone, st.pending);
  }

  lemma SoundMeansWithin(cfg: Config, st: State)
    requires Sound(cfg, st)
    ensures cfg.Legal() && WellFormed(st.history)
    ensures forall name :: name in st.order ==> name in st.sources && name in st.history
    ensures WithinCapacity(cfg, st)
  {
    SoundRecorded(cfg, st);
    RecordedIsRecords(cfg, st.order, st.sources, st.history);
    hide Queued, Replayable, Logged, Reported, Faithful, Spaced, Represents;
  }

  /** No packet of a source was taken twice or out of order, and an open processor remembers the
      last few of each source. */
  ghost predicate ReplaySafe(st: State) {
    && (forall name :: name in st.log ==> Increasing(Taken(st.log[name])))
    && (!st.closed ==> forall name :: name in st.replays <==> name in st.log)
    && (!st.closed ==> forall name :: name in st.log ==>
          name in st.replays && IsLast256(st.replays[name], Taken(st.log[name])))
  }

  /** The last 256 packets, or all. */
  ghost predicate IsLast256(recent: seq<Packet>, taken: seq<Packet>) {
    recent == if |taken| <= 256 then taken else taken[|taken| - 256..]
  }

  lemma SoundMeansReplaySafe(cfg: Config, st: State)
    requires Sound(cfg, st)
    ensures ReplaySafe(st)
  {
    hide *;
    forall name | name in st.log
      ensures Increasing(Taken(st.log[name]))
    {
      TakenIncreases(cfg, st, name);
    }
    forall name | !st.closed
      ensures name in st.replays <==> name in st.log
      ensures name in st.log ==> name in st.replays && st.replays[name] == LastFew(Taken(st.log[name]))
    {
      SourceRemembered(cfg, st, name);
    }
    RememberedFrom(st);
  }

  lemma RememberedFrom(st: State)
    requires forall name :: name in st.log ==> Increasing(Taken(st.log[name]))
    requires !st.closed ==> forall name :: name in st.replays <==> name in st.log
    requires !st.closed ==> forall name :: name in st.log ==>
               name in st.replays && st.replays[name] == LastFew(Taken(st.log[name]))
    ensures ReplaySafe(st)
  {
    hide Increasing, Taken;
  }

  lemma TakenIncreases(cfg: Config, st: State, name: string)
    requires Sound(cfg, st) && name in st.log
    ensures Increasing(Taken(st.log[name]))
  {
    SoundLogged(cfg, st);
    SoundIncreasing(cfg, st);
    hide Sound, Increasing, Taken, Told;
  }

  lemma SourceRemembered(cfg: Config, st: State, name: string)
    requires Sound(cfg, st) && !st.closed
    ensures name in st.replays <==> name in st.log
    ensures name in st.log ==> name in st.replays && st.replays[name] == LastFew(Taken(st.log[name]))
  {
    SoundRecorded(cfg, st);
    SoundLogged(cfg, st);
    SoundReplayable(cfg, st, name);
    hide Sound, Logged, Increasing, LastFew, Taken, Told, WellFormed, Represents, Recorded;
  }

  /** The segments of every source are cut exactly where its packets do not join, and exactly those
      of its later packets that do not follow are reported as gaps. */
  ghost predicate CutAtGaps(st: State) {
    && (forall name :: name in st.log ==> name in st.history && CutRightly(st.log[name], st.history[name]))
    && (forall name :: name in st.log ==> GapsOf(st.gaps, name) == Reports(name, Breaks(st.log[name])))
    && (forall name :: name !in st.log ==> GapsOf(st.gaps, name) == [])
  }

  lemma SoundMeansCutAtGaps(cfg: Config, st: State)
    requires Sound(cfg, st)
    ensures CutAtGaps(st)
  {
    hide *;
    forall name | name in st.log
      ensures name in st.history && CutRightly(st.log[name], st.history[name])
    {
      SourceIsCut(cfg, st, name);
    }
    SoundReported(cfg, st);
    ReportedMeans(st.gaps, st.log);
    CutAtGapsFrom(st);
  }

  lemma SourceIsCut(cfg: Config, st: State, name: string)
    requires Sound(cfg, st) && name in st.log
    ensures name in st.history && CutRightly(st.log[name], st.history[name])
  {
    SoundLogged(cfg, st);
    hide Sound, Logged, Told, CutRightly, Over;
    ToldIsCutRightly(st.log[name]);
  }

  lemma ReportedMeans(gaps: seq<Gap>, log: Log)
    requires Reported(gaps, log)
    ensures forall name :: name in log ==> GapsOf(gaps, name) == Reports(name, Breaks(log[name]))
    ensures forall name :: name !in log ==> GapsOf(gaps, name) == []
  {
    NothingBreaks();
    hide GapsOf, Breaks, Reports;
    assert forall name :: name in log ==> LogOf(log, name) == log[name];
    assert forall name :: name !in log ==> LogOf(log, name) == [];
  }

  lemma NothingBreaks()
    ensures Breaks([]) == [] && forall name :: Reports(name, []) == []
  {
  }

  lemma CutAtGapsFrom(st: State)
    requires forall name :: name in st.log ==> name in st.history && CutRightly(st.log[name], st.history[name])
    requires forall name :: name in st.log ==> GapsOf(st.gaps, name) == Reports(name, Breaks(st.log[name]))
    requires forall name :: name !in st.log ==> GapsOf(st.gaps, name) == []
    ensures CutAtGaps(st)
  {
    hide CutRightly, GapsOf, Breaks, Reports;
  }

  lemma SoundReported(cfg: Config, st: State)
    requires Sound(cfg, st)
    ensures Reported(st.gaps, st.log)
  {
    hide Fits, Queued, Faithful, Replayable, Quiet, Represents, Spaced, Recorded, Over, Logged, Reported;
  }

  /** One event.  Until it fails, a loop that is not over comes to every chunk; and a closed
      processor without one comes to none. */
  method Handle(p: AudioProcessor, event: Event)
    requires p.Valid()
    modifies p
    ensures p.Valid()
    ensures old(p.running.Awaiting?) && !event.ChunkFailed? && p.pending != [] ==> p.running.Awaiting?
    ensures old(p.closed && !p.running.Awaiting?) ==>
              && p.closed && !p.running.Awaiting?
              && p.pending == old(p.pending) && p.processedSeconds == old(p.processedSeconds)
  {
    hide Sound;
    match event
    case Accept(input) => var _ := p.Accept(input);
    case Drain(retry) => var _ := p.Drain(retry);
    case ChunkFailed(reason) => if p.running.Awaiting? { p.ChunkFailed(reason); }
    case ChunkDone => if p.running.Awaiting? { p.ChunkDone(); }
    case Cleared => if p.running.Settling? { p.Cleared(); }
    case Finalize =>
      if p.closed {
        ClosedFinalizesNothing(p.cfg, p.View());
      }
      p.Finalize();
    case BeginClose => p.BeginClose();
    case EndClose => if p.closing && forall name :: name in p.sources ==> p.sources[name].finalized { p.EndClose(); }
  }

  lemma ClosedFinalizesNothing(cfg: Config, st: State)
    requires Sound(cfg, st) && st.closed
    ensures cfg.Legal() && WellFormed(st.history) && (forall name :: name in st.order ==> name in st.history)
    ensures AllFinalized(cfg, st).pending == st.pending
  {
    SoundRecorded(cfg, st);
    ClosedHasNoOrder(cfg, st);
    assert st.pending + [] == st.pending;
  }

  /** Any interleaving of packets, drains, callback outcomes, flushes and closing keeps the five
      guarantees, and once closed, everything that was accepted has come out.  An event that
      cannot happen in the current state is ignored. */
  method Run(p: AudioProcessor, events: seq<Event>)
    requires p.Valid()
    modifies p
    ensures p.Valid()
    ensures ChunksAreBatches(p.cfg, p.View()) && ConsumedInOrder(p.cfg, p.View()) && WithinCapacity(p.cfg, p.View())
    ensures ReplaySafe(p.View()) && CutAtGaps(p.View())
    ensures p.closed ==> EverythingIsOut(p.cfg, p.View())
  {
    hide Sound;
    for i := 0 to |events|
      invariant p.Valid()
    {
      Handle(p, events[i]);
    }
    SoundMeansBatches(p.cfg, p.View());
    SoundMeansReplaySafe(p.cfg, p.View());
    SoundMeansCutAtGaps(p.cfg, p.View());
    SoundMeansInOrder(p.cfg, p.View());
    SoundMeansWithin(p.cfg, p.View());
    SoundLogged(p.cfg, p.View());
    if p.closed {
      OverMeansOut(p.cfg, p.View());
    }
  }
}
