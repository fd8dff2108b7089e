/** The worklet's frames, fed in order into the audio processor. */
module Pipeline {
  import opened Wrappers
  import opened Resampling
  import opened Windowing
  import opened Segments
  import opened Streaming
  import opened AudioHistory
  import opened Admission
  import opened AudioLog
  import opened AudioGaps
  import opened AudioState
  import opened Audio
  import opened AudioTheorems
  import opened Worklet

  /** Numbered frames adjoin exactly, so however many there are they are one segment that
      starts at 0 and holds the captured samples. */
  lemma CapturedIsOneSegment(source: string, rate: Rate, frames: seq<Packet>, n: nat)
    requires Numbered(source, rate, frames) && 0 < n <= |frames|
    ensures HeardAll([], frames[..n]) == [Segment(0.0, rate, SamplesOf(frames[..n]), n - 1, false)]
  {
    var some := frames[..n];
    ZeroMs(rate);
    assert some[..0] == [];
    forall i | 0 < i < |some|
      ensures Adjoins(some[0], some[..i], some[i])
    {
      assert some[..i] == frames[..i];
      NumberedAdjoins(source, rate, frames, i);
    }
    assert frames[..0] == [];
    ContiguousIsOneSegment(some);
  }

  lemma ZeroMs(rate: Rate)
    ensures Ms(0, rate) == 0.0 && Slack(rate) > 0.0
  {
  }

  lemma NumberedAdjoins(source: string, rate: Rate, frames: seq<Packet>, i: nat)
    requires Numbered(source, rate, frames) && 0 < i < |frames|
    ensures Adjoins(frames[0], frames[..i], frames[i])
  {
    hide Ms, Slack;
    ZeroMs(rate);
    assert frames[..0] == [];
    assert Last(frames[..i]) == frames[i - 1];
  }

  /** The segments of a source that has heard the first `n` frames. */
  function Captured(rate: Rate, frames: seq<Packet>, n: nat): seq<Segment>
    requires n <= |frames|
  {
    if n == 0 then [] else [Segment(0.0, rate, SamplesOf(frames[..n]), n - 1, false)]
  }

  /** The source has heard exactly the first `n` frames, as one open segment. */
  ghost predicate Caught(st: State, source: string, rate: Rate, frames: seq<Packet>, n: nat)
    requires n <= |frames|
  {
    && SegmentsOf(st.history, source) == Captured(rate, frames, n)
    && AcceptedOf(st.accepted, source) == frames[..n]
  }

  lemma NextIsNew(source: string, rate: Rate, frames: seq<Packet>, n: nat)
    requires Numbered(source, rate, frames) && 0 < n < |frames|
    ensures frames[n] !in frames[..n] && Last(frames[..n]).sequence < frames[n].sequence
    ensures !Discontinuous(Segment(0.0, rate, SamplesOf(frames[..n]), n - 1, false), frames[n])
    ensures !TooEarly(Segment(0.0, rate, SamplesOf(frames[..n]), n - 1, false), frames[n])
  {
    hide Ms, Slack;
    ZeroMs(rate);
  }

  lemma HeardNext(source: string, rate: Rate, frames: seq<Packet>, n: nat)
    requires Numbered(source, rate, frames) && n < |frames|
    ensures Heard(Captured(rate, frames, n), frames[n]) == Captured(rate, frames, n + 1)
  {
    CapturedIsOneSegment(source, rate, frames, n + 1);
    assert frames[..n + 1][..n] == frames[..n] && Last(frames[..n + 1]) == frames[n];
    if n > 0 {
      CapturedIsOneSegment(source, rate, frames, n);
    }
  }

  lemma NoGapNext(st: State, source: string, rate: Rate, frames: seq<Packet>, n: nat)
    requires Numbered(source, rate, frames) && n < |frames| && Caught(st, source, rate, frames, n)
    ensures NewGaps(st, frames[n]) == []
  {
    hide Discontinuous, SamplesOf;
    if n > 0 {
      NextIsNew(source, rate, frames, n);
    }
  }

  lemma AfterPacket(cfg: Config, st: State, p: Packet)
    requires cfg.Legal()
    ensures var next := WithPacket(cfg, st, p);
            && SegmentsOf(next.history, p.source) == Heard(SegmentsOf(st.history, p.source), p)
            && AcceptedOf(next.accepted, p.source) == AcceptedOf(st.accepted, p.source) + [p]
            && next.gaps == st.gaps + NewGaps(st, p) && next.closed == st.closed
  {
    hide Due, RecordOf, Remember, Heard, NewGaps;
  }

  /** Taking the next frame neither opens a segment nor reports a gap. */
  lemma CaughtNext(cfg: Config, st: State, source: string, rate: Rate, frames: seq<Packet>, n: nat)
    requires cfg.Legal() && Numbered(source, rate, frames) && n < |frames| && Caught(st, source, rate, frames, n)
    ensures Caught(WithPacket(cfg, st, frames[n]), source, rate, frames, n + 1)
    ensures WithPacket(cfg, st, frames[n]).gaps == st.gaps && WithPacket(cfg, st, frames[n]).closed == st.closed
  {
    AfterPacket(cfg, st, frames[n]);
    NoGapNext(st, source, rate, frames, n);
    HeardNext(source, rate, frames, n);
    CaughtMeans(st, source, rate, frames, n);
    NumberedIs(source, rate, frames, n);
    hide *;
    CaughtFrom(WithPacket(cfg, st, frames[n]), source, rate, frames, n + 1);
    assert st.gaps + [] == st.gaps;
  }

  lemma NumberedIs(source: string, rate: Rate, frames: seq<Packet>, n: nat)
    requires Numbered(source, rate, frames) && n < |frames|
    ensures frames[n].source == source && frames[..n + 1] == frames[..n] + [frames[n]]
  {
    hide SamplesOf, Ms;
  }

  lemma CaughtMeans(st: State, source: string, rate: Rate, frames: seq<Packet>, n: nat)
    requires n <= |frames| && Caught(st, source, rate, frames, n)
    ensures SegmentsOf(st.history, source) == Captured(rate, frames, n)
    ensures AcceptedOf(st.accepted, source) == frames[..n]
  {
    hide SegmentsOf, AcceptedOf, Captured;
  }

  lemma CaughtFrom(st: State, source: string, rate: Rate, frames: seq<Packet>, n: nat)
    requires n <= |frames|
    requires SegmentsOf(st.history, source) == Captured(rate, frames, n)
    requires AcceptedOf(st.accepted, source) == frames[..n]
    ensures Caught(st, source, rate, frames, n)
  {
    hide SegmentsOf, AcceptedOf, Captured;
  }

  /** The next frame is never taken for a replay or a clock error. */
  lemma CaughtVerdict(cfg: Config, st: State, source: string, rate: Rate, frames: seq<Packet>, n: nat)
    requires Sound(cfg, st) && Numbered(source, rate, frames) && n < |frames| && Caught(st, source, rate, frames, n)
    ensures Verdict(cfg, st, frames[n]) in {Returned(false), Threw(InferenceFailed), Threw(Backpressure)}
  {
    hide Sound, Spare, Room, Discontinuous, TooEarly, SamplesOf;
    SoundRecorded(cfg, st);
    if n > 0 {
      NextIsNew(source, rate, frames, n);
    }
  }

  lemma CaughtThrough(cfg: Config, st: State, source: string, rate: Rate, frames: seq<Packet>, n: nat)
    requires Sound(cfg, st) && 0 < n <= |frames| && Caught(st, source, rate, frames, n) && !st.closed
    ensures source in st.sources && st.sources[source].inputThrough == |SamplesOf(frames[..n])|
  {
    hide Sound, SamplesOf;
    SoundRecorded(cfg, st);
  }

  /** The processor has this answer to the frame. */
  ghost predicate Refuses(cfg: Config, st: State, frame: Packet, error: AudioError)
    requires Sound(cfg, st)
  {
    if st.closing || st.closed then error == ClosedToInput
    else match Validate(st.captureID, ToInput(frame))
      case None => error == InvalidInput
      case Some(p) => Verdict(cfg, st, p) == Threw(error)
  }

  // ---- what may come in between ---------------------------------------------------------

  /** Events that have nothing to do with the source: anything but its own packets and the end
      of the capture. */
  predicate Unrelated(event: Event, source: string) {
    match event
    case Accept(input) => input.source != source
    case Finalize => false
    case EndClose => false
    case _ => true
  }

  /** For this source nothing has changed. */
  ghost predicate Untouched(before: State, after: State, source: string) {
    && SegmentsOf(after.history, source) == SegmentsOf(before.history, source)
    && AcceptedOf(after.accepted, source) == AcceptedOf(before.accepted, source)
    && GapsOf(after.gaps, source) == GapsOf(before.gaps, source)
    && after.closed == before.closed
  }

  /** The capture changes only with a packet, and closing begins only with its event. */
  ghost predicate Besides(before: State, after: State, event: Event) {
    && (after.captureID == before.captureID || (event.Accept? && after.captureID == Some(event.input.captureID)))
    && (after.closing == before.closing || event.BeginClose?)
  }

  /** What is valid and accepted is in. */
  ghost predicate Taken(cfg: Config, before: State, after: State, input: Input)
    requires Sound(cfg, before)
  {
    SoundRecorded(cfg, before);
    var q := Validate(before.captureID, input);
    !(before.closing || before.closed) && q.Some? && Verdict(cfg, before, q.value) == Returned(false) ==>
      after == WithPacket(cfg, before, q.value)
  }

  lemma OtherPacketUntouched(cfg: Config, st: State, p: Packet, source: string)
    requires cfg.Legal() && p.source != source
    ensures Untouched(st, WithPacket(cfg, st, p), source)
  {
    var gap := NewGaps(st, p);
    hide Due, Heard, RecordOf, Remember, Joined, RecentOf, LogOf, NewGaps;
    NewGapsAre(st, p);
    if gap == [] {
      assert st.gaps + gap == st.gaps;
    } else {
      assert (st.gaps + gap)[..|st.gaps|] == st.gaps;
    }
  }

  lemma NewGapsAre(st: State, p: Packet)
    ensures NewGaps(st, p) == [] || (|NewGaps(st, p)| == 1 && NewGaps(st, p)[0].source == p.source)
  {
  }

  lemma ConsumerUntouched(before: State, error: Option<string>, running: Phase, after: State, source: string)
    requires Skips(before.(error := error, running := running), after)
    ensures Untouched(before, after, source)
    ensures Untouched(before.(error := error, running := running), after, source)
    ensures forall event :: Besides(before, after, event)
  {
    hide GapsOf, SegmentsOf, AcceptedOf;
  }

  lemma SameUntouched(st: State, source: string)
    ensures Untouched(st, st, source)
  {
    hide GapsOf, SegmentsOf, AcceptedOf;
  }

  /** The phase and the closing mark are nobody's in particular. */
  lemma FlagsUntouched(st: State, source: string)
    ensures forall running :: Untouched(st, st.(running := running), source)
    ensures forall closing :: Untouched(st, st.(closing := closing), source)
    ensures forall running, event :: Besides(st, st.(running := running), event)
    ensures forall closing :: Besides(st, st.(closing := closing), BeginClose)
    ensures forall event :: Besides(st, st, event)
  {
    hide GapsOf, SegmentsOf, AcceptedOf;
    SameUntouched(st, source);
  }

  lemma UntouchedTwice(a: State, b: State, c: State, source: string)
    requires Untouched(a, b, source) && Untouched(b, c, source)
    ensures Untouched(a, c, source)
  {
    hide GapsOf, SegmentsOf, AcceptedOf;
  }

  lemma UntouchedCaught(before: State, after: State, source: string, rate: Rate, frames: seq<Packet>, n: nat)
    requires n <= |frames| && Caught(before, source, rate, frames, n) && Untouched(before, after, source)
    ensures Caught(after, source, rate, frames, n)
  {
    hide Captured, SegmentsOf, AcceptedOf, GapsOf;
  }

  lemma PacketNames(cfg: Config, st: State)
    requires cfg.Legal()
    ensures forall q :: WithPacket(cfg, st, q).captureID == Some(q.captureID)
                        && WithPacket(cfg, st, q).closing == st.closing && WithPacket(cfg, st, q).closed == st.closed
  {
    hide Due, Heard, RecordOf, Remember, Joined, RecentOf, LogOf, NewGaps;
  }

  /** A packet of another source. */
  method AcceptOther(p: AudioProcessor, input: Input, ghost source: string)
    requires p.Valid() && input.source != source
    modifies p
    ensures p.Valid() && Untouched(old(p.View()), p.View(), source)
    ensures Besides(old(p.View()), p.View(), Accept(input))
    ensures Taken(p.cfg, old(p.View()), p.View(), input)
  {
    ghost var before, q := p.View(), Validate(p.captureID, input);
    SoundRecorded(p.cfg, before);
    SameUntouched(before, source);
    if q.Some? {
      OtherPacketUntouched(p.cfg, before, q.value, source);
      assert q.value.captureID == input.captureID;
    }
    PacketNames(p.cfg, before);
    hide Sound, Validate, WithPacket, Verdict, Untouched;
    var outcome := p.Accept(input);
  }

  /** One such event, or nothing when it cannot happen now. */
  method Meanwhile(p: AudioProcessor, event: Event, ghost source: string)
    requires p.Valid() && Unrelated(event, source)
    modifies p
    ensures p.Valid() && Untouched(old(p.View()), p.View(), source)
    ensures Besides(old(p.View()), p.View(), event)
    ensures event.Accept? ==> Taken(p.cfg, old(p.View()), p.View(), event.input)
    ensures event.Cleared? ==> !p.running.Settling?
    ensures event.BeginClose? ==> p.closing || p.closed
  {
    ghost var before := p.View();
    FlagsUntouched(before, source);
    UnrelatedMeans(event, source);
    hide *;
    match event {
      case Accept(input) =>
        AcceptOther(p, input, source);
      case Drain(retry) =>
        var reply := p.Drain(retry);
        if reply == Started {
          ConsumerUntouched(before, None, before.running, p.View(), source);
        }
      case ChunkFailed(reason) =>
        if p.running.Awaiting? {
          p.ChunkFailed(reason);
          StepUntouched(before, Failed, Settling, Some(reason), source);
        }
      case ChunkDone =>
        if p.running.Awaiting? {
          DoneOther(p, source);
        }
      case Cleared =>
        if p.running.Settling? {
          p.Cleared();
        }
      case BeginClose =>
        p.BeginClose();
    }
  }

  lemma UnrelatedMeans(event: Event, source: string)
    requires Unrelated(event, source)
    ensures !event.Finalize? && !event.EndClose? && (event.Accept? ==> event.input.source != source)
  {
  }

  method DoneOther(p: AudioProcessor, ghost source: string)
    requires p.Valid() && p.running.Awaiting?
    modifies p
    ensures p.Valid() && Untouched(old(p.View()), p.View(), source)
    ensures forall event :: Besides(old(p.View()), p.View(), event)
  {
    ghost var before := p.View();
    hide Sound, Skips, AfterStep, Untouched, Besides;
    p.ChunkDone();
    DoneUntouched(before, p.View(), source);
  }

  lemma DoneUntouched(before: State, after: State, source: string)
    requires before.pending != [] && Skips(AfterStep(before, Consumed).(running := Settling), after)
    ensures Untouched(before, after, source)
    ensures forall event :: Besides(before, after, event)
  {
    var stepped := AfterStep(before, Consumed);
    StepUntouched(before, Consumed, Settling, stepped.error, source);
    ConsumerUntouched(stepped, stepped.error, Settling, after, source);
    SteppedBeside(before, Consumed);
    hide Skips, AfterStep, Untouched;
    UntouchedTwice(before, stepped.(error := stepped.error, running := Settling), after, source);
  }

  lemma SteppedBeside(st: State, step: Step)
    requires st.pending != []
    ensures AfterStep(st, step).captureID == st.captureID && AfterStep(st, step).closing == st.closing
  {
  }

  lemma StepUntouched(st: State, step: Step, running: Phase, error: Option<string>, source: string)
    requires st.pending != []
    ensures Untouched(st, AfterStep(st, step).(error := error, running := running), source)
    ensures AfterStep(st, step).(running := running, error := error)
            == AfterStep(st, step).(error := error, running := running)
    ensures AfterStep(st, step).(running := running)
            == AfterStep(st, step).(error := AfterStep(st, step).error, running := running)
    ensures forall event :: Besides(st, AfterStep(st, step).(error := error, running := running), event)
  {
    hide GapsOf, SegmentsOf, AcceptedOf;
  }

  // ---- from the worklet to the processor ---------------------------------------------------

  /** The next frame is offered (again), or something else happens. */
  datatype Turn = Offer | Other(event: Event)

  function Offers(turns: seq<Turn>): nat {
    if turns == [] then 0 else Offers(turns[..|turns| - 1]) + if Last(turns).Offer? then 1 else 0
  }

  predicate AllUnrelated(turns: seq<Turn>, source: string) {
    forall i :: 0 <= i < |turns| && turns[i].Other? ==> Unrelated(turns[i].event, source)
  }

  /** The processor has heard nothing of another capture. */
  predicate Ours(current: Option<string>, captureID: string) {
    current.None? || current == Some(captureID)
  }

  lemma OursIs(current: Option<string>, captureID: string)
    ensures Ours(current, captureID) <==> current in {None, Some(captureID)}
  {
  }

  /** Whatever else is offered belongs to the same capture. */
  predicate OneCapture(turns: seq<Turn>, captureID: string) {
    forall i :: 0 <= i < |turns| && turns[i].Other? && turns[i].event.Accept? ==>
      turns[i].event.input.captureID == captureID
  }

  predicate NoClosing(turns: seq<Turn>) {
    forall i :: 0 <= i < |turns| ==> turns[i] != Other(BeginClose)
  }

  predicate AllLegal(frames: seq<Packet>, captureID: string) {
    forall i :: 0 <= i < |frames| ==> LegalPacket(frames[i]) && frames[i].captureID == captureID
  }

  /** A captured frame is never taken for a replay or for one out of time. */
  predicate NeverGap(refusals: seq<AudioError>) {
    forall i :: 0 <= i < |refusals| ==> refusals[i] in {ClosedToInput, InvalidInput, InferenceFailed, Backpressure}
  }

  /** No frame is refused for this reason. */
  predicate Never(error: AudioError, refusals: seq<AudioError>) {
    error !in refusals
  }

  lemma NeverGapJoin(a: seq<AudioError>, b: AudioError)
    requires NeverGap(a) && NeverGap([b])
    ensures NeverGap(a + [b])
    ensures forall error :: Never(error, a) && error != b ==> Never(error, a + [b])
  {
    assert [b][0] == b;
  }

  /** Frames are offered in order, each until it is taken, among anything else.  Every offer
      that is not taken is refused, and no gap is reported. */
  method Deliver(p: AudioProcessor, source: string, rate: Rate, captureID: string, frames: seq<Packet>,
                 turns: seq<Turn>)
    returns (n: nat, refusals: seq<AudioError>)
    requires p.Valid() && Numbered(source, rate, frames) && source !in p.run.history
    requires AllUnrelated(turns, source)
    modifies p
    ensures p.Valid() && n <= |frames| && p.closed == old(p.closed)
    ensures GapsOf(p.reported, source) == GapsOf(old(p.reported), source)
    ensures n == |frames| || n + |refusals| == Offers(turns)
    ensures NeverGap(refusals)
    ensures AllLegal(frames, captureID) && OneCapture(turns, captureID) ==>
              (old(p.captureID) in {None, Some(captureID)} ==> Never(InvalidInput, refusals))
    ensures NoClosing(turns) && !old(p.closing || p.closed) ==> Never(ClosedToInput, refusals)
    ensures Caught(p.View(), source, rate, frames, n)
    ensures 0 < n && !p.closed ==> source in p.sources && p.sources[source].inputThrough == |SamplesOf(frames[..n])|
  {
    hide *;
    OursIs(p.captureID, captureID);
    NothingCaughtYet(p, source, rate, frames);
    n, refusals := 0, [];
    ghost var legal := AllLegal(frames, captureID) && OneCapture(turns, captureID) && Ours(p.captureID, captureID);
    ghost var open := NoClosing(turns) && !p.closing && !p.closed;
    OffersEnd(turns);
    NothingRefused(legal, open, captureID, p.captureID, p.closing || p.closed);
    for i := 0 to |turns|
      invariant p.Valid() && n <= |frames| && p.closed == old(p.closed)
      invariant GapsOf(p.reported, source) == GapsOf(old(p.reported), source)
      invariant n == |frames| || n + |refusals| == Offers(turns[..i])
      invariant Excluded(legal, open, captureID, p.captureID, p.closing || p.closed, refusals)
      invariant Caught(p.View(), source, rate, frames, n)
    {
      OffersNext(turns, i, source, captureID);
      n, refusals := AnyTurn(p, source, rate, captureID, frames, turns[i], n, refusals, legal, open);
    }
    ExcludedMeans(legal, open, captureID, p.captureID, p.closing || p.closed, refusals);
    if 0 < n && !p.closed {
      HeardThrough(p, source, rate, frames, n);
    }
  }

  /** The reasons that are out of the question so far, and why they stay so. */
  ghost predicate Excluded(legal: bool, open: bool, captureID: string, current: Option<string>, over: bool,
                           refusals: seq<AudioError>)
  {
    && NeverGap(refusals)
    && (legal ==> Ours(current, captureID) && Never(InvalidInput, refusals))
    && (open ==> !over && Never(ClosedToInput, refusals))
  }

  lemma NothingRefused(legal: bool, open: bool, captureID: string, current: Option<string>, over: bool)
    requires (legal ==> Ours(current, captureID)) && (open ==> !over)
    ensures Excluded(legal, open, captureID, current, over, [])
  {
  }

  lemma NothingCaughtYet(p: AudioProcessor, source: string, rate: Rate, frames: seq<Packet>)
    requires p.Valid() && source !in p.run.history
    ensures Caught(p.View(), source, rate, frames, 0)
  {
    NothingCaught(p.cfg, p.View(), source, rate, frames);
  }

  lemma ExcludedMeans(legal: bool, open: bool, captureID: string, current: Option<string>, over: bool,
                      refusals: seq<AudioError>)
    requires Excluded(legal, open, captureID, current, over, refusals)
    ensures NeverGap(refusals)
    ensures legal ==> Never(InvalidInput, refusals)
    ensures open ==> Never(ClosedToInput, refusals)
  {
  }

  method AnyTurn(p: AudioProcessor, source: string, rate: Rate, ghost captureID: string, frames: seq<Packet>,
                 turn: Turn, taken: nat, before: seq<AudioError>, ghost legal: bool, ghost open: bool)
    returns (n: nat, refusals: seq<AudioError>)
    requires p.Valid() && Numbered(source, rate, frames) && taken <= |frames|
    requires turn.Other? ==> Unrelated(turn.event, source)
    requires Caught(p.View(), source, rate, frames, taken)
    requires Excluded(legal, open, captureID, p.captureID, p.closing || p.closed, before)
    requires legal ==> AllLegal(frames, captureID) && OneCapture([turn], captureID)
    requires open ==> NoClosing([turn])
    modifies p
    ensures p.Valid() && n <= |frames| && p.closed == old(p.closed)
    ensures GapsOf(p.reported, source) == GapsOf(old(p.reported), source)
    ensures taken == |frames| ==> n == taken
    ensures taken < |frames| ==> n + |refusals| == taken + |before| + if turn.Offer? then 1 else 0
    ensures Excluded(legal, open, captureID, p.captureID, p.closing || p.closed, refusals)
    ensures Caught(p.View(), source, rate, frames, n)
  {
    hide Sound, Caught, Numbered, Unrelated, GapsOf, AllLegal, OneCapture, NoClosing, Ours, NeverGap, Never;
    var refusal: Option<AudioError>;
    n, refusal := TakeTurn(p, source, rate, captureID, frames, turn, taken);
    refusals := before;
    if refusal.Some? {
      NeverGapJoin(before, refusal.value);
      refusals := before + [refusal.value];
    }
  }

  lemma HeardThrough(p: AudioProcessor, source: string, rate: Rate, frames: seq<Packet>, n: nat)
    requires p.Valid() && 0 < n <= |frames| && Caught(p.View(), source, rate, frames, n) && !p.closed
    ensures source in p.sources && p.sources[source].inputThrough == |SamplesOf(frames[..n])|
  {
    hide Sound, Caught, SamplesOf;
    CaughtThrough(p.cfg, p.View(), source, rate, frames, n);
  }

  lemma OffersEnd(turns: seq<Turn>)
    ensures Offers(turns[..0]) == 0 && turns[..|turns|] == turns
  {
  }

  lemma OffersNext(turns: seq<Turn>, i: nat, source: string, captureID: string)
    requires i < |turns| && AllUnrelated(turns, source)
    ensures OneCapture(turns, captureID) ==> OneCapture([turns[i]], captureID)
    ensures NoClosing(turns) ==> NoClosing([turns[i]])
    ensures turns[i].Other? ==> Unrelated(turns[i].event, source)
    ensures Offers(turns[..i + 1]) == Offers(turns[..i]) + if turns[i].Offer? then 1 else 0
  {
    assert turns[..i + 1][..i] == turns[..i] && Last(turns[..i + 1]) == turns[i];
  }

  /** One turn: an offer is taken or refused, anything else leaves the source alone. */
  method TakeTurn(p: AudioProcessor, source: string, rate: Rate, ghost captureID: string, frames: seq<Packet>,
                  turn: Turn, taken: nat)
    returns (n: nat, refusal: Option<AudioError>)
    requires p.Valid() && Numbered(source, rate, frames) && taken <= |frames|
    requires turn.Other? ==> Unrelated(turn.event, source)
    requires Caught(p.View(), source, rate, frames, taken)
    modifies p
    ensures p.Valid() && n <= |frames| && p.closed == old(p.closed)
    ensures GapsOf(p.reported, source) == GapsOf(old(p.reported), source)
    ensures turn.Offer? && taken < |frames| ==> n == taken + if refusal.Some? then 0 else 1
    ensures turn.Other? || taken == |frames| ==> n == taken && refusal.None?
    ensures refusal.Some? ==> NeverGap([refusal.value])
    ensures AllLegal(frames, captureID) && OneCapture([turn], captureID) && Ours(old(p.captureID), captureID) ==>
              Ours(p.captureID, captureID) && refusal != Some(InvalidInput)
    ensures NoClosing([turn]) && !old(p.closing || p.closed) ==> !p.closing && refusal != Some(ClosedToInput)
    ensures Caught(p.View(), source, rate, frames, n)
  {
    hide Sound, Caught, Numbered, Unrelated, GapsOf, Untouched, Refuses, SamplesOf;
    n, refusal := taken, None;
    assert [turn][0] == turn;
    match turn {
      case Offer =>
        if n < |frames| {
          refusal := DeliverOne(p, source, rate, frames, n);
          n := if refusal.None? then n + 1 else n;
        }
      case Other(event) =>
        ghost var before := p.View();
        Meanwhile(p, event, source);
        UntouchedMeans(before, p.View(), source);
        UntouchedCaught(before, p.View(), source, rate, frames, n);
    }
  }

  lemma UntouchedMeans(before: State, after: State, source: string)
    requires Untouched(before, after, source)
    ensures GapsOf(after.gaps, source) == GapsOf(before.gaps, source) && after.closed == before.closed
  {
  }

  lemma NothingCaught(cfg: Config, st: State, source: string, rate: Rate, frames: seq<Packet>)
    requires Sound(cfg, st) && source !in st.history
    ensures Caught(st, source, rate, frames, 0)
  {
    SoundLogged(cfg, st);
    hide Sound, Told, Taken;
    LoggedAlike(st.log, st.accepted, st.history);
  }

  lemma LoggedAlike(log: Log, accepted: Accepted, history: History)
    requires Logged(log, accepted, history)
    ensures accepted.Keys == history.Keys
  {
  }

  /** One offer. */
  method DeliverOne(p: AudioProcessor, ghost source: string, ghost rate: Rate, frames: seq<Packet>, n: nat)
    returns (refusal: Option<AudioError>)
    requires p.Valid() && Numbered(source, rate, frames) && n < |frames|
    requires Caught(p.View(), source, rate, frames, n)
    modifies p
    ensures p.Valid() && p.reported == old(p.reported) && p.closed == old(p.closed)
    ensures refusal.Some? ==> refusal.value in {ClosedToInput, InvalidInput, InferenceFailed, Backpressure}
    ensures refusal.Some? ==> p.View() == old(p.View()) && Refuses(p.cfg, p.View(), frames[n], refusal.value)
    ensures refusal == Some(InvalidInput) ==>
              !LegalPacket(frames[n]) || !Ours(old(p.captureID), frames[n].captureID)
    ensures refusal == Some(ClosedToInput) ==> old(p.closing || p.closed)
    ensures p.captureID in {old(p.captureID), Some(frames[n].captureID)} && p.closing == old(p.closing)
    ensures Caught(p.View(), source, rate, frames, if refusal.None? then n + 1 else n)
  {
    hide Sound, Caught, Validate, Numbered, WithPacket, Verdict, ToInput;
    ghost var before := p.View();
    ValidateRoundTrip(p.captureID, frames[n]);
    CaughtVerdict(p.cfg, before, source, rate, frames, n);
    SoundRecorded(p.cfg, before);
    CaughtNext(p.cfg, before, source, rate, frames, n);
    PacketNames(p.cfg, before);
    var outcome := p.Accept(ToInput(frames[n]));
    return if outcome.Threw? then Some(outcome.error) else None;
  }

  /** What became of a capture of which `n` frames were taken. */
  ghost predicate Through(p: AudioProcessor, source: string, rate: Rate, heard: seq<Sample>, n: nat)
    reads p
  {
    && (n == 0 ==> heard == [])
    && SegmentsOf(p.run.history, source) == (if n == 0 then [] else [Segment(0.0, rate, heard, n - 1, false)])
    && (n > 0 && !p.closed ==> source in p.sources && p.sources[source].inputThrough == |heard|)
  }

  /** The posted frames, under the capture id the page has chosen. */
  method DeliverPosted(p: AudioProcessor, source: string, rate: Rate, posted: seq<Message>, captureID: string,
                       turns: seq<Turn>)
    returns (n: nat, refusals: seq<AudioError>)
    requires p.Valid() && source !in p.run.history && AllUnrelated(turns, source)
    requires Numbered(source, rate, Packets("", posted))
    modifies p
    ensures p.Valid() && p.closed == old(p.closed)
    ensures GapsOf(p.reported, source) == GapsOf(old(p.reported), source)
    ensures n <= |Packets("", posted)| && NeverGap(refusals)
    ensures (&& AllLegal(Packets(captureID, posted), captureID)
             && OneCapture(turns, captureID) && old(p.captureID) in {None, Some(captureID)}) ==>
              Never(InvalidInput, refusals)
    ensures NoClosing(turns) && !old(p.closing || p.closed) ==> Never(ClosedToInput, refusals)
    ensures n == |Packets("", posted)| || n + |refusals| == Offers(turns)
    ensures n == |Packets("", posted)| ==> Through(p, source, rate, SamplesOf(Packets("", posted)), n)
  {
    var frames := Packets(captureID, posted);
    PacketsRenamed("", captureID, posted);
    NumberedRenamed("", captureID, source, rate, posted);
    hide *;
    n, refusals := Deliver(p, source, rate, captureID, frames, turns);
    CaughtAll(p, source, rate, frames, n);
  }

  /** A capture under a legal id, of a known source at a legal rate, whose frames can be numbered. */
  predicate LegalCapture(captureID: string, source: string, rate: Rate, frames: nat) {
    && 0 < |captureID| <= 256
    && (source == "remote" || source == "microphone")
    && 8000 <= rate <= 192000
    && frames <= MAX_SAFE + 1
  }

  /** Then all of its frames are legal. */
  lemma CapturedLegal(source: string, rate: Rate, captureID: string, posted: seq<Message>)
    requires Numbered(source, rate, Packets("", posted))
    ensures LegalCapture(captureID, source, rate, |Packets("", posted)|) ==>
              AllLegal(Packets(captureID, posted), captureID)
  {
    PacketsRenamed("", captureID, posted);
    NumberedRenamed("", captureID, source, rate, posted);
    PacketsOf(captureID, posted);
    if LegalCapture(captureID, source, rate, |Packets("", posted)|) {
      NumberedLegal(source, rate, captureID, Packets(captureID, posted));
    }
  }

  lemma NumberedLegal(source: string, rate: Rate, captureID: string, frames: seq<Packet>)
    requires Numbered(source, rate, frames) && LegalCapture(captureID, source, rate, |frames|)
    requires forall i :: 0 <= i < |frames| ==> frames[i].captureID == captureID
    ensures AllLegal(frames, captureID)
  {
    hide SamplesOf;
    forall i | 0 <= i < |frames|
      ensures LegalPacket(frames[i])
    {
      NotBeforeZero(|SamplesOf(frames[..i])|, rate);
    }
  }

  lemma NotBeforeZero(samples: nat, rate: Rate)
    ensures Ms(samples, rate) >= 0.0
  {
  }

  lemma {:induction false} PacketsOf(captureID: string, posted: seq<Message>)
    ensures forall i :: 0 <= i < |Packets(captureID, posted)| ==> Packets(captureID, posted)[i].captureID == captureID
  {
    if posted != [] {
      PacketsOf(captureID, posted[..|posted| - 1]);
    }
  }

  /** A capture from beginning to end: whatever the blocks, and whatever happens in between,
      once every frame is taken the processor has heard exactly the clamped mono input, as one
      segment without a gap. */
  method CaptureThrough(w: MeetingPCM, p: AudioProcessor, captureID: string, blocks: seq<Block>, turns: seq<Turn>)
    returns (n: nat, refusals: seq<AudioError>)
    requires w.Valid() && !w.stopped && w.heard == []
    requires p.Valid() && w.source !in p.run.history && AllUnrelated(turns, w.source)
    modifies w, w.samples, p
    ensures w.Valid() && w.stopped && w.frames == |MonoAll(blocks)|
    ensures p.Valid() && p.closed == old(p.closed)
    ensures GapsOf(p.reported, w.source) == GapsOf(old(p.reported), w.source)
    ensures n <= |Packets("", w.posted)| && NeverGap(refusals)
    ensures (&& LegalCapture(captureID, w.source, w.sampleRate, |Packets("", w.posted)|)
             && OneCapture(turns, captureID) && old(p.captureID) in {None, Some(captureID)}) ==>
              Never(InvalidInput, refusals)
    ensures NoClosing(turns) && !old(p.closing || p.closed) ==> Never(ClosedToInput, refusals)
    ensures n == |Packets("", w.posted)| || n + |refusals| == Offers(turns)
    ensures n == |Packets("", w.posted)| ==>
              && Through(p, w.source, w.sampleRate, MonoAll(blocks), n)
              && (n > 0 && !p.closed ==> w.source in p.sources && p.sources[w.source].inputThrough == w.frames)
  {
    hide *;
    Capture(w, blocks);
    CapturedLegal(w.source, w.sampleRate, captureID, w.posted);
    n, refusals := DeliverPosted(p, w.source, w.sampleRate, w.posted, captureID, turns);
    ThroughMeans(p, w.source, w.sampleRate, MonoAll(blocks), n);
  }

  lemma ThroughMeans(p: AudioProcessor, source: string, rate: Rate, heard: seq<Sample>, n: nat)
    ensures Through(p, source, rate, heard, n) && n > 0 && !p.closed ==>
              source in p.sources && p.sources[source].inputThrough == |heard|
  {
  }

  lemma CaughtAll(p: AudioProcessor, source: string, rate: Rate, frames: seq<Packet>, n: nat)
    requires n <= |frames| && Caught(p.View(), source, rate, frames, n)
    requires 0 < n && !p.closed ==>
               source in p.sources && p.sources[source].inputThrough == |SamplesOf(frames[..n])|
    ensures n == |frames| ==> Through(p, source, rate, SamplesOf(frames), n)
  {
    assert n == |frames| ==> frames[..n] == frames;
    hide SamplesOf, SegmentsOf, AcceptedOf;
    NothingSampled();
  }

  lemma NothingSampled()
    ensures SamplesOf([]) == []
  {
  }
}
