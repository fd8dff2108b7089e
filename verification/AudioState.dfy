/** The state of an audio processor as one value, what makes it sound, and the three ways it
    changes: a packet is accepted, the consumer deals with the head chunk, everything is
    finalized. */
module AudioState {
  import opened Wrappers
  import opened Resampling
  import opened Windowing
  import opened Segments
  import opened Streaming
  import opened AudioHistory
  import opened Admission
  import opened AudioLog
  import opened AudioGaps

  /** `running`: no promise, a callback outstanding, or the loop over but not yet cleared. */
  datatype Phase = Idle | Awaiting | Settling

  /** The fields of the object, then the record of its run (`capture` and what follows). */
  datatype State = State(
    order: seq<string>,
    sources: map<string, Source>,
    replays: map<string, seq<Packet>>,
    pending: seq<Pending>,
    running: Phase,
    captureID: Option<string>,
    closing: bool,
    closed: bool,
    processedSeconds: real,
    error: Option<string>,
    capture: string,
    accepted: Accepted,
    log: Log,
    history: History,
    emitted: seq<Pending>,
    journal: seq<Attempt>,
    gaps: seq<Gap>)

  ghost predicate Sound(cfg: Config, st: State) {
    && cfg.Legal()
    && WellFormed(st.history)
    && Faithful(cfg, st.capture, st.history, st.emitted)
    && Spaced(st.history)
    && Logged(st.log, st.accepted, st.history)
    && Reported(st.gaps, st.log)
    && Recorded(cfg, st.order, st.sources, st.history)
    && Fits(cfg, st.capture, st.order, st.history, st.pending)
    && Queued(cfg, st.emitted, st.pending, st.journal, st.processedSeconds)
    && Phased(cfg, st)
  }

  /** A callback is only awaited for a chunk with speech; the maps are as full, or as empty, as
      the processor is open or closed. */
  ghost predicate Phased(cfg: Config, st: State)
    requires WellFormed(st.history)
  {
    && (st.running.Awaiting? ==> st.pending != [] && !Quiet(cfg, st.pending[0]))
    && (st.closed ==> st.closing && st.order == [] && Over(st.history) && AllIncrease(st.accepted))
    && (!st.closed ==> Open(st))
  }

  /** Every source is finalized. */
  ghost predicate Over(history: History) {
    forall name :: name in history ==> AllClosed(history[name])
  }

  /** The packets of a source were taken with increasing numbers. */
  ghost predicate AllIncrease(accepted: Accepted) {
    forall name :: name in accepted ==> Increasing(accepted[name])
  }

  /** While the processor is open its maps cover everything it ever heard. */
  ghost predicate Open(st: State)
    requires WellFormed(st.history)
  {
    && Replayable(st.replays, st.accepted, st.history)
    && st.sources.Keys == st.history.Keys
    && st.captureID == if st.history == map[] then None else Some(st.capture)
  }

  /** Consecutive segments of a source do not overlap by more than half a sample. */
  ghost predicate Spaced(history: History) {
    forall name :: name in history ==> SpacedOut(history[name])
  }

  ghost predicate SpacedOut(segments: seq<Segment>) {
    && (forall i :: 0 <= i < |segments| ==> |segments[i].heard| > 0)
    && (forall i :: 0 <= i < |segments| - 1 ==>
          segments[i + 1].originMs >= segments[i].EndMs() - Slack(segments[i].inputRate))
  }

  lemma SpacedOutHeard(segments: seq<Segment>, p: Packet)
    requires SpacedOut(segments) && |p.samples| > 0
    requires segments != [] ==> !TooEarly(Last(segments), p)
    ensures SpacedOut(Heard(segments, p))
  {
    hide Slack, Ms;
    var after := Heard(segments, p);
    forall i | 0 <= i < |after| - 1
      ensures after[i + 1].originMs >= after[i].EndMs() - Slack(after[i].inputRate)
    {
      if i < |segments| - 1 {
        assert segments[i + 1].originMs >= segments[i].EndMs() - Slack(segments[i].inputRate);
      }
    }
  }

  lemma SpacedAccepts(history: History, p: Packet)
    requires Spaced(history) && WellFormed(history) && |p.samples| > 0
    requires p.source in history ==> !TooEarly(Last(history[p.source]), p)
    ensures Spaced(history[p.source := Heard(SegmentsOf(history, p.source), p)])
  {
    SpacedOutHeard(SegmentsOf(history, p.source), p);
  }

  lemma SpacedOutCloses(segments: seq<Segment>)
    requires SpacedOut(segments) && segments != []
    ensures SpacedOut(CloseLast(segments))
  {
    var after := CloseLast(segments);
    forall i | 0 <= i < |after| - 1
      ensures after[i + 1].originMs >= after[i].EndMs() - Slack(after[i].inputRate)
    {
      assert segments[i + 1].originMs >= segments[i].EndMs() - Slack(segments[i].inputRate);
    }
  }

  lemma SpacedCloses(history: History, names: seq<string>)
    requires Spaced(history) && WellFormed(history)
    requires forall name :: name in names ==> name in history
    ensures Spaced(CloseAll(history, names))
  {
    forall name | name in history
      ensures SpacedOut(CloseAll(history, names)[name])
    {
      SpacedOutCloses(history[name]);
    }
  }

  function Start(): State {
    State([], map[], map[], [], Idle, None, false, false, 0.0, None, "", map[], map[], map[], [], [], [])
  }

  lemma StartSound(cfg: Config)
    requires cfg.Legal() && cfg.capacity >= 0.0
    ensures Sound(cfg, Start())
  {
    NoReports();
  }

  // ---- a packet ---------------------------------------------------------------

  function Before(st: State, p: Packet): seq<Segment> {
    SegmentsOf(st.history, p.source)
  }

  /** A gap is reported exactly for a discontinuity. */
  function NewGaps(st: State, p: Packet): seq<Gap> {
    var before := Before(st, p);
    if before != [] && Discontinuous(Last(before), p) then [Gap(p.source, p.startMs)] else []
  }

  /** The state after `accept` takes `p`. */
  function WithPacket(cfg: Config, st: State, p: Packet): State
    requires cfg.Legal()
  {
    var segments, due := Heard(Before(st, p), p), Due(cfg, Before(st, p), p);
    st.(order := Joined(st.order, p.source),
        sources := st.sources[p.source := RecordOf(cfg, Last(segments))],
        replays := st.replays[p.source := Remember(RecentOf(st.replays, p.source), p)],
        pending := st.pending + due,
        captureID := Some(p.captureID),
        capture := p.captureID,
        accepted := st.accepted[p.source := AcceptedOf(st.accepted, p.source) + [p]],
        log := st.log[p.source := LogOf(st.log, p.source) + [Took(p)]],
        history := st.history[p.source := segments],
        emitted := st.emitted + due,
        gaps := st.gaps + NewGaps(st, p))
  }

  ghost predicate OnTime(st: State, p: Packet)
    requires WellFormed(st.history)
  {
    p.source in st.history ==> p.sequence > Last(st.history[p.source]).sequence
                               && !TooEarly(Last(st.history[p.source]), p)
  }

  /** The packet itself still fits beside what is held. */
  ghost predicate Spare(cfg: Config, st: State, p: Packet)
    requires cfg.Legal() && WellFormed(st.history) && forall name :: name in st.order ==> name in st.history
  {
    BufferedSeconds(cfg, st.order, Records(cfg, st.order, st.history), st.pending) + Seconds(|p.samples|, p.sampleRate)
    <= Limit(cfg)
  }

  /** The state the packet would leave fits within the capacity, now and once finished. */
  ghost predicate Room(cfg: Config, st: State, p: Packet)
    requires cfg.Legal() && WellFormed(st.history) && forall name :: name in st.order ==> name in st.history
  {
    Fits(cfg, p.captureID, Joined(st.order, p.source), st.history[p.source := Heard(Before(st, p), p)],
         st.pending + Due(cfg, Before(st, p), p))
  }

  /** What the replay window answers: the same packet again is a duplicate, any other packet
      that is not new is an error. */
  ghost function ReplayAnswer(packets: seq<Packet>, p: Packet): Option<Outcome> {
    if p in LastFew(packets) then Some(Returned(true))
    else if packets == [] || Last(packets).sequence < p.sequence then None
    else if exists q :: q in LastFew(packets) && q.sequence == p.sequence then Some(Threw(ChangedDuplicate))
    else Some(Threw(ReplayExpired))
  }

  /** What pressure and the clock have to say to a new packet. */
  ghost function PressAnswer(cfg: Config, st: State, p: Packet): Option<AudioError>
    requires Sound(cfg, st)
  {
    SoundRecorded(cfg, st);
    if st.error.Some? then Some(InferenceFailed)
    else if !Spare(cfg, st, p) then Some(Backpressure)
    else if p.source in st.history && TooEarly(Last(st.history[p.source]), p) then Some(ClockRegressed)
    else None
  }

  /** The packet's sequence number is behind every one its source had. */
  predicate NewTo(history: History, p: Packet) {
    p.source in history ==> history[p.source] != [] && Last(history[p.source]).sequence < p.sequence
  }

  /** The whole answer of an open processor to a valid packet. */
  ghost function Verdict(cfg: Config, st: State, p: Packet): Outcome
    requires Sound(cfg, st)
  {
    SoundRecorded(cfg, st);
    var replay := ReplayAnswer(AcceptedOf(st.accepted, p.source), p);
    var pressed := PressAnswer(cfg, st, p);
    if replay.Some? then replay.value
    else if pressed.Some? then Threw(pressed.value)
    else if !Room(cfg, st, p) then Threw(Backpressure)
    else Returned(false)
  }

  /** Before the first packet there is nothing the capture id could disagree with. */
  lemma NothingYet(cfg: Config, capture: string, emitted: seq<Pending>)
    requires cfg.Legal() && Faithful(cfg, capture, map[], emitted)
    ensures emitted == []
  {
    if emitted != [] {
      NothingHeard(emitted[0], emitted);
    }
  }

  lemma NothingHeard(item: Pending, emitted: seq<Pending>)
    requires item in emitted
    ensures exists other :: other in emitted
  {
  }

  lemma PacketFaithful(cfg: Config, st: State, p: Packet)
    requires cfg.Legal() && Faithful(cfg, st.capture, st.history, st.emitted)
    requires st.history == map[] || st.capture == p.captureID
    ensures Faithful(cfg, p.captureID, WithPacket(cfg, st, p).history, WithPacket(cfg, st, p).emitted)
  {
    if st.history == map[] {
      NothingYet(cfg, st.capture, st.emitted);
    }
    FaithfulAccepts(cfg, st.history, st.emitted, p);
  }

  lemma PacketRecorded(cfg: Config, st: State, p: Packet)
    requires cfg.Legal() && WellFormed(st.history) && Recorded(cfg, st.order, st.sources, st.history)
    ensures WellFormed(WithPacket(cfg, st, p).history)
    ensures Recorded(cfg, WithPacket(cfg, st, p).order, WithPacket(cfg, st, p).sources, WithPacket(cfg, st, p).history)
  {
    hide Due, Heard, RecordOf, Represents, Remember;
    var segments := Heard(Before(st, p), p);
    RecordedUpdate(cfg, st.order, st.sources, st.history, p.source, RecordOf(cfg, Last(segments)), segments);
  }

  lemma PacketLogged(cfg: Config, st: State, p: Packet)
    requires cfg.Legal() && Logged(st.log, st.accepted, st.history)
    ensures var next := WithPacket(cfg, st, p); Logged(next.log, next.accepted, next.history)
  {
    hide Due, Heard, RecordOf, Remember, Logged;
    LoggedAccepts(st.log, st.accepted, st.history, p);
  }

  lemma PacketOpen(cfg: Config, st: State, p: Packet)
    requires cfg.Legal() && WellFormed(st.history) && Open(st) && OnTime(st, p)
    ensures WellFormed(WithPacket(cfg, st, p).history) && Open(WithPacket(cfg, st, p))
  {
    hide Due, Heard, RecordOf, Remember, Replayable, Represents, TooEarly;
    ReplayableAccepts(st.replays, st.accepted, st.history, p);
  }

  lemma PacketQueued(cfg: Config, st: State, p: Packet)
    requires cfg.Legal() && Queued(cfg, st.emitted, st.pending, st.journal, st.processedSeconds)
    ensures var next := WithPacket(cfg, st, p);
            Queued(cfg, next.emitted, next.pending, next.journal, next.processedSeconds)
  {
    hide Due, Heard, RecordOf, Remember, Queued;
    QueuedEmits(cfg, st.emitted, st.pending, st.journal, st.processedSeconds, Due(cfg, Before(st, p), p));
  }

  lemma PacketReported(cfg: Config, st: State, p: Packet)
    requires cfg.Legal() && Logged(st.log, st.accepted, st.history) && Reported(st.gaps, st.log)
    ensures Reported(WithPacket(cfg, st, p).gaps, WithPacket(cfg, st, p).log)
  {
    LoggedBefore(st.log, st.accepted, st.history, p.source);
    hide Due, Heard, RecordOf, Remember, Logged, Reported, Told, Discontinuous;
    ReportedTook(st.gaps, st.log, p);
  }

  lemma LoggedBefore(log: Log, accepted: Accepted, history: History, name: string)
    requires Logged(log, accepted, history)
    ensures SegmentsOf(history, name) == Told(LogOf(log, name))
  {
  }

  lemma PacketSound(cfg: Config, st: State, p: Packet)
    requires Sound(cfg, st) && !st.closed
    requires st.captureID.Some? ==> st.captureID == Some(p.captureID)
    requires |p.samples| > 0 && OnTime(st, p)
    requires (forall name :: name in st.order ==> name in st.history) && Room(cfg, st, p)
    ensures Sound(cfg, WithPacket(cfg, st, p))
  {
    PacketReported(cfg, st, p);
    hide Due, Heard, RecordOf, Remember, Recorded, Queued, Fits, WellFormed, Faithful, Replayable, Quiet, Discontinuous,
         Spaced, Logged, Reported;
    SpacedAccepts(st.history, p);
    PacketLogged(cfg, st, p);
    PacketFaithful(cfg, st, p);
    PacketRecorded(cfg, st, p);
    PacketOpen(cfg, st, p);
    PacketQueued(cfg, st, p);
  }

  // ---- the consumer -----------------------------------------------------------

  /** The head chunk is skipped, consumed, or fails and stays. */
  function AfterStep(st: State, step: Step): State
    requires st.pending != []
  {
    var next := st.(journal := st.journal + [Attempt(Left(st.journal), step)]);
    if step.Failed? then next
    else next.(pending := st.pending[1..], processedSeconds := st.processedSeconds + st.pending[0].seconds)
  }

  lemma FailedStepKeepsError(st: State, error: Option<string>)
    requires st.pending != []
    ensures AfterStep(st.(error := error), Failed) == AfterStep(st, Failed).(error := error)
  {
  }

  lemma StepSound(cfg: Config, st: State, step: Step)
    requires Sound(cfg, st) && st.pending != []
    requires step.Skipped? <==> Quiet(cfg, st.pending[0])
    ensures Sound(cfg, AfterStep(st, step).(running := Settling))
  {
    hide Fits, Queued, Faithful, Replayable, WellFormed, Quiet, Represents, Spaced, Logged, Reported;
    QueuedStep(cfg, st.emitted, st.pending, st.journal, st.processedSeconds, step);
    FitsShift(cfg, st.capture, st.order, st.history, st.pending);
  }

  lemma PhaseSound(cfg: Config, st: State, phase: Phase)
    requires Sound(cfg, st)
    requires phase.Awaiting? ==> st.pending != [] && !Quiet(cfg, st.pending[0])
    ensures Sound(cfg, st.(running := phase))
  {
    hide Fits, Queued, Faithful, Replayable, WellFormed, Quiet, Recorded, Spaced, Logged, Reported;
  }

  /** From `st` to `next` the consumer only skipped silence. */
  ghost predicate Skips(st: State, next: State) {
    && st.journal <= next.journal
    && (forall j :: |st.journal| <= j < |next.journal| ==> next.journal[j].step.Skipped?)
    && next == st.(pending := next.pending, processedSeconds := next.processedSeconds, journal := next.journal,
                   running := next.running)
  }

  lemma SkipsNothing(st: State)
    ensures Skips(st, st.(running := Settling))
  {
  }

  lemma SkipsPhase(st: State, next: State, phase: Phase)
    requires Skips(st, next)
    ensures Skips(st, next.(running := phase))
  {
  }

  lemma SkipsOne(st: State, next: State)
    requires Skips(st, next) && next.pending != []
    ensures Skips(st, AfterStep(next, Skipped).(running := Settling))
  {
  }

  // ---- finalization -----------------------------------------------------------

  /** The state after the synchronous middle of `flush`. */
  function AllFinalized(cfg: Config, st: State): State
    requires cfg.Legal() && WellFormed(st.history) && forall name :: name in st.order ==> name in st.history
  {
    var history := CloseAll(st.history, st.order);
    var owed := OwedAll(cfg, st.capture, st.order, st.history);
    st.(sources := Records(cfg, st.order, history), log := EndAll(st.log, st.order), history := history,
        pending := st.pending + owed, emitted := st.emitted + owed)
  }

  ghost predicate Distinct(names: seq<string>, history: History) {
    && (forall name :: name in names ==> name in history)
    && (forall i, j :: 0 <= i < j < |names| ==> names[i] != names[j])
  }

  lemma CloseAllSnoc(history: History, front: seq<string>, name: string)
    requires WellFormed(history) && Distinct(front + [name], history)
    ensures Distinct(front, history) && name in history
    ensures CloseAll(history, front)[name] == history[name]
    ensures CloseAll(history, front + [name]) == CloseAll(history, front)[name := CloseLast(history[name])]
  {
    var names := front + [name];
    assert forall i :: 0 <= i < |front| ==> names[i] == front[i];
    assert names[|front|] == name;
    assert forall other :: other in names <==> other in front || other == name;
  }

  lemma OwedAllLast(cfg: Config, capture: string, history: History, front: seq<string>, name: string)
    requires cfg.Legal() && WellFormed(history) && Distinct(front + [name], history) && Distinct(front, history)
    requires name in history
    ensures OwedAll(cfg, capture, front + [name], history)
            == OwedAll(cfg, capture, front, history) + Owed(cfg, capture, name, Last(history[name]))
  {
    assert (front + [name])[..|front|] == front;
  }

  lemma {:induction false} FaithfulFinalizes(cfg: Config, capture: string, history: History, emitted: seq<Pending>,
                                             names: seq<string>)
    requires cfg.Legal() && WellFormed(history) && Faithful(cfg, capture, history, emitted)
    requires Distinct(names, history)
    ensures Faithful(cfg, capture, CloseAll(history, names), emitted + OwedAll(cfg, capture, names, history))
  {
    if names == [] {
      assert CloseAll(history, names) == history;
      assert emitted + [] == emitted;
    } else {
      hide Faithful, Owed, CloseLast, OwedAll, CloseAll, Distinct;
      var front, name := names[..|names| - 1], Last(names);
      assert names == front + [name];
      CloseAllSnoc(history, front, name);
      OwedAllLast(cfg, capture, history, front, name);
      FaithfulFinalizes(cfg, capture, history, emitted, front);
      FaithfulFinalizesOne(cfg, capture, CloseAll(history, front), emitted,
                           OwedAll(cfg, capture, front, history), name);
    }
  }

  lemma FaithfulFinalizesOne(cfg: Config, capture: string, history: History, emitted: seq<Pending>,
                             owed: seq<Pending>, name: string)
    requires cfg.Legal() && WellFormed(history) && name in history && Faithful(cfg, capture, history, emitted + owed)
    ensures Faithful(cfg, capture, history[name := CloseLast(history[name])],
                     emitted + (owed + Owed(cfg, capture, name, Last(history[name]))))
  {
    hide Faithful, Owed, CloseLast;
    FaithfulCloses(cfg, capture, history, emitted + owed, name);
    var tail := Owed(cfg, capture, name, Last(history[name]));
    assert emitted + owed + tail == emitted + (owed + tail);
  }

  lemma {:induction false} ClosedOwesNothing(cfg: Config, capture: string, order: seq<string>, names: seq<string>,
                                             history: History)
    requires cfg.Legal() && WellFormed(history)
    requires forall name :: name in names ==> name in history
    requires forall name :: name in order ==> name in names
    ensures OwedAll(cfg, capture, order, CloseAll(history, names)) == []
  {
    if order != [] {
      ClosedOwesNothing(cfg, capture, order[..|order| - 1], names, history);
      assert Last(order) in names;
    }
  }

  lemma {:induction false} ClosedRecordsHoldNothing(cfg: Config, order: seq<string>, names: seq<string>,
                                                    history: History)
    requires cfg.Legal() && WellFormed(history)
    requires forall name :: name in names ==> name in history
    requires forall name :: name in order ==> name in names
    ensures forall name :: name in order ==>
              RecordOf(cfg, Last(CloseAll(history, names)[name])).input == []
              && RecordOf(cfg, Last(CloseAll(history, names)[name])).output == []
  {
  }

  lemma FinalizedLoad(cfg: Config, order: seq<string>, history: History)
    requires cfg.Legal() && WellFormed(history)
    requires forall name :: name in order ==> name in history
    ensures SourcesLoad(cfg, order, Records(cfg, order, CloseAll(history, order))) == 0.0
  {
    ClosedRecordsHoldNothing(cfg, order, order, history);
    hide CloseAll, RecordOf;
    FinalizedHoldNothing(cfg, order, Records(cfg, order, CloseAll(history, order)));
  }

  lemma FinalizedFits(cfg: Config, st: State)
    requires cfg.Legal() && WellFormed(st.history)
    requires forall name :: name in st.order ==> name in st.history
    requires Fits(cfg, st.capture, st.order, st.history, st.pending)
    ensures var next := AllFinalized(cfg, st); Fits(cfg, next.capture, next.order, next.history, next.pending)
  {
    hide Records, SourcesLoad, OwedAll, CloseAll, PendingLoad, WellFormed, EndAll, Limit, RecordOf, Owed, CloseLast;
    FinalizedLoad(cfg, st.order, st.history);
    ClosedOwesNothing(cfg, st.capture, st.order, st.order, st.history);
    assert AllFinalized(cfg, st).pending + [] == AllFinalized(cfg, st).pending;
  }

  lemma FinalizedReplayable(st: State)
    requires WellFormed(st.history) && Replayable(st.replays, st.accepted, st.history)
    requires forall name :: name in st.order ==> name in st.history
    ensures Replayable(st.replays, st.accepted, CloseAll(st.history, st.order))
  {
    forall name | name in st.history
      ensures SourceReplayable(st.replays[name], st.accepted[name], CloseAll(st.history, st.order)[name])
    {
      HeardInCloses(st.history[name]);
    }
  }

  lemma FinalizedReported(cfg: Config, st: State)
    requires cfg.Legal() && WellFormed(st.history) && forall name :: name in st.order ==> name in st.history
    requires Reported(st.gaps, st.log)
    ensures Reported(AllFinalized(cfg, st).gaps, AllFinalized(cfg, st).log)
  {
    hide CloseAll, OwedAll, Records, Reported, EndAll, WellFormed;
    ReportedEnds(st.gaps, st.log, st.order);
  }

  lemma FinalizeSound(cfg: Config, st: State)
    requires Sound(cfg, st)
    ensures Sound(cfg, AllFinalized(cfg, st))
  {
    SoundParts(cfg, st);
    FinalizedQueue(cfg, st);
    FinalizedHistory(cfg, st);
    FinalizedPhase(cfg, st);
    hide *;
    FinalizedReported(cfg, st);
    FinalizedFaithful(cfg, st);
    FinalizedFits(cfg, st);
    AllFinalizedRecorded(cfg, st);
    PartsSound(cfg, AllFinalized(cfg, st));
  }

  /** The parts of `Sound`, to be used one by one. */
  lemma SoundParts(cfg: Config, st: State)
    requires Sound(cfg, st)
    ensures cfg.Legal() && WellFormed(st.history) && forall name :: name in st.order ==> name in st.history
    ensures Faithful(cfg, st.capture, st.history, st.emitted) && Spaced(st.history)
    ensures Logged(st.log, st.accepted, st.history) && Recorded(cfg, st.order, st.sources, st.history)
    ensures Fits(cfg, st.capture, st.order, st.history, st.pending)
    ensures Queued(cfg, st.emitted, st.pending, st.journal, st.processedSeconds)
    ensures Phased(cfg, st) && Reported(st.gaps, st.log)
  {
    hide Fits, Queued, Faithful, Spaced, Logged, Reported, WellFormed, Open, Over, Quiet, Represents;
  }

  lemma PartsSound(cfg: Config, st: State)
    requires cfg.Legal() && WellFormed(st.history) && forall name :: name in st.order ==> name in st.history
    requires Faithful(cfg, st.capture, st.history, st.emitted) && Spaced(st.history)
    requires Logged(st.log, st.accepted, st.history) && Recorded(cfg, st.order, st.sources, st.history)
    requires Fits(cfg, st.capture, st.order, st.history, st.pending)
    requires Queued(cfg, st.emitted, st.pending, st.journal, st.processedSeconds)
    requires Phased(cfg, st) && Reported(st.gaps, st.log)
    ensures Sound(cfg, st)
  {
    hide Fits, Queued, Faithful, Spaced, Logged, Reported, WellFormed, Open, Over, Quiet, Recorded;
  }

  lemma FinalizedPhase(cfg: Config, st: State)
    requires cfg.Legal() && WellFormed(st.history) && Recorded(cfg, st.order, st.sources, st.history)
    requires forall name :: name in st.order ==> name in st.history
    requires Phased(cfg, st)
    ensures WellFormed(AllFinalized(cfg, st).history) && Phased(cfg, AllFinalized(cfg, st))
  {
    if st.closed {
      OverStays(st.history);
    } else {
      FinalizedOpen(cfg, st);
    }
    hide Quiet, OwedAll, Recorded, Open, Records, EndAll, Over, CloseAll;
    assert st.pending != [] ==> AllFinalized(cfg, st).pending[0] == st.pending[0];
  }

  lemma FinalizedOpen(cfg: Config, st: State)
    requires cfg.Legal() && WellFormed(st.history) && Recorded(cfg, st.order, st.sources, st.history)
    requires forall name :: name in st.order ==> name in st.history
    requires Open(st)
    ensures WellFormed(AllFinalized(cfg, st).history) && Open(AllFinalized(cfg, st))
  {
    FinalizedReplayable(st);
    RecordsCover(cfg, st.order, st.sources, st.history);
    hide OwedAll, Recorded, Replayable, Records, EndAll, WellFormed;
  }

  lemma RecordsCover(cfg: Config, order: seq<string>, sources: map<string, Source>, history: History)
    requires cfg.Legal() && WellFormed(history) && Recorded(cfg, order, sources, history)
    ensures forall name :: name in order ==> name in CloseAll(history, order)
    ensures Records(cfg, order, CloseAll(history, order)).Keys == sources.Keys
    ensures CloseAll(history, order) == map[] <==> history == map[]
  {
    hide RecordOf, Represents, CloseLast;
    var closed := CloseAll(history, order);
    assert closed.Keys == history.Keys;
    assert forall name :: name in Records(cfg, order, closed) <==> name in sources;
  }

  lemma FinalizedQueue(cfg: Config, st: State)
    requires cfg.Legal() && WellFormed(st.history) && forall name :: name in st.order ==> name in st.history
    requires Queued(cfg, st.emitted, st.pending, st.journal, st.processedSeconds)
    ensures var next := AllFinalized(cfg, st);
            Queued(cfg, next.emitted, next.pending, next.journal, next.processedSeconds)
  {
    hide Queued, WellFormed, OwedAll, Records, CloseAll, EndAll;
    QueuedEmits(cfg, st.emitted, st.pending, st.journal, st.processedSeconds,
                OwedAll(cfg, st.capture, st.order, st.history));
  }

  lemma FinalizedHistory(cfg: Config, st: State)
    requires cfg.Legal() && WellFormed(st.history) && forall name :: name in st.order ==> name in st.history
    requires Spaced(st.history) && Logged(st.log, st.accepted, st.history)
    ensures var next := AllFinalized(cfg, st);
            && WellFormed(next.history) && (forall name :: name in next.order ==> name in next.history)
            && Spaced(next.history) && Logged(next.log, next.accepted, next.history)
  {
    hide Spaced, Logged, OwedAll, Records, CloseAll, EndAll;
    LoggedEnds(st.log, st.accepted, st.history, st.order);
    SpacedCloses(st.history, st.order);
  }

  lemma OverStays(history: History)
    requires WellFormed(history)
    ensures CloseAll(history, []) == history
  {
  }

  lemma FinalizedFaithful(cfg: Config, st: State)
    requires cfg.Legal() && WellFormed(st.history) && Faithful(cfg, st.capture, st.history, st.emitted)
    requires Recorded(cfg, st.order, st.sources, st.history)
    ensures var next := AllFinalized(cfg, st); Faithful(cfg, next.capture, next.history, next.emitted)
  {
    hide Faithful, Represents;
    FaithfulFinalizes(cfg, st.capture, st.history, st.emitted, st.order);
  }

  lemma AllFinalizedRecorded(cfg: Config, st: State)
    requires cfg.Legal() && WellFormed(st.history) && Recorded(cfg, st.order, st.sources, st.history)
    ensures var next := AllFinalized(cfg, st); Recorded(cfg, next.order, next.sources, next.history)
  {
  }

  // ---- closing ----------------------------------------------------------------

  function Shut(st: State): State {
    st.(order := [], sources := map[], replays := map[], captureID := None, closing := true, closed := true)
  }

  lemma {:induction false} SourcesLoadNonNegative(cfg: Config, order: seq<string>, sources: map<string, Source>)
    requires forall name :: name in order ==> name in sources
    ensures SourcesLoad(cfg, order, sources) >= 0.0
  {
    if order != [] {
      SourcesLoadNonNegative(cfg, order[..|order| - 1], sources);
    }
  }

  lemma ShutSound(cfg: Config, st: State)
    requires Sound(cfg, st) && Over(st.history)
    ensures Sound(cfg, Shut(st))
  {
    SoundRecorded(cfg, st);
    SoundIncreasing(cfg, st);
    hide Queued, Faithful, Replayable, Quiet, Spaced, Logged, Reported, Fits, Recorded, WellFormed, Over, AllIncrease;
    NothingRecorded(cfg, st.history);
    ShutFits(cfg, st);
  }

  /** No number was taken twice, and none out of order. */
  lemma SoundIncreasing(cfg: Config, st: State)
    requires Sound(cfg, st)
    ensures AllIncrease(st.accepted)
  {
    hide Fits, Queued, Faithful, Quiet, Represents, Recorded, Spaced, Logged, Reported, WellFormed, Increasing, LastFew;
  }

  lemma NothingRecorded(cfg: Config, history: History)
    requires cfg.Legal() && WellFormed(history)
    ensures Recorded(cfg, [], map[], history)
  {
  }

  /** When every record is finalized, so is every source. */
  lemma FinalizedIsOver(cfg: Config, st: State)
    requires Sound(cfg, st) && forall name :: name in st.sources ==> st.sources[name].finalized
    ensures Over(st.history)
  {
    SoundRecorded(cfg, st);
    SoundLogged(cfg, st);
    if !st.closed {
      hide Sound, Logged, Told, Taken, Recorded, Represents, AllClosed, WellFormed;
      forall name | name in st.history
        ensures AllClosed(st.history[name])
      {
        assert name in st.sources;
        RecordTellsEnd(cfg, st.sources[name], Last(st.history[name]));
        ToldSuperseded(st.log[name]);
        LastOneClosed(st.history[name]);
      }
    }
  }

  lemma LastOneClosed(segments: seq<Segment>)
    requires segments != [] && Superseded(segments) && Last(segments).closed
    ensures AllClosed(segments)
  {
  }

  lemma RecordTellsEnd(cfg: Config, s: Source, g: Segment)
    requires cfg.Legal() && Represents(cfg, s, g)
    ensures s.finalized == g.closed
  {
  }

  /** What the log of a run says. */
  lemma SoundLogged(cfg: Config, st: State)
    requires Sound(cfg, st)
    ensures Logged(st.log, st.accepted, st.history) && (st.closed ==> Over(st.history))
    ensures forall name :: name in st.log <==> name in st.history
    ensures forall name :: name in st.history ==>
              st.history[name] == Told(st.log[name]) && st.accepted[name] == Taken(st.log[name])
  {
    hide Fits, Queued, Faithful, Replayable, Quiet, Represents, Spaced, Recorded, Over, Reported;
  }

  lemma ShutFits(cfg: Config, st: State)
    requires cfg.Legal() && WellFormed(st.history)
    requires forall name :: name in st.order ==> name in st.history
    requires Fits(cfg, st.capture, st.order, st.history, st.pending)
    ensures Fits(cfg, st.capture, [], st.history, st.pending)
  {
    SourcesLoadNonNegative(cfg, st.order, Records(cfg, st.order, st.history));
    assert st.pending + [] == st.pending;
  }

  lemma FlagsSound(cfg: Config, st: State, error: Option<string>, closing: bool)
    requires Sound(cfg, st) && (st.closing ==> closing)
    ensures Sound(cfg, st.(error := error, closing := closing))
  {
    hide Fits, Queued, Faithful, Replayable, WellFormed, Quiet, Recorded, Spaced, Logged, Reported;
  }

  /** The capture id only matters once there is a source to name. */
  lemma CaptureOfOwed(cfg: Config, st: State, captureID: string)
    requires Sound(cfg, st)
    requires st.captureID.Some? ==> captureID == st.captureID.value
    ensures OwedAll(cfg, captureID, st.order, st.history) == OwedAll(cfg, st.capture, st.order, st.history)
  {
    hide Fits, Queued, Faithful, Replayable, Quiet, Represents, Spaced, Logged, Reported;
    assert forall i :: 0 <= i < |st.order| ==> st.order[i] in st.sources;
  }

  lemma SoundRecorded(cfg: Config, st: State)
    requires Sound(cfg, st)
    ensures cfg.Legal() && WellFormed(st.history) && Recorded(cfg, st.order, st.sources, st.history)
    ensures forall name :: name in st.order ==> name in st.history
    ensures !st.closed ==> forall name :: name in st.sources <==> name in st.history
    ensures forall name :: name in st.history ==> st.history[name] != []
    ensures !st.closed ==> forall name :: name in st.sources ==>
              Represents(cfg, st.sources[name], Last(st.history[name]))
    ensures !st.closed ==> st.captureID == if st.history == map[] then None else Some(st.capture)
  {
    hide Fits, Queued, Faithful, Replayable, Quiet, Represents, Spaced, Logged, Reported;
  }

  /** The replay window of an open processor, source by source. */
  lemma SoundReplayable(cfg: Config, st: State, name: string)
    requires Sound(cfg, st) && !st.closed && WellFormed(st.history)
    ensures name in st.accepted <==> name in st.history
    ensures name in st.replays <==> name in st.history
    ensures name in st.history ==> SourceReplayable(st.replays[name], st.accepted[name], st.history[name])
  {
    hide Fits, Queued, Faithful, Quiet, Represents, Recorded, SourceReplayable, Spaced, Logged, Reported;
  }

  lemma AwaitingHasHead(cfg: Config, st: State)
    requires Sound(cfg, st) && st.running.Awaiting?
    ensures st.pending != [] && !Quiet(cfg, st.pending[0])
  {
  }
}
