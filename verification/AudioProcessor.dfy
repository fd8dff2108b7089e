/** `AudioProcessor`: one object, its fields, and the steps that change them.

    `process` and `flush` are split where the program awaits a callback, so any other call may
    come in between. */
module Audio {
  import opened Wrappers
  import opened Resampling
  import opened Windowing
  import opened Segments
  import opened Streaming
  import opened AudioHistory
  import opened Admission
  import opened AudioLog
  import opened AudioGaps
  import opened AudioState

  /** How a call of `drain` answers, before anything is awaited. */
  datatype DrainReply = AlreadyRunning | Resolved | Rejected | Started

  datatype Event =
    | Accept(input: Input)
    | Drain(retry: bool)
    | ChunkFailed(reason: string)
    | ChunkDone
    | Cleared
    | Finalize
    | BeginClose
    | EndClose

  class AudioProcessor {
    const cfg: Config
    var order: seq<string>
    var sources: map<string, Source>
    var replays: map<string, seq<Packet>>
    var pending: seq<Pending>
    var running: Phase
    var captureID: Option<string>
    var closing: bool
    var closed: bool
    var processedSeconds: real
    var error: Option<string>

    /** The calls made to `onGap`. */
    var reported: seq<Gap>

    /** The record of the run; its other fields are ignored. */
    ghost var run: State

    ghost function View(): State
      reads this
    {
      State(order, sources, replays, pending, running, captureID, closing, closed, processedSeconds, error,
            run.capture, run.accepted, run.log, run.history, run.emitted, run.journal, reported)
    }

    ghost predicate Valid()
      reads this
    {
      Sound(cfg, View())
    }

    constructor (cfg: Config)
      requires cfg.Legal() && cfg.capacity >= 0.0
      ensures Valid() && this.cfg == cfg && View() == Start()
    {
      hide Sound;
      this.cfg := cfg;
      order, sources, replays, pending := [], map[], map[], [];
      running, captureID, closing, closed, processedSeconds, error := Idle, None, false, false, 0.0, None;
      reported, run := [], Start();
      new;
      StartSound(cfg);
    }

    /** The replay tests at the head of `accept`. */
    method Replay(p: Packet) returns (early: Option<Outcome>)
      requires Valid() && !closed
      ensures early == ReplayAnswer(AcceptedOf(run.accepted, p.source), p) != Some(Returned(false))
      ensures early.None? ==> NewTo(run.history, p)
    {
      hide Sound, LastFew, Represents;
      SoundRecorded(cfg, View());
      SoundReplayable(cfg, View(), p.source);
      RecallDecides(AcceptedOf(run.accepted, p.source), p);
      assert p.source in sources ==> sources[p.source].sequence == Last(run.history[p.source]).sequence by {
        if p.source in sources {
          RecordIsUnique(cfg, sources[p.source], Last(run.history[p.source]));
        }
      }
      var existing := Recall(RecentOf(replays, p.source), p.sequence);
      if p.source in sources && p.sequence <= sources[p.source].sequence && existing.None? {
        return Some(Threw(ReplayExpired));
      }
      if existing.Some? {
        return Some(if existing.value != p then Threw(ChangedDuplicate) else Returned(true));
      }
      return None;
    }

    /** The pressure and clock tests that follow. */
    method Press(p: Packet) returns (early: Option<AudioError>)
      requires Valid() && !closed
      ensures early == PressAnswer(cfg, View(), p)
    {
      hide Sound, Recorded, BufferedSeconds, Records;
      SoundRecorded(cfg, View());
      RecordedIsRecords(cfg, order, sources, run.history);
      if error.Some? {
        return Some(InferenceFailed);
      }
      if BufferedSeconds(cfg, order, sources, pending) + Seconds(|p.samples|, p.sampleRate) > Limit(cfg) {
        return Some(Backpressure);
      }
      if p.source in sources {
        var previous := sources[p.source];
        if p.startMs < previous.endMs - Slack(previous.inputRate) {
          return Some(ClockRegressed);
        }
      }
      return None;
    }

    /** The last lines of `accept`: only here does anything change. */
    method Commit(p: Packet, discontinuity: bool, source: Source, queued: seq<Pending>, ghost next: State)
      requires cfg.Legal() && next == WithPacket(cfg, View(), p)
      requires source == RecordOf(cfg, Last(Heard(Before(View(), p), p)))
      requires queued == Due(cfg, Before(View(), p), p)
      requires NewGaps(View(), p) == if discontinuity then [Gap.Gap(p.source, p.startMs)] else []
      modifies this
      ensures View() == next
    {
      hide Due, Heard, RecordOf, Remember, Joined, RecentOf, NewGaps, AcceptedOf, LogOf, Before;
      var recent := RecentOf(replays, p.source);
      order, sources, pending, captureID, replays, run :=
        Joined(order, p.source), sources[p.source := source], pending + queued, Some(p.captureID),
        replays[p.source := Remember(recent, p)], next;
      if discontinuity {
        reported := reported + [Gap.Gap(p.source, p.startMs)];
      }
    }

    /** What `accept` does with a packet whose sequence number is new: it goes in whole, or
        nothing changes. */
    method Admit(p: Packet) returns (outcome: Outcome)
      requires Valid() && !closed
      requires captureID.Some? ==> captureID == Some(p.captureID)
      requires |p.samples| > 0
      requires NewTo(run.history, p)
      modifies this
      ensures Valid()
      ensures old(ReplayAnswer(AcceptedOf(run.accepted, p.source), p).None?) ==> outcome == old(Verdict(cfg, View(), p))
      ensures View() == if outcome == Returned(false) then WithPacket(cfg, old(View()), p) else old(View())
      ensures outcome != Returned(true)
    {
      hide Sound, Recorded, Due, Heard, Represents, RecordOf, WithPacket, BufferedSeconds, Records;
      SoundRecorded(cfg, View());
      RecordedIsRecords(cfg, order, sources, run.history);
      var early := Press(p);
      if early.Some? {
        return Threw(early.value);
      }
      ghost var segments := Heard(Before(View(), p), p);
      var discontinuity, source, queued := Stage(cfg, sources, p, Before(View(), p));
      RecordedUpdate(cfg, order, sources, run.history, p.source, source, segments);
      var fits := Fitting(cfg, p.captureID, Joined(order, p.source), sources[p.source := source],
                          pending + queued, run.history[p.source := segments]);
      if !fits {
        return Threw(Backpressure);
      }
      RecordIsUnique(cfg, source, Last(segments));
      PacketSound(cfg, View(), p);
      Commit(p, discontinuity, source, queued, WithPacket(cfg, View(), p));
      return Returned(false);
    }

    method Accept(input: Input) returns (outcome: Outcome)
      requires Valid()
      modifies this
      ensures Valid()
      ensures old(closing || closed) ==> outcome == Threw(ClosedToInput)
      ensures !old(closing || closed) && Validate(old(captureID), input).None? ==> outcome == Threw(InvalidInput)
      ensures !old(closing || closed) && Validate(old(captureID), input).Some? ==>
                outcome == old(Verdict(cfg, View(), Validate(captureID, input).value))
      ensures outcome != Returned(false) ==> View() == old(View())
      ensures outcome == Returned(false) ==>
                View() == WithPacket(cfg, old(View()), Validate(old(captureID), input).value)
    {
      hide Sound, Spare, Room, OnTime, ReplayAnswer, WithPacket;
      SoundRecorded(cfg, View());
      if closed || closing {
        return Threw(ClosedToInput);
      }
      var validated := Validate(captureID, input);
      if validated.None? {
        return Threw(InvalidInput);
      }
      var p := validated.value;
      var early := Replay(p);
      if early.Some? {
        return early.value;
      }
      outcome := Admit(p);
    }

    /** The head chunk is dealt with: `shift` and the count of seconds, unless it failed. */
    method Deal(step: Step)
      requires Valid() && pending != [] && (step.Skipped? <==> Quiet(cfg, pending[0]))
      modifies this`pending, this`processedSeconds, this`run, this`running
      ensures Valid() && View() == AfterStep(old(View()), step).(running := Settling)
      ensures !step.Failed? ==> |pending| < old(|pending|)
    {
      hide Sound, Quiet, Left;
      StepSound(cfg, View(), step);
      run := run.(journal := run.journal + [Attempt(Left(run.journal), step)]);
      if !step.Failed? {
        processedSeconds := processedSeconds + pending[0].seconds;
        pending := pending[1..];
      }
      running := Settling;
    }

    /** `process` up to its next await: silent chunks leave at once, a chunk with speech is
        offered and stays at the head until its callback settles. */
    method Advance()
      requires Valid() && !running.Awaiting?
      modifies this`pending, this`processedSeconds, this`run, this`running
      ensures Valid()
      ensures running == if pending != [] then Awaiting else Settling
      ensures Skips(old(View()), View()) && |pending| <= |old(pending)|
    {
      hide Sound, Quiet, AfterStep, Skips;
      PhaseSound(cfg, View(), Settling);
      SkipsNothing(View());
      running := Settling;
      while pending != [] && Quiet(cfg, pending[0])
        invariant Valid() && running.Settling?
        invariant Skips(old(View()), View()) && |pending| <= |old(pending)|
        decreases |pending|
      {
        SkipsOne(old(View()), View());
        Deal(Skipped);
      }
      if pending != [] {
        PhaseSound(cfg, View(), Awaiting);
        SkipsPhase(old(View()), View(), Awaiting);
        running := Awaiting;
      }
    }

    method Drain(retry: bool) returns (reply: DrainReply)
      requires Valid()
      modifies this`pending, this`processedSeconds, this`run, this`running, this`error
      ensures Valid()
      ensures reply == if !old(running.Idle?) then AlreadyRunning
                       else if old(closed) then Resolved
                       else if old(error).Some? && !retry then Rejected
                       else Started
      ensures reply != Started ==> View() == old(View())
      ensures reply == Started ==>
                && Skips(old(View()).(error := None), View()) && |pending| <= |old(pending)|
                && running == if pending != [] then Awaiting else Settling
    {
      hide Sound, Skips;
      if !running.Idle? {
        return AlreadyRunning;
      }
      if closed {
        return Resolved;
      }
      if error.Some? && !retry {
        return Rejected;
      }
      FlagsSound(cfg, View(), None, closing);
      error := None;
      Advance();
      return Started;
    }

    /** The awaited `onChunk` rejects. */
    method ChunkFailed(reason: string)
      requires Valid() && running.Awaiting?
      modifies this`pending, this`processedSeconds, this`run, this`running, this`error
      ensures old(pending) != []
      ensures Valid() && View() == AfterStep(old(View()), Failed).(running := Settling, error := Some(reason))
    {
      hide Sound, Quiet, AfterStep;
      AwaitingHasHead(cfg, View());
      FlagsSound(cfg, View(), Some(reason), closing);
      FailedStepKeepsError(View(), Some(reason));
      error := Some(reason);
      Deal(Failed);
    }

    /** The awaited `onChunk` resolves, and the loop goes on. */
    method ChunkDone()
      requires Valid() && running.Awaiting?
      modifies this`pending, this`processedSeconds, this`run, this`running
      ensures old(pending) != []
      ensures Valid() && Skips(AfterStep(old(View()), Consumed).(running := Settling), View())
      ensures running == if pending != [] then Awaiting else Settling
    {
      hide Sound, Quiet, AfterStep, Skips;
      AwaitingHasHead(cfg, View());
      Deal(Consumed);
      Advance();
    }

    /** The `finally` of `drain`. */
    method Cleared()
      requires Valid() && running.Settling?
      modifies this`running
      ensures Valid() && View() == old(View()).(running := Idle)
    {
      hide Sound;
      PhaseSound(cfg, View(), Idle);
      running := Idle;
    }

    /** The synchronous middle of `flush`. */
    method Finalize()
      requires Valid()
      modifies this`sources, this`pending, this`run
      ensures Valid() && View() == AllFinalized(cfg, old(View()))
    {
      hide Sound, Recorded, Represents, OwedAll, CloseAll, Records;
      SoundRecorded(cfg, View());
      FinalizeSound(cfg, View());
      var id := if captureID.Some? then captureID.value else "";
      CaptureOfOwed(cfg, View(), id);
      var finalized, queued := FinishAll(cfg, id, order, sources, run.history);
      RecordedIsRecords(cfg, order, finalized, CloseAll(run.history, order));
      run := AllFinalized(cfg, View());
      sources := finalized;
      pending := pending + queued;
    }

    method BeginClose()
      requires Valid()
      modifies this`closing
      ensures Valid() && View() == old(View()).(closing := closing) && closing == (old(closing) || !old(closed))
    {
      hide Sound;
      FlagsSound(cfg, View(), error, true);
      if !closed {
        closing := true;
      }
    }

    /** What `close` does after its `flush` has resolved, and so has finalized every source. */
    method EndClose()
      requires Valid() && closing && forall name :: name in sources ==> sources[name].finalized
      modifies this`order, this`sources, this`replays, this`captureID, this`closed
      ensures Valid() && View() == Shut(old(View()))
    {
      hide Sound;
      FinalizedIsOver(cfg, View());
      ShutSound(cfg, View());
      order, sources, replays := [], map[], map[];
      captureID, closed := None, true;
    }
  }

  /** `new AudioProcessor(options)`: null where the constructor throws. */
  method Create(o: Options, kernel: Kernel, silent: seq<Sample> -> bool) returns (p: AudioProcessor?)
    ensures p != null <==> Acceptable(o)
    ensures p != null ==>
              fresh(p) && p.Valid() && p.View() == Start() && Some(p.cfg) == Configure(o, kernel, silent)
  {
    var cfg := Configure(o, kernel, silent);
    hide Sound, Configure, Acceptable;
    match cfg {
      case None => p := null;
      case Some(good) => p := new AudioProcessor(good);
    }
  }
}
