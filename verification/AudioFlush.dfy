/** `flush` and `close` as whole calls: when they leave nothing behind. */
module AudioFlush {
  import opened Wrappers
  import opened Segments
  import opened Streaming
  import opened AudioHistory
  import opened Admission
  import opened AudioLog
  import opened AudioState
  import opened Audio
  import opened AudioTheorems

  /** The end of `flush`: every source is finalized, `drain` is called, and its promise awaited,
      with anything happening until the last callback settles.  When it does without a failure,
      chunks still wait exactly if the promise was that of a loop already over: it does not look
      at what was queued since. */
  method FlushTail(p: AudioProcessor, during: seq<Event>) returns (reply: DrainReply, failed: bool)
    requires p.Valid() && !p.closed
    modifies p
    ensures p.Valid()
    ensures reply == if !old(p.running.Idle?) then AlreadyRunning else if old(p.error).Some? then Rejected else Started
    ensures reply != Rejected && !failed && !p.running.Awaiting? ==>
              (p.pending != [] <==> old(p.running.Settling? && AllFinalized(p.cfg, p.View()).pending != []))
  {
    SoundRecorded(p.cfg, p.View());
    hide Sound;
    ghost var late := p.running.Settling? && AllFinalized(p.cfg, p.View()).pending != [];
    p.Finalize();
    reply := p.Drain(false);
    failed := false;
    for i := 0 to |during|
      invariant p.Valid()
      invariant reply != Rejected && !failed && !p.running.Awaiting? ==> (p.pending != [] <==> late)
      invariant late ==> !p.running.Awaiting?
    {
      if failed || !p.running.Awaiting? {
        return;
      }
      failed := during[i].ChunkFailed?;
      Handle(p, during[i]);
    }
  }

  /** What is waiting when a processor has closed and no callback is outstanding waits for good. */
  method ClosedForGood(p: AudioProcessor, events: seq<Event>)
    requires p.Valid() && p.closed && !p.running.Awaiting?
    modifies p
    ensures p.Valid() && p.closed && !p.running.Awaiting?
    ensures p.pending == old(p.pending) && p.processedSeconds == old(p.processedSeconds)
  {
    hide Sound;
    for i := 0 to |events|
      invariant p.Valid() && p.closed && !p.running.Awaiting?
      invariant p.pending == old(p.pending) && p.processedSeconds == old(p.processedSeconds)
    {
      Handle(p, events[i]);
    }
  }

  /** The same sources owe the same, and the same chunks wait. */
  ghost predicate SameDebt(st: State, now: State) {
    now.order == st.order && now.history == st.history && now.capture == st.capture && now.pending == st.pending
  }

  /** A drain that finds nothing to do is over at once. */
  method DrainNothing(p: AudioProcessor)
    requires p.Valid() && !p.closed && p.running.Idle? && p.error.None? && p.pending == []
    modifies p
    ensures p.Valid() && p.running.Settling? && p.error.None?
    ensures p.closed == old(p.closed) && p.closing == old(p.closing)
    ensures SameDebt(old(p.View()), p.View())
  {
    hide Sound;
    var _ := p.Drain(false);
  }

  /** Two callers share a drain that ends with nothing to do, and one of them drains once more
      before the `flush` of `close` goes on: what that still owes is queued and stays. */
  method Strand(p: AudioProcessor)
    requires p.Valid() && !p.closed && p.running.Idle? && p.error.None? && p.pending == []
    requires AllFinalized(p.cfg, p.View()).pending != []
    modifies p
    ensures p.Valid() && p.closed && p.running.Idle?
    ensures p.pending == old(AllFinalized(p.cfg, p.View()).pending) != []
  {
    hide Sound;
    ghost var st := p.View();
    p.BeginClose();
    DrainNothing(p);
    p.Cleared();
    DrainNothing(p);
    StrandEnds(p, st);
  }

  method StrandEnds(p: AudioProcessor, ghost st: State)
    requires p.Valid() && !p.closed && p.closing && p.running.Settling?
    requires Sound(p.cfg, st) && SameDebt(st, p.View())
    modifies p
    ensures p.Valid() && p.closed && p.running.Idle? && p.pending == AllFinalized(p.cfg, st).pending
  {
    SoundRecorded(p.cfg, st);
    hide Sound, SameDebt, AllFinalized, WellFormed, Recorded, Represents;
    FinalizeAll(p, st);
    var _ := p.Drain(false);
    p.Cleared();
    p.EndClose();
  }

  method FinalizeAll(p: AudioProcessor, ghost st: State)
    requires p.Valid() && Finalizable(p.cfg, st) && SameDebt(st, p.View())
    modifies p
    ensures p.Valid() && p.pending == AllFinalized(p.cfg, st).pending
    ensures forall name :: name in p.sources ==> p.sources[name].finalized
    ensures p.running == old(p.running) && p.closing == old(p.closing) && p.closed == old(p.closed)
  {
    SoundRecorded(p.cfg, p.View());
    FinalizedSame(p.cfg, st, p.View());
    AllFinished(p.cfg, p.View());
    hide Sound, SameDebt, AllFinalized, WellFormed, Recorded, Represents;
    p.Finalize();
  }

  ghost predicate Finalizable(cfg: Config, st: State) {
    cfg.Legal() && WellFormed(st.history) && forall name :: name in st.order ==> name in st.history
  }

  /** Finalizing queues what the sources owe. */
  lemma FinalizedSame(cfg: Config, st: State, now: State)
    requires Finalizable(cfg, st) && Finalizable(cfg, now) && SameDebt(st, now)
    ensures AllFinalized(cfg, now).pending == AllFinalized(cfg, st).pending
  {
    hide WellFormed, OwedAll, CloseAll, Records, EndAll;
  }

  /** It leaves every source finished. */
  lemma AllFinished(cfg: Config, st: State)
    requires Finalizable(cfg, st)
    ensures var sources := AllFinalized(cfg, st).sources;
            forall name :: name in sources ==> sources[name].finalized
  {
    hide OwedAll, EndAll, WellFormed, RecordOf;
    var history := CloseAll(st.history, st.order);
    forall name | name in st.order
      ensures RecordOf(cfg, Last(history[name])).finalized
    {
      RecordTellsEnd(cfg, RecordOf(cfg, Last(history[name])), Last(history[name]));
    }
  }
}
