/** `MeetingIntelligence.review`: one write to a knowledge source that cannot be repeated safely,
    interleaved with everything else that changes a proposal.

    A method of the class runs from one `await` to the next.  Any of them may come next, for any
    proposal; the process may stop between two of them; every write to the store may fail. */
module Review {
  import opened Wrappers

  type ID = nat

  datatype Status = Pending | Approved | Rejected | Stale | Applying | Applied | Uncertain | FailedReview | Manual

  /** What stays the same for the life of a proposal. */
  datatype Draft = Draft(server: string, target: string, expectedRevision: string, existingContent: string,
                         suggestedContent: string)

  datatype Proposal = Proposal(draft: Draft, status: Status)

  datatype Document = Document(id: string, revision: string, content: string)

  datatype Reference = Reference(server: string, target: string, revision: string)

  /** The detail of an approval is a hash of the revision and the content it was given for. */
  datatype Approval = Approval(target: ID, approve: bool, revision: string, content: string)

  /** Where a review waits: for the tool list, for the document, for the tool list again before
      the write, for the write itself, for the document it wrote. */
  datatype Phase = Checking | Reading | Opening | Writing | ReadingBack

  /** What happens to one proposal, as an outsider sees it: a decision stored, a document
      received, a write sent. */
  datatype Step =
    | Decided(approve: bool, revision: string, content: string)
    | Seen(document: Document)
    | Sent(target: string, content: string, revision: string)

  predicate Reviewable(status: Status) {
    status in {Pending, Manual, FailedReview}
  }

  predicate Matching(draft: Draft, document: Document) {
    document == Document(draft.target, draft.expectedRevision, draft.existingContent)
  }

  predicate Written(draft: Draft, document: Document) {
    && document.id == draft.target && document.content == draft.suggestedContent
    && document.revision != draft.expectedRevision
  }

  // ---- what the history of one proposal looks like --------------------------------------

  predicate Consented(draft: Draft, history: seq<Step>) {
    history != [] && history[|history| - 1] == Decided(true, draft.expectedRevision, draft.suggestedContent)
  }

  predicate Matched(draft: Draft, history: seq<Step>) {
    && history != []
    && history[|history| - 1] == Seen(Document(draft.target, draft.expectedRevision, draft.existingContent))
    && Consented(draft, history[..|history| - 1])
  }

  /** Write number `k` directly follows a matching read, which directly follows an approval. */
  predicate Justified(draft: Draft, history: seq<Step>, k: nat)
    requires k < |history|
  {
    && history[k] == Sent(draft.target, draft.suggestedContent, draft.expectedRevision)
    && Matched(draft, history[..k])
  }

  /** Every write is justified, and nothing follows it but one read. */
  ghost predicate Legal(draft: Draft, history: seq<Step>) {
    forall k :: 0 <= k < |history| && history[k].Sent? ==>
      Justified(draft, history, k) && |history| <= k + 2 && (k + 1 < |history| ==> history[k + 1].Seen?)
  }

  ghost predicate Tried(history: seq<Step>) {
    exists k :: 0 <= k < |history| && history[k].Sent?
  }

  predicate JustTried(history: seq<Step>) {
    history != [] && history[|history| - 1].Sent?
  }

  predicate Confirmed(draft: Draft, history: seq<Step>) {
    && history != [] && history[|history| - 1].Seen? && Written(draft, history[|history| - 1].document)
    && JustTried(history[..|history| - 1])
  }

  /** A proposal, the review that is under way on it, and what has happened to it. */
  ghost predicate Honest(proposal: Proposal, phase: Option<Phase>, history: seq<Step>) {
    && Legal(proposal.draft, history)
    && (Tried(history) ==> proposal.status in {Applying, Applied, Uncertain})
    && (proposal.status == Applied ==> Confirmed(proposal.draft, history))
    && (phase.Some? ==> InPhase(proposal, phase.value, history))
  }

  /** A refusal is the last thing that happens to a proposal, and the proposal is rejected exactly
      when it happened. */
  ghost predicate Firm(status: Status, history: seq<Step>) {
    && (forall k :: 0 <= k < |history| && history[k].Decided? && !history[k].approve ==>
          k == |history| - 1 && status == Rejected)
    && (status == Rejected ==>
          history != [] && history[|history| - 1].Decided? && !history[|history| - 1].approve)
  }

  /** Short of a refusal, any step but one leaves a history firm, and so does any status. */
  lemma {:induction false} FirmSnoc(was: Status, status: Status, history: seq<Step>, step: Step)
    requires Firm(was, history) && was != Rejected
    requires status == Rejected <==> step.Decided? && !step.approve
    ensures Firm(status, history + [step])
  {
    var more := history + [step];
    assert more[|history|] == step;
    forall k | 0 <= k < |history|
      ensures !(more[k].Decided? && !more[k].approve)
    {
      assert more[k] == history[k];
    }
  }

  lemma FirmStatus(was: Status, status: Status, history: seq<Step>)
    requires Firm(was, history) && was != Rejected && status != Rejected
    ensures Firm(status, history)
  {
  }

  predicate InPhase(proposal: Proposal, phase: Phase, history: seq<Step>) {
    match phase
    case Checking => proposal.status in {Approved, Stale} && Consented(proposal.draft, history)
    case Reading => proposal.status in {Approved, Stale} && Consented(proposal.draft, history)
    case Opening => proposal.status == Applying && Matched(proposal.draft, history)
    case Writing => proposal.status == Applying && JustTried(history)
    case ReadingBack => proposal.status == Applying && JustTried(history)
  }

  /** Behind a write there is at most one step, and it is a read. */
  lemma BehindSent(draft: Draft, history: seq<Step>, i: nat, j: nat)
    requires Legal(draft, history) && i < j < |history| && history[i].Sent?
    ensures j == i + 1 && history[j].Seen?
  {
    assert Justified(draft, history, i);
  }

  lemma OneSent(draft: Draft, history: seq<Step>, i: nat, j: nat)
    requires Legal(draft, history) && i < |history| && j < |history| && history[i].Sent? && history[j].Sent?
    ensures i == j
  {
    if i < j {
      BehindSent(draft, history, i, j);
    } else if j < i {
      BehindSent(draft, history, j, i);
    }
  }

  lemma SentIsNotReady(draft: Draft, history: seq<Step>, k: nat)
    requires Legal(draft, history) && k < |history| && history[k].Sent?
    ensures !Consented(draft, history) && !Matched(draft, history)
  {
    var n := |history|;
    if k < n - 1 {
      BehindSent(draft, history, k, n - 1);
      assert history[..n - 1][n - 2] == history[k];
    }
  }

  lemma NotTried(draft: Draft, history: seq<Step>)
    requires Legal(draft, history) && (Consented(draft, history) || Matched(draft, history))
    ensures !Tried(history)
  {
    forall k | 0 <= k < |history|
      ensures !history[k].Sent?
    {
      if history[k].Sent? {
        SentIsNotReady(draft, history, k);
      }
    }
  }

  lemma LegalSnoc(draft: Draft, history: seq<Step>, step: Step)
    requires Legal(draft, history) && !Tried(history)
    requires step.Sent? ==>
               step == Sent(draft.target, draft.suggestedContent, draft.expectedRevision) && Matched(draft, history)
    ensures Legal(draft, history + [step]) && (Tried(history + [step]) <==> step.Sent?)
  {
    var more := history + [step];
    assert more[..|history|] == history && more[|history|] == step;
    assert forall k :: 0 <= k < |history| ==> more[k] == history[k];
    assert forall k :: 0 <= k < |history| ==> !history[k].Sent?;
    assert step.Sent? ==> more[|history|].Sent?;
  }

  lemma LegalReadBack(draft: Draft, history: seq<Step>, document: Document)
    requires Legal(draft, history) && JustTried(history)
    ensures var more := history + [Seen(document)];
            Legal(draft, more) && Tried(more) && (Written(draft, document) ==> Confirmed(draft, more))
  {
    var n := |history|;
    var more := history + [Seen(document)];
    assert more[n - 1] == history[n - 1] && more[..n] == history;
    forall k | 0 <= k < |more| && more[k].Sent?
      ensures Justified(draft, more, k) && |more| <= k + 2 && (k + 1 < |more| ==> more[k + 1].Seen?)
    {
      assert history[k].Sent?;
      OneSent(draft, history, k, n - 1);
      assert Justified(draft, history, k);
    }
  }

  // ---- what that means ------------------------------------------------------------------

  /** The write to the knowledge source is sent at most once. */
  lemma AtMostOnce(proposal: Proposal, phase: Option<Phase>, history: seq<Step>, i: nat, j: nat)
    requires Honest(proposal, phase, history)
    requires i < |history| && j < |history| && history[i].Sent? && history[j].Sent?
    ensures i == j
  {
    OneSent(proposal.draft, history, i, j);
  }

  /** It is sent with the approved content, right after an approval of just that content for just
      that revision, which is in the store, and a read that found just that revision. */
  lemma OnlyWhatWasApproved(proposal: Proposal, phase: Option<Phase>, history: seq<Step>, k: nat)
    requires Honest(proposal, phase, history) && k < |history| && history[k].Sent?
    ensures var draft := proposal.draft;
            && k >= 2
            && history[k - 2] == Decided(true, draft.expectedRevision, draft.suggestedContent)
            && history[k - 1] == Seen(Document(draft.target, draft.expectedRevision, draft.existingContent))
            && history[k] == Sent(draft.target, draft.suggestedContent, draft.expectedRevision)
    ensures forall id, approvals :: Recorded(id, history, approvals) ==> Verdict(id, true, proposal.draft) in approvals
  {
    assert Justified(proposal.draft, history, k);
    assert history[..k][k - 1] == history[k - 1];
    assert history[..k][..k - 1][k - 2] == history[k - 2];
    assert history[k - 2].Decided?;
  }

  /** A proposal that may be reviewed again, or was refused or overtaken, was never written. */
  lemma NothingWasSent(proposal: Proposal, phase: Option<Phase>, history: seq<Step>, k: nat)
    requires Honest(proposal, phase, history) && k < |history|
    requires proposal.status !in {Applying, Applied, Uncertain}
    ensures !history[k].Sent?
  {
  }

  /** `applied` means that the one write was sent and the approved content read back, under a
      new revision. */
  lemma AppliedMeans(proposal: Proposal, phase: Option<Phase>, history: seq<Step>)
    requires Honest(proposal, phase, history) && proposal.status == Applied
    ensures var n, draft := |history|, proposal.draft;
            && n >= 4
            && history[n - 2] == Sent(draft.target, draft.suggestedContent, draft.expectedRevision)
            && history[n - 1].Seen?
            && history[n - 1].document.id == draft.target
            && history[n - 1].document.content == draft.suggestedContent
            && history[n - 1].document.revision != draft.expectedRevision
  {
    var n := |history|;
    assert history[..n - 1][n - 2] == history[n - 2];
    OnlyWhatWasApproved(proposal, phase, history, n - 2);
  }

  /** While a review is under way its proposal cannot be reviewed, so that the set of proposals
      being written never has to turn a review away. */
  lemma UnderWayIsNotReviewable(proposal: Proposal, phase: Option<Phase>, history: seq<Step>)
    requires Honest(proposal, phase, history) && phase.Some?
    ensures !Reviewable(proposal.status)
  {
  }

  /** A refusal is final: nothing happens to the proposal any more, and nothing was ever written. */
  lemma RefusalIsFinal(id: ID, proposal: Proposal, phase: Option<Phase>, history: seq<Step>, approvals: seq<Approval>,
                       k: nat)
    requires SoundOne(id, proposal, phase, history, approvals)
    requires k < |history| && history[k].Decided? && !history[k].approve
    ensures k == |history| - 1 && proposal.status == Rejected && phase.None?
    ensures forall j :: 0 <= j < |history| ==> !history[j].Sent?
  {
  }

  // ---- all proposals together -------------------------------------------------------------

  type Proposals = map<ID, Proposal>

  type Reviews = map<ID, (Draft, Phase)>

  type Histories = map<ID, seq<Step>>

  /** A decision, as it is stored and as it happened. */
  function Verdict(id: ID, approve: bool, draft: Draft): Approval {
    Approval(id, approve, draft.expectedRevision, draft.suggestedContent)
  }

  function Decision(approve: bool, draft: Draft): Step {
    Decided(approve, draft.expectedRevision, draft.suggestedContent)
  }

  function PhaseOf(reviews: Reviews, id: ID): Option<Phase> {
    if id in reviews then Some(reviews[id].1) else None
  }

  /** Every decision in the history is in the store. */
  ghost predicate Recorded(id: ID, history: seq<Step>, approvals: seq<Approval>) {
    forall k :: 0 <= k < |history| && history[k].Decided? ==>
      Approval(id, history[k].approve, history[k].revision, history[k].content) in approvals
  }

  ghost predicate Sound(proposals: Proposals, approvals: seq<Approval>, reviews: Reviews,
                        histories: Histories)
  {
    && reviews.Keys <= proposals.Keys && histories.Keys == proposals.Keys
    && (forall id :: id in reviews ==> reviews[id].0 == proposals[id].draft)
    && (forall id :: id in proposals ==> SoundOne(id, proposals[id], PhaseOf(reviews, id), histories[id], approvals))
  }

  ghost predicate SoundOne(id: ID, proposal: Proposal, phase: Option<Phase>, history: seq<Step>,
                           approvals: seq<Approval>) {
    Honest(proposal, phase, history) && Recorded(id, history, approvals) && Firm(proposal.status, history)
  }

  function With(reviews: Reviews, id: ID, draft: Draft, phase: Option<Phase>): Reviews {
    match phase
    case Some(at) => reviews[id := (draft, at)]
    case None => reviews - {id}
  }

  /** One proposal changes, and stays honest: so do they all. */
  lemma OneChanges(proposals: Proposals, approvals: seq<Approval>, reviews: Reviews, histories: Histories,
                   id: ID, next: Proposal, phase: Option<Phase>, history: seq<Step>, more: seq<Approval>)
    requires Sound(proposals, approvals, reviews, histories)
    requires id in proposals ==> next.draft == proposals[id].draft
    requires SoundOne(id, next, phase, history, approvals + more)
    ensures Sound(proposals[id := next], approvals + more, With(reviews, id, next.draft, phase),
                  histories[id := history])
  {
    hide Honest;
    var after := With(reviews, id, next.draft, phase);
    forall other | other in proposals && other != id
      ensures SoundOne(other, proposals[other], PhaseOf(after, other), histories[other], approvals + more)
    {
      assert SoundOne(other, proposals[other], PhaseOf(reviews, other), histories[other], approvals);
    }
  }

  /** The proposals in `ids` take a status. */
  function Marked(proposals: Proposals, ids: set<ID>, status: Status): Proposals {
    map id | id in proposals :: if id in ids then proposals[id].(status := status) else proposals[id]
  }

  lemma MarkedSound(proposals: Proposals, approvals: seq<Approval>, reviews: Reviews, histories: Histories,
                    ids: set<ID>, status: Status)
    requires Sound(proposals, approvals, reviews, histories)
    requires forall id :: id in ids && id in proposals ==>
               && Honest(proposals[id].(status := status), PhaseOf(reviews, id), histories[id])
               && Firm(status, histories[id])
    ensures Sound(Marked(proposals, ids, status), approvals, reviews, histories)
  {
    hide Honest, Firm;
  }

  lemma Restarted(proposals: Proposals, approvals: seq<Approval>, reviews: Reviews, histories: Histories)
    requires Sound(proposals, approvals, reviews, histories)
    ensures Sound(proposals, approvals, map[], histories)
  {
  }

  /** The status a review ends with when it does not get to its write. */
  function Last(was: Status, status: Option<Status>): Status {
    match status
    case Some(last) => last
    case None => if was == Approved then FailedReview else was
  }

  class MeetingIntelligence {
    /** The configured servers; true for those with a writer. */
    const bindings: map<string, bool>
    /** The store can always be written. */
    const durable: bool

    // the store
    var proposals: Proposals
    var approvals: seq<Approval>

    // the process
    var writing: set<ID>
    var reviews: Reviews

    ghost var histories: Histories

    ghost predicate Valid()
      reads this
    {
      writing == reviews.Keys && Sound(proposals, approvals, reviews, histories)
    }

    constructor (bindings: map<string, bool>, durable: bool)
      ensures Valid() && proposals == map[] && approvals == [] && this.bindings == bindings && this.durable == durable
    {
      this.bindings, this.durable := bindings, durable;
      proposals, approvals, writing, reviews, histories := map[], [], {}, map[], map[];
    }

    // ---- the store and the knowledge source ---------------------------------------------

    method StoreWorks() returns (ok: bool)
      ensures durable ==> ok
    {
      var works: bool := *;
      return works || durable;
    }

    predicate HasWriter(draft: Draft) {
      draft.server in bindings && bindings[draft.server]
    }

    /** A write to the store happens or throws. */
    method Put(id: ID, draft: Draft, status: Status) returns (ok: bool)
      modifies this`proposals
      ensures proposals == if ok then old(proposals)[id := Proposal(draft, status)] else old(proposals)
      ensures durable ==> ok
    {
      ok := StoreWorks();
      if ok {
        proposals := proposals[id := Proposal(draft, status)];
      }
    }

    /** The decision and the status it leads to are stored together. */
    method Decide(id: ID, draft: Draft, approve: bool) returns (ok: bool)
      requires id in histories
      modifies this`proposals, this`approvals, this`histories
      ensures !ok ==> proposals == old(proposals) && approvals == old(approvals) && histories == old(histories)
      ensures ok ==>
                && proposals == old(proposals)[id := Proposal(draft, if approve then Approved else Rejected)]
                && approvals == old(approvals) + [Verdict(id, approve, draft)]
                && histories == old(histories)[id := old(histories)[id] + [Decision(approve, draft)]]
      ensures durable ==> ok
    {
      ok := StoreWorks();
      if ok {
        approvals := approvals + [Verdict(id, approve, draft)];
        proposals := proposals[id := Proposal(draft, if approve then Approved else Rejected)];
        histories := histories[id := histories[id] + [Decision(approve, draft)]];
      }
    }

    /** A document arrives. */
    method Receive(id: ID, document: Document)
      requires id in histories
      modifies this`histories
      ensures histories == old(histories)[id := old(histories)[id] + [Seen(document)]]
    {
      histories := histories[id := histories[id] + [Seen(document)]];
    }

    /** The write leaves for the knowledge source. */
    method Send(id: ID, target: string, content: string, revision: string)
      requires id in histories
      modifies this`histories
      ensures histories == old(histories)[id := old(histories)[id] + [Sent(target, content, revision)]]
    {
      histories := histories[id := histories[id] + [Sent(target, content, revision)]];
    }

    // ---- ways out of a review -------------------------------------------------------------

    /** The finally block, once the proposal is left in a state that needs no review. */
    method End(id: ID)
      requires id in writing && writing == reviews.Keys + {id}
      modifies this`writing, this`reviews
      ensures writing == old(writing) - {id} == reviews.Keys
      ensures reviews == old(reviews) - {id}
    {
      writing, reviews := writing - {id}, reviews - {id};
    }

    /** The catch block around a whole review: an approval that was not used is marked. */
    method Abandon(id: ID, draft: Draft)
      requires id in proposals && proposals[id].draft == draft
      modifies this`proposals
      ensures proposals == old(proposals) || proposals == old(proposals)[id := Proposal(draft, FailedReview)]
      ensures proposals != old(proposals) ==> old(proposals)[id].status == Approved
      ensures durable && old(proposals)[id].status == Approved ==>
                proposals == old(proposals)[id := Proposal(draft, FailedReview)]
    {
      if proposals[id].status == Approved {
        var ok := Put(id, draft, FailedReview);
      }
    }

    /** A last status for this review; if that cannot be stored, the catch block's. */
    method Close(id: ID, draft: Draft, status: Status)
      requires id in proposals && proposals[id].draft == draft
      modifies this`proposals
      ensures id in proposals && proposals == old(proposals)[id := Proposal(draft, proposals[id].status)]
      ensures proposals[id].status in {status, FailedReview, old(proposals)[id].status}
      ensures proposals[id].status == FailedReview ==>
                FailedReview in {status, old(proposals)[id].status} || old(proposals)[id].status == Approved
      ensures durable ==> proposals[id].status == status
    {
      var ok := Put(id, draft, status);
      if !ok {
        Abandon(id, draft);
      }
    }

    // ---- from one await to the next -----------------------------------------------------------

    /** A decision arrives. */
    method Begin(id: ID, approve: bool) returns (accepted: bool)
      requires Valid()
      modifies this`proposals, this`approvals, this`writing, this`reviews, this`histories
      ensures Valid()
      ensures accepted ==> id in old(proposals) && old(proposals)[id].status in {Pending, Manual, FailedReview}
      ensures !accepted ==> proposals == old(proposals) && approvals == old(approvals) && reviews == old(reviews)
      ensures accepted ==>
                && id in proposals
                && proposals == old(proposals)[id := Proposal(old(proposals)[id].draft, proposals[id].status)]
                && (!approve ==> proposals[id].status == Rejected)
                && (approve ==> proposals[id].status in {Approved, Manual, FailedReview})
                && (approve && HasWriter(proposals[id].draft) ==> proposals[id].status == Approved)
                && (approve && durable && !HasWriter(proposals[id].draft) ==> proposals[id].status == Manual)
                && approvals == old(approvals)
                     + [Verdict(id, approve, proposals[id].draft)]
      ensures accepted ==>
                var draft := proposals[id].draft;
                reviews == if approve && draft.server in bindings && bindings[draft.server]
                           then old(reviews)[id := (draft, Checking)] else old(reviews)
      ensures durable && id in old(proposals) && old(proposals)[id].status in {Pending, Manual, FailedReview} ==>
                accepted
    {
      ReviewableIsNotUnderWay(id);
      if id !in proposals || !Reviewable(proposals[id].status) || id in writing {
        return false;
      }
      var draft := proposals[id].draft;
      ghost var was, decisions, under, past := proposals, approvals, reviews, histories;
      Kept(id);
      hide *;
      writing := writing + {id};
      accepted := Decide(id, draft, approve);
      if !accepted {
        writing := writing - {id};
        return;
      }
      DecidedSound(was, decisions, under, past, id, approve);
      if approve {
        Dispatch(id, draft);
        Twice(was, id, Proposal(draft, Approved), proposals[id]);
      } else {
        End(id);
        NoReview(under, id);
      }
    }

    /** An approved proposal is left to a human when its server has no writer. */
    method Dispatch(id: ID, draft: Draft)
      requires Sound(proposals, approvals, reviews, histories) && id !in reviews && writing == reviews.Keys + {id}
      requires id in proposals && proposals[id] == Proposal(draft, Approved) && Consented(draft, histories[id])
      modifies this`proposals, this`writing, this`reviews
      ensures Valid()
      ensures id in proposals && proposals == old(proposals)[id := Proposal(draft, proposals[id].status)]
      ensures HasWriter(draft) ==> proposals[id].status == Approved && reviews == old(reviews)[id := (draft, Checking)]
      ensures !HasWriter(draft) ==> proposals[id].status in {Approved, Manual, FailedReview} && reviews == old(reviews)
      ensures !HasWriter(draft) && durable ==> proposals[id].status == Manual
    {
      ghost var was, under := proposals, reviews;
      NoReview(under, id);
      assert was == was[id := Proposal(draft, Approved)];
      if !HasWriter(draft) {
        hide *;
        Quit(id, draft, Some(Manual));
      } else {
        CheckingSound(was, approvals, under, histories, id);
        hide *;
        reviews := reviews[id := (draft, Checking)];
      }
    }

    /** A review that never got to its write: the status it ends with, or the catch block's. */
    method Quit(id: ID, draft: Draft, status: Option<Status>)
      requires Sound(proposals, approvals, reviews - {id}, histories)
      requires id in writing && writing == reviews.Keys + {id}
      requires id in proposals && proposals[id].draft == draft && proposals[id].status in {Approved, Stale}
      requires status in {None, Some(Manual), Some(Stale)}
      modifies this`proposals, this`writing, this`reviews
      ensures Valid() && reviews == old(reviews) - {id}
      ensures id in proposals && proposals == old(proposals)[id := Proposal(draft, proposals[id].status)]
      ensures proposals[id].status in {FailedReview, old(proposals)[id].status} || Some(proposals[id].status) == status
      ensures durable ==> proposals[id].status == Last(old(proposals)[id].status, status)
    {
      ghost var was, under := proposals, reviews - {id};
      Unwritten(was, approvals, under, histories, id);
      NoReview(under, id);
      hide Sound, Legal, Tried, PhaseOf;
      match status {
        case Some(last) =>
          Close(id, draft, last);
        case None =>
          Abandon(id, draft);
          assert was[id := was[id]] == was;
      }
      End(id);
      StatusSound(was, approvals, under, histories, id, proposals[id].status, None);
    }

    /** A write that may or may not have happened is for a human to look into. */
    method Doubt(id: ID, draft: Draft)
      requires Sound(proposals, approvals, reviews - {id}, histories)
      requires id in writing && writing == reviews.Keys + {id}
      requires id in proposals && proposals[id].draft == draft && proposals[id].status in {Applying, Applied}
      modifies this`proposals, this`writing, this`reviews
      ensures Valid() && reviews == old(reviews) - {id}
      ensures proposals == old(proposals) || proposals == old(proposals)[id := Proposal(draft, Uncertain)]
      ensures durable ==> proposals == old(proposals)[id := Proposal(draft, Uncertain)]
    {
      ghost var was, under := proposals, reviews - {id};
      NoReview(under, id);
      StatusSound(was, approvals, under, histories, id, Uncertain, None);
      hide Sound;
      var ok := Put(id, draft, Uncertain);
      End(id);
    }

    /** The tool list is there, or failed: does the writer take a revision? */
    method ToolsSettled(id: ID, advertised: Option<bool>)
      requires Valid() && id in reviews && reviews[id].1 == Checking
      modifies this`proposals, this`writing, this`reviews
      ensures Valid()
      ensures advertised == Some(true) ==>
                proposals == old(proposals) && reviews == old(reviews)[id := (old(reviews)[id].0, Reading)]
      ensures advertised != Some(true) ==>
                && reviews == old(reviews) - {id} && id in proposals
                && proposals == old(proposals)[id := Proposal(old(proposals)[id].draft, proposals[id].status)]
                && proposals[id].status in {FailedReview, old(proposals)[id].status, Manual}
                && (proposals[id].status == Manual ==> advertised == Some(false))
                && (durable ==> proposals[id].status
                                == Last(old(proposals)[id].status, if advertised.None? then None else Some(Manual)))
    {
      var draft := reviews[id].0;
      Kept(id);
      Paused(id);
      MovedOn(id, Reading);
      hide Sound, Legal, Tried, PhaseOf;
      match advertised {
        case None => Quit(id, draft, None);
        case Some(capable) =>
          if capable {
            reviews := reviews[id := (draft, Reading)];
          } else {
            Quit(id, draft, Some(Manual));
          }
      }
    }

    /** The document is there, or failed to be read. */
    method ReadSettled(id: ID, document: Option<Document>)
      requires Valid() && id in reviews && reviews[id].1 == Reading
      modifies this`proposals, this`writing, this`reviews, this`histories
      ensures Valid()
      ensures id in proposals
              && proposals == old(proposals)[id := Proposal(old(proposals)[id].draft, proposals[id].status)]
      ensures var draft := old(proposals)[id].draft;
              if proposals[id].status == Applying then
                && document.Some? && Matching(draft, document.value)
                && reviews == old(reviews)[id := (draft, Opening)]
              else
                && reviews == old(reviews) - {id}
                && proposals[id].status in {FailedReview, old(proposals)[id].status, Stale}
                && (proposals[id].status == Stale && old(proposals)[id].status != Stale
                    ==> document.Some? && !Matching(draft, document.value))
      ensures durable ==>
                var was := old(proposals)[id];
                proposals[id].status == match document
                                        case None => Last(was.status, None)
                                        case Some(latest) => if Matching(was.draft, latest) then Applying else Stale
    {
      var draft := reviews[id].0;
      Kept(id);
      Paused(id);
      hide Sound, Legal, Tried, PhaseOf, Consented, Matched;
      match document {
        case None => Quit(id, draft, None);
        case Some(latest) =>
          SeenSound(proposals, approvals, reviews - {id}, histories, id, latest);
          Receive(id, latest);
          if Matching(draft, latest) {
            Open(id, draft);
          } else {
            Quit(id, draft, Some(Stale));
          }
      }
    }

    /** The proposal is marked as being written. */
    method Open(id: ID, draft: Draft)
      requires Sound(proposals, approvals, reviews - {id}, histories)
      requires id in writing && id in reviews && writing == reviews.Keys
      requires id in proposals && proposals[id].draft == draft && proposals[id].status in {Approved, Stale}
      requires Matched(draft, histories[id])
      modifies this`proposals, this`writing, this`reviews
      ensures Valid()
      ensures id in proposals && proposals == old(proposals)[id := Proposal(draft, proposals[id].status)]
      ensures if proposals[id].status == Applying then reviews == old(reviews)[id := (draft, Opening)]
              else reviews == old(reviews) - {id} && proposals[id].status in {FailedReview, old(proposals)[id].status}
      ensures durable ==> proposals[id].status == Applying
    {
      Unwritten(proposals, approvals, reviews - {id}, histories, id);
      StatusSound(proposals, approvals, reviews - {id}, histories, id, Applying, Some(Opening));
      hide Sound, Legal, Tried, PhaseOf, Consented, Matched;
      var ok := Put(id, draft, Applying);
      if ok {
        reviews := reviews[id := (draft, Opening)];
        Replaced(old(reviews), id, (draft, Opening));
      } else {
        Quit(id, draft, None);
      }
    }

    /** The tool list, once more: the write leaves only if the writer is still there. */
    method OpeningSettled(id: ID, available: bool)
      requires Valid() && id in reviews && reviews[id].1 == Opening
      modifies this`proposals, this`writing, this`reviews, this`histories
      ensures Valid()
      ensures available ==> proposals == old(proposals) && reviews == old(reviews)[id := (old(reviews)[id].0, Writing)]
      ensures !available ==>
                && reviews == old(reviews) - {id} && histories == old(histories)
                && (proposals == old(proposals)
                    || proposals == old(proposals)[id := Proposal(old(proposals)[id].draft, Uncertain)])
                && (durable ==> proposals == old(proposals)[id := Proposal(old(proposals)[id].draft, Uncertain)])
    {
      var draft := reviews[id].0;
      Kept(id);
      Paused(id);
      hide Sound, Legal, Tried, PhaseOf, Consented, Matched;
      if available {
        Issue(id, draft);
      } else {
        Doubt(id, draft);
      }
    }

    method Issue(id: ID, draft: Draft)
      requires Sound(proposals, approvals, reviews - {id}, histories)
      requires id in reviews && writing == reviews.Keys
      requires id in proposals && proposals[id] == Proposal(draft, Applying)
      requires id in histories && Matched(draft, histories[id])
      modifies this`reviews, this`histories
      ensures Valid() && reviews == old(reviews)[id := (draft, Writing)]
    {
      SentSound(proposals, approvals, reviews - {id}, histories, id);
      Replaced(reviews, id, (draft, Writing));
      hide *;
      Send(id, draft.target, draft.suggestedContent, draft.expectedRevision);
      reviews := reviews[id := (draft, Writing)];
    }

    /** The writer answered, or the call failed. */
    method WriteSettled(id: ID, ok: bool)
      requires Valid() && id in reviews && reviews[id].1 == Writing
      modifies this`proposals, this`writing, this`reviews
      ensures Valid()
      ensures ok ==> proposals == old(proposals) && reviews == old(reviews)[id := (old(reviews)[id].0, ReadingBack)]
      ensures !ok ==>
                && reviews == old(reviews) - {id}
                && (proposals == old(proposals)
                    || proposals == old(proposals)[id := Proposal(old(proposals)[id].draft, Uncertain)])
                && (durable ==> proposals == old(proposals)[id := Proposal(old(proposals)[id].draft, Uncertain)])
    {
      var draft := reviews[id].0;
      Kept(id);
      Paused(id);
      MovedOn(id, ReadingBack);
      hide Sound, Legal, Tried, PhaseOf;
      if ok {
        reviews := reviews[id := (draft, ReadingBack)];
      } else {
        Doubt(id, draft);
      }
    }

    /** The document is read back, or failed to be. */
    method ReadBackSettled(id: ID, document: Option<Document>)
      requires Valid() && id in reviews && reviews[id].1 == ReadingBack
      modifies this`proposals, this`writing, this`reviews, this`histories
      ensures Valid() && reviews == old(reviews) - {id}
      ensures id in proposals
              && proposals == old(proposals)[id := Proposal(old(proposals)[id].draft, proposals[id].status)]
              && proposals[id].status in {Applying, Applied, Uncertain}
      ensures proposals[id].status == Applied ==> document.Some? && Written(proposals[id].draft, document.value)
      ensures durable ==>
                var draft := proposals[id].draft;
                proposals[id].status
                == if && document.Some? && document.value.id == draft.target
                      && document.value.content == draft.suggestedContent
                      && document.value.revision != draft.expectedRevision
                   then Applied else Uncertain
    {
      var draft := reviews[id].0;
      ghost var was := proposals;
      Kept(id);
      Paused(id);
      assert was[id := was[id]] == was;
      hide Sound, Legal, Tried, PhaseOf, Confirmed, JustTried;
      if document.None? {
        Doubt(id, draft);
        return;
      }
      ReadBackSound(was, approvals, reviews - {id}, histories, id, document.value);
      Receive(id, document.value);
      if !Written(draft, document.value) {
        Doubt(id, draft);
        return;
      }
      Apply(id, draft);
    }

    /** The proposal is marked as applied, and the document kept as a reference. */
    method Apply(id: ID, draft: Draft)
      requires Sound(proposals, approvals, reviews - {id}, histories)
      requires id in writing && writing == reviews.Keys && id in histories
      requires id in proposals && proposals[id] == Proposal(draft, Applying) && Confirmed(draft, histories[id])
      modifies this`proposals, this`writing, this`reviews
      ensures Valid() && reviews == old(reviews) - {id}
      ensures id in proposals && proposals == old(proposals)[id := Proposal(draft, proposals[id].status)]
      ensures proposals[id].status in {Applying, Applied, Uncertain} && (durable ==> proposals[id].status == Applied)
    {
      ghost var was := proposals;
      NoReview(reviews - {id}, id);
      StatusSound(was, approvals, reviews - {id}, histories, id, Applied, None);
      assert was[id := was[id]] == was;
      hide Sound, PhaseOf, Confirmed;
      var ok := Put(id, draft, Applied);
      if ok {
        ok := StoreWorks();
      }
      if ok {
        End(id);
      } else {
        Doubt(id, draft);
        assert was[id := Proposal(draft, Applying)] == was;
        Twice(was, id, Proposal(draft, Applied), proposals[id]);
      }
    }

    // ---- everything else that changes a proposal --------------------------------------------

    /** The process stops; when it starts again, what was being written is in doubt. */
    method Restart()
      requires Valid()
      modifies this`proposals, this`writing, this`reviews
      ensures Valid() && reviews == map[]
      ensures var ids := set id | id in old(proposals) && old(proposals)[id].status == Applying;
              proposals == Marked(old(proposals), ids, Uncertain)
    {
      Restarted(proposals, approvals, reviews, histories);
      writing, reviews := {}, map[];
      Mark((set id | id in proposals && proposals[id].status == Applying), Uncertain);
    }

    /** `filter` and `forEach`, inside one transaction. */
    method Mark(ids: set<ID>, status: Status)
      requires Valid() && ids <= proposals.Keys
      requires forall id :: id in ids ==> Markable(proposals[id].status, status)
      requires status == Uncertain ==> reviews == map[]
      modifies this`proposals
      ensures Valid() && proposals == Marked(old(proposals), ids, status)
    {
      MarkableSound(proposals, approvals, reviews, histories, ids, status);
      hide Sound, Markable, Marked;
      ghost var was := proposals;
      var rest := ids;
      ghost var done: set<ID> := {};
      MarkedNone(was, status);
      while rest != {}
        invariant done + rest == ids && ids <= proposals.Keys && proposals == Marked(was, done, status)
        invariant proposals.Keys == was.Keys
        decreases rest
      {
        var id :| id in rest;
        MarkedMore(was, done, id, status);
        proposals := proposals[id := proposals[id].(status := status)];
        rest, done := rest - {id}, done + {id};
      }
    }

    /** Every transaction may be rolled back as a whole. */
    method MarkOrNot(ids: set<ID>, status: Status)
      requires Valid() && ids <= proposals.Keys
      requires forall id :: id in ids ==> Markable(proposals[id].status, status)
      requires status == Uncertain ==> reviews == map[]
      modifies this`proposals
      ensures Valid() && (proposals == old(proposals) || proposals == Marked(old(proposals), ids, status))
      ensures durable ==> proposals == Marked(old(proposals), ids, status)
    {
      hide *;
      var committed := StoreWorks();
      if committed {
        Mark(ids, status);
      }
    }

    /** A correction of the transcript overtakes the proposals that rest on it. */
    method Correct(supported: set<ID>)
      requires Valid()
      modifies this`proposals
      ensures Valid()
      ensures forall id :: id in old(proposals) ==>
                && id in proposals && proposals[id].draft == old(proposals)[id].draft
                && (proposals[id] != old(proposals)[id] ==>
                      && id in supported && proposals[id].status == Stale
                      && old(proposals)[id].status in {Pending, Approved, Manual, FailedReview})
                && (durable && id in supported && old(proposals)[id].status in {Pending, Approved, Manual, FailedReview}
                    ==> proposals[id].status == Stale)
    {
      MarkOrNot((set id | id in proposals && id in supported
                          && proposals[id].status in {Pending, Approved, Manual, FailedReview}), Stale);
    }

    /** The part of an extraction that touches proposals: what a newer revision overtakes, and
        what is new. */
    method Integrate(refs: seq<Reference>, found: seq<(ID, Draft)>)
      requires Valid()
      modifies this`proposals, this`histories
      ensures Valid()
      ensures proposals == old(proposals)
              || proposals == Added(Marked(old(proposals), Overtaken(old(proposals), refs), Stale), found)
      ensures durable ==> proposals == Added(Marked(old(proposals), Overtaken(old(proposals), refs), Stale), found)
    {
      hide *;
      var committed := StoreWorks();
      if committed {
        OvertakenArePending(proposals, refs);
        Mark(Overtaken(proposals, refs), Stale);
        Add(found);
      }
    }

    method Add(found: seq<(ID, Draft)>)
      requires Valid()
      modifies this`proposals, this`histories
      ensures Valid() && proposals == Added(old(proposals), found)
    {
      AddedEnds(proposals, found);
      hide Sound, Added;
      for i := 0 to |found|
        invariant Valid() && proposals == Added(old(proposals), found[..i])
      {
        AddedNext(old(proposals), found, i);
        var (id, draft) := found[i];
        if id !in proposals {
          NewSound(proposals, approvals, reviews, histories, id, draft);
          proposals, histories := proposals[id := Proposal(draft, Pending)], histories[id := []];
        }
      }
    }

    lemma ReviewableIsNotUnderWay(id: ID)
      requires Valid()
      ensures id in proposals && Reviewable(proposals[id].status) ==> id !in writing
      ensures id in proposals ==> (Reviewable(proposals[id].status)
                                   <==> proposals[id].status in {Pending, Manual, FailedReview})
    {
      assert id in proposals ==> SoundOne(id, proposals[id], PhaseOf(reviews, id), histories[id], approvals);
    }

    lemma Kept(id: ID)
      requires Sound(proposals, approvals, reviews, histories) && id in proposals
      ensures id in histories
      ensures id in reviews ==>
                reviews[id].0 == proposals[id].draft && InPhase(proposals[id], reviews[id].1, histories[id])
      ensures Tried(histories[id]) ==> proposals[id].status in {Applying, Applied, Uncertain}
      ensures Legal(proposals[id].draft, histories[id])
    {
      assert SoundOne(id, proposals[id], PhaseOf(reviews, id), histories[id], approvals);
      hide Legal, Tried, Confirmed, InPhase;
    }

    /** Forgetting that a review is under way leaves everything sound. */
    lemma Paused(id: ID)
      requires Valid()
      ensures Sound(proposals, approvals, reviews - {id}, histories)
    {
      hide Legal, Tried, Confirmed, InPhase, Recorded;
      forall other | other in proposals
        ensures SoundOne(other, proposals[other], PhaseOf(reviews - {id}, other), histories[other], approvals)
      {
        assert SoundOne(other, proposals[other], PhaseOf(reviews, other), histories[other], approvals);
      }
    }

    lemma MovedOn(id: ID, phase: Phase)
      requires Valid() && id in reviews && InPhase(proposals[id], phase, histories[id])
      ensures Sound(proposals, approvals, reviews[id := (reviews[id].0, phase)], histories)
    {
      assert SoundOne(id, proposals[id], PhaseOf(reviews, id), histories[id], approvals);
      assert approvals + [] == approvals;
      assert proposals[id := proposals[id]] == proposals && histories[id := histories[id]] == histories;
      OneChanges(proposals, approvals, reviews, histories, id, proposals[id], Some(phase), histories[id], []);
    }
  }

  lemma Twice<K, V>(m: map<K, V>, key: K, first: V, second: V)
    ensures m[key := first][key := second] == m[key := second]
  {
  }

  lemma NoReview(reviews: Reviews, id: ID)
    requires id !in reviews
    ensures reviews - {id} == reviews
  {
  }

  lemma DecidedSound(proposals: Proposals, approvals: seq<Approval>, reviews: Reviews, histories: Histories,
                     id: ID, approve: bool)
    requires Sound(proposals, approvals, reviews, histories) && id in proposals && Reviewable(proposals[id].status)
    ensures id !in reviews
    ensures var draft := proposals[id].draft;
            && Sound(proposals[id := Proposal(draft, if approve then Approved else Rejected)],
                     approvals + [Verdict(id, approve, draft)],
                     reviews,
                     histories[id := histories[id] + [Decision(approve, draft)]])
            && (approve ==> Consented(draft, histories[id] + [Decision(approve, draft)]))
  {
    var draft, history := proposals[id].draft, histories[id];
    var step := Decision(approve, draft);
    var next := Proposal(draft, if approve then Approved else Rejected);
    assert SoundOne(id, proposals[id], PhaseOf(reviews, id), history, approvals);
    LegalSnoc(draft, history, step);
    assert (history + [step])[|history|] == step;
    var added := [Verdict(id, approve, draft)];
    assert Recorded(id, history + [step], approvals + added);
    FirmSnoc(proposals[id].status, next.status, history, step);
    hide Legal, Tried, Sound, Firm;
    NoReview(reviews, id);
    OneChanges(proposals, approvals, reviews, histories, id, next, None, history + [step], added);
  }

  /** One proposal takes a status that its history allows. */
  lemma StatusSound(proposals: Proposals, approvals: seq<Approval>, reviews: Reviews, histories: Histories,
                    id: ID, status: Status, phase: Option<Phase>)
    requires Sound(proposals, approvals, reviews, histories) && id in proposals
    requires proposals[id].status != Rejected && status != Rejected
    requires Tried(histories[id]) ==> status in {Applying, Applied, Uncertain}
    requires status == Applied ==> Confirmed(proposals[id].draft, histories[id])
    requires phase.Some? ==> InPhase(proposals[id].(status := status), phase.value, histories[id])
    ensures Sound(proposals[id := proposals[id].(status := status)], approvals,
                  With(reviews, id, proposals[id].draft, phase), histories)
  {
    assert SoundOne(id, proposals[id], PhaseOf(reviews, id), histories[id], approvals);
    FirmStatus(proposals[id].status, status, histories[id]);
    hide Legal, Tried, Sound, Confirmed, InPhase, Firm;
    assert approvals + [] == approvals && histories[id := histories[id]] == histories;
    var next := proposals[id].(status := status);
    OneChanges(proposals, approvals, reviews, histories, id, next, phase, histories[id], []);
  }

  lemma Replaced(reviews: Reviews, id: ID, review: (Draft, Phase))
    ensures (reviews - {id})[id := review] == reviews[id := review]
  {
  }

  lemma Unwritten(proposals: Proposals, approvals: seq<Approval>, reviews: Reviews, histories: Histories, id: ID)
    requires Sound(proposals, approvals, reviews, histories) && id in proposals
    ensures id in histories && (Tried(histories[id]) ==> proposals[id].status in {Applying, Applied, Uncertain})
  {
    assert SoundOne(id, proposals[id], PhaseOf(reviews, id), histories[id], approvals);
  }

  lemma CheckingSound(proposals: Proposals, approvals: seq<Approval>, reviews: Reviews, histories: Histories, id: ID)
    requires Sound(proposals, approvals, reviews, histories) && id in proposals && proposals[id].status == Approved
    requires id in histories && Consented(proposals[id].draft, histories[id])
    ensures Sound(proposals, approvals, reviews[id := (proposals[id].draft, Checking)], histories)
  {
    Unwritten(proposals, approvals, reviews, histories, id);
    hide Sound, Legal, Tried, Consented;
    assert proposals[id := proposals[id].(status := Approved)] == proposals;
    StatusSound(proposals, approvals, reviews, histories, id, Approved, Some(Checking));
  }

  /** A document arrives before anything is written. */
  lemma SeenSound(proposals: Proposals, approvals: seq<Approval>, reviews: Reviews, histories: Histories,
                  id: ID, document: Document)
    requires Sound(proposals, approvals, reviews, histories) && id in proposals && id !in reviews
    requires proposals[id].status in {Approved, Stale}
    ensures Sound(proposals, approvals, reviews, histories[id := histories[id] + [Seen(document)]])
    ensures var draft := proposals[id].draft;
            Consented(draft, histories[id]) && Matching(draft, document) ==>
              Matched(draft, histories[id] + [Seen(document)])
  {
    var draft, history := proposals[id].draft, histories[id];
    assert SoundOne(id, proposals[id], PhaseOf(reviews, id), history, approvals);
    LegalSnoc(draft, history, Seen(document));
    assert (history + [Seen(document)])[..|history|] == history;
    hide Legal, Tried, Sound;
    StepSound(proposals, approvals, reviews, histories, id, Seen(document), None);
    NoReview(reviews, id);
  }

  /** The write leaves. */
  lemma SentSound(proposals: Proposals, approvals: seq<Approval>, reviews: Reviews, histories: Histories, id: ID)
    requires Sound(proposals, approvals, reviews, histories) && id in proposals
    requires proposals[id].status == Applying && Matched(proposals[id].draft, histories[id])
    ensures var draft := proposals[id].draft;
            Sound(proposals, approvals, reviews[id := (draft, Writing)],
                  histories[id := histories[id] + [Sent(draft.target, draft.suggestedContent, draft.expectedRevision)]])
  {
    var draft, history := proposals[id].draft, histories[id];
    var step := Sent(draft.target, draft.suggestedContent, draft.expectedRevision);
    assert SoundOne(id, proposals[id], PhaseOf(reviews, id), history, approvals);
    NotTried(draft, history);
    LegalSnoc(draft, history, step);
    hide Legal, Tried, Sound;
    StepSound(proposals, approvals, reviews, histories, id, step, Some(Writing));
  }

  /** The document is read back. */
  lemma ReadBackSound(proposals: Proposals, approvals: seq<Approval>, reviews: Reviews, histories: Histories,
                      id: ID, document: Document)
    requires Sound(proposals, approvals, reviews, histories) && id in proposals && id !in reviews
    requires proposals[id].status == Applying && JustTried(histories[id])
    ensures Sound(proposals, approvals, reviews, histories[id := histories[id] + [Seen(document)]])
    ensures var draft := proposals[id].draft;
            Written(draft, document) ==> Confirmed(draft, histories[id] + [Seen(document)])
  {
    var draft, history := proposals[id].draft, histories[id];
    assert SoundOne(id, proposals[id], PhaseOf(reviews, id), history, approvals);
    LegalReadBack(draft, history, document);
    hide Legal, Tried, Sound, Confirmed, JustTried;
    StepSound(proposals, approvals, reviews, histories, id, Seen(document), None);
    NoReview(reviews, id);
  }

  /** One more step of one proposal, its status unchanged. */
  lemma StepSound(proposals: Proposals, approvals: seq<Approval>, reviews: Reviews, histories: Histories,
                  id: ID, step: Step, phase: Option<Phase>)
    requires Sound(proposals, approvals, reviews, histories) && id in proposals && !step.Decided?
    requires Honest(proposals[id], phase, histories[id] + [step]) && proposals[id].status != Rejected
    ensures Sound(proposals, approvals, With(reviews, id, proposals[id].draft, phase),
                  histories[id := histories[id] + [step]])
  {
    assert SoundOne(id, proposals[id], PhaseOf(reviews, id), histories[id], approvals);
    FirmSnoc(proposals[id].status, proposals[id].status, histories[id], step);
    hide Honest, Firm;
    assert approvals + [] == approvals && proposals[id := proposals[id]] == proposals;
    assert Recorded(id, histories[id] + [step], approvals);
    OneChanges(proposals, approvals, reviews, histories, id, proposals[id], phase, histories[id] + [step], []);
  }

  /** The changes of status that do not wait for a review to be over. */
  predicate Markable(was: Status, status: Status) {
    || (status == Stale && was in {Pending, Approved, Manual, FailedReview})
    || (status == Uncertain && was == Applying)
  }

  lemma MarkedNone(proposals: Proposals, status: Status)
    ensures Marked(proposals, {}, status) == proposals
  {
  }

  lemma MarkedMore(proposals: Proposals, ids: set<ID>, id: ID, status: Status)
    requires id in proposals
    ensures var marked := Marked(proposals, ids, status);
            id in marked && marked[id := marked[id].(status := status)] == Marked(proposals, ids + {id}, status)
  {
  }

  lemma MarkableSound(proposals: Proposals, approvals: seq<Approval>, reviews: Reviews, histories: Histories,
                      ids: set<ID>, status: Status)
    requires Sound(proposals, approvals, reviews, histories) && ids <= proposals.Keys
    requires forall id :: id in ids ==> Markable(proposals[id].status, status)
    requires status == Uncertain ==> reviews == map[]
    ensures Sound(Marked(proposals, ids, status), approvals, reviews, histories)
  {
    forall id | id in ids
      ensures Honest(proposals[id].(status := status), PhaseOf(reviews, id), histories[id])
      ensures Firm(status, histories[id])
    {
      assert SoundOne(id, proposals[id], PhaseOf(reviews, id), histories[id], approvals);
      FirmStatus(proposals[id].status, status, histories[id]);
    }
    MarkedSound(proposals, approvals, reviews, histories, ids, status);
  }

  predicate Newer(refs: seq<Reference>, draft: Draft) {
    exists r :: r in refs && r.server == draft.server && r.target == draft.target
                && r.revision != draft.expectedRevision
  }

  function Overtaken(proposals: Proposals, refs: seq<Reference>): set<ID> {
    set id | id in proposals && proposals[id].status == Pending && Newer(refs, proposals[id].draft)
  }

  lemma OvertakenArePending(proposals: Proposals, refs: seq<Reference>)
    ensures Overtaken(proposals, refs) <= proposals.Keys
    ensures forall id :: id in Overtaken(proposals, refs) ==> Markable(proposals[id].status, Stale)
  {
  }

  /** What was found, unless a proposal of that id is already there. */
  function Added(proposals: Proposals, found: seq<(ID, Draft)>): Proposals {
    if found == [] then proposals
    else
      var before := Added(proposals, found[..|found| - 1]);
      var (id, draft) := found[|found| - 1];
      if id in before then before else before[id := Proposal(draft, Pending)]
  }

  lemma AddedEnds(proposals: Proposals, found: seq<(ID, Draft)>)
    ensures Added(proposals, found[..0]) == proposals && found[..|found|] == found
  {
  }

  lemma AddedNext(proposals: Proposals, found: seq<(ID, Draft)>, i: nat)
    requires i < |found|
    ensures var before, (id, draft) := Added(proposals, found[..i]), found[i];
            Added(proposals, found[..i + 1]) == if id in before then before else before[id := Proposal(draft, Pending)]
  {
    assert found[..i + 1][..i] == found[..i] && found[..i + 1][i] == found[i];
  }

  /** An extraction leaves every proposal that is there as it is, but for a pending one that a
      newer revision overtakes, and what it adds is pending. */
  lemma {:induction false} IntegratedKeeps(proposals: Proposals, refs: seq<Reference>, found: seq<(ID, Draft)>, id: ID)
    ensures var after := Added(Marked(proposals, Overtaken(proposals, refs), Stale), found);
            if id in proposals then
              && id in after
              && after[id].draft == proposals[id].draft
              && (after[id].status == Stale && proposals[id].status != Stale
                  <==> && proposals[id].status == Pending
                       && exists r :: r in refs && r.server == proposals[id].draft.server
                                      && r.target == proposals[id].draft.target
                                      && r.revision != proposals[id].draft.expectedRevision)
              && after[id].status in {Stale, proposals[id].status}
            else
              && (id in after <==> exists i :: 0 <= i < |found| && found[i].0 == id)
              && (id in after ==> after[id].status == Pending && (id, after[id].draft) in found)
  {
    if found != [] {
      hide Newer, Overtaken, Marked;
      var front, last := found[..|found| - 1], found[|found| - 1];
      IntegratedKeeps(proposals, refs, front, id);
      assert found == front + [last];
      assert (exists i :: 0 <= i < |found| && found[i].0 == id)
             <==> last.0 == id || exists i :: 0 <= i < |front| && front[i].0 == id by {
        if last.0 == id {
          assert found[|found| - 1].0 == id;
        } else if i :| 0 <= i < |front| && front[i].0 == id {
          assert found[i].0 == id;
        }
      }
    }
  }

  lemma NewSound(proposals: Proposals, approvals: seq<Approval>, reviews: Reviews, histories: Histories,
                 id: ID, draft: Draft)
    requires Sound(proposals, approvals, reviews, histories) && id !in proposals
    ensures Sound(proposals[id := Proposal(draft, Pending)], approvals, reviews, histories[id := []])
  {
    assert approvals + [] == approvals;
    NoReview(reviews, id);
    hide Sound;
    OneChanges(proposals, approvals, reviews, histories, id, Proposal(draft, Pending), None, [], []);
  }

  // ---- whole runs ---------------------------------------------------------------------------

  datatype Event =
    | OnReview(id: ID, approve: bool)
    | OnTools(id: ID, advertised: Option<bool>)
    | OnDocument(id: ID, document: Option<Document>)
    | OnToolsAgain(id: ID, available: bool)
    | OnWritten(id: ID, ok: bool)
    | OnExtracted(refs: seq<Reference>, found: seq<(ID, Draft)>)
    | OnCorrected(supported: set<ID>)
    | OnRestart

  /** Any interleaving of reviews, extractions, corrections and restarts, with any outcomes; an
      event that cannot happen now is ignored. */
  method Run(m: MeetingIntelligence, events: seq<Event>)
    requires m.Valid()
    modifies m
    ensures m.Valid()
    ensures m.histories.Keys == m.proposals.Keys
    ensures forall id :: id in m.proposals ==>
              SentOnce(m.histories[id]) && SentWithReason(id, m.proposals[id], m.histories[id], m.approvals)
    ensures forall id :: id in m.proposals ==> RefusedForGood(m.proposals[id], m.histories[id])
    ensures StillRejected(old(m.proposals), m.proposals)
  {
    hide *;
    NoneUnrejected(m.proposals);
    for i := 0 to |events|
      invariant m.Valid() && StillRejected(old(m.proposals), m.proposals)
    {
      ghost var was := m.proposals;
      Handle(m, events[i]);
      RejectedTwice(old(m.proposals), was, m.proposals);
    }
    RunMeans(m);
  }

  /** What was rejected is still there and still rejected. */
  ghost predicate StillRejected(was: Proposals, now: Proposals) {
    forall id :: id in was && was[id].status == Rejected ==> id in now && now[id] == was[id]
  }

  lemma NoneUnrejected(proposals: Proposals)
    ensures StillRejected(proposals, proposals)
  {
  }

  lemma RejectedTwice(a: Proposals, b: Proposals, c: Proposals)
    requires StillRejected(a, b) && StillRejected(b, c)
    ensures StillRejected(a, c)
  {
  }

  lemma OneMoved(was: Proposals, now: Proposals, id: ID)
    requires now == was || (id in now && now == was[id := now[id]])
    requires id in was && was[id].status == Rejected ==> now == was
    ensures StillRejected(was, now)
  {
  }

  lemma IntegratedStillRejected(was: Proposals, refs: seq<Reference>, found: seq<(ID, Draft)>)
    ensures StillRejected(was, Added(Marked(was, Overtaken(was, refs), Stale), found))
  {
    hide Added, Marked, Overtaken, Newer;
    forall id | id in was && was[id].status == Rejected
      ensures var after := Added(Marked(was, Overtaken(was, refs), Stale), found); id in after && after[id] == was[id]
    {
      IntegratedKeeps(was, refs, found, id);
    }
  }

  /** The history of a refused proposal ends with the refusal, and holds no write. */
  ghost predicate RefusedForGood(proposal: Proposal, history: seq<Step>) {
    forall k :: 0 <= k < |history| && history[k].Decided? && !history[k].approve ==>
      && k == |history| - 1 && proposal.status == Rejected
      && forall j :: 0 <= j < |history| ==> !history[j].Sent?
  }

  method Handle(m: MeetingIntelligence, event: Event)
    requires m.Valid()
    modifies m
    ensures m.Valid() && StillRejected(old(m.proposals), m.proposals)
    ensures m.durable && event.OnReview? && event.id in old(m.proposals) &&
            old(m.proposals)[event.id].status in {Pending, Manual, FailedReview} ==>
              event.id in m.proposals && (event.approve <==> m.proposals[event.id].status != Rejected)
              && m.approvals == old(m.approvals)
                   + [Verdict(event.id, event.approve, old(m.proposals)[event.id].draft)]
    ensures m.durable && event.OnExtracted? ==>
              m.proposals
              == Added(Marked(old(m.proposals), Overtaken(old(m.proposals), event.refs), Stale), event.found)
    ensures m.durable && event.OnCorrected? ==>
              forall id :: id in event.supported && id in old(m.proposals)
                           && old(m.proposals)[id].status in {Pending, Approved, Manual, FailedReview} ==>
                id in m.proposals && m.proposals[id].status == Stale
    ensures event.OnRestart? ==>
              m.reviews == map[] && forall id :: id in m.proposals ==> m.proposals[id].status != Applying
  {
    ghost var was := m.proposals;
    match event {
      case OnReview(id, approve) =>
        hide Sound;
        var _ := m.Begin(id, approve);
        OneMoved(was, m.proposals, id);
      case OnExtracted(refs, found) =>
        hide Sound;
        m.Integrate(refs, found);
        NoneUnrejected(was);
        IntegratedStillRejected(was, refs, found);
      case OnCorrected(supported) =>
        hide Sound;
        m.Correct(supported);
      case OnRestart =>
        hide Sound;
        m.Restart();
      case _ =>
        HandleReply(m, event);
    }
  }

  /** The reply that a review in this phase waits for. */
  ghost predicate Awaits(phase: Phase, event: Event) {
    match phase
    case Checking => event.OnTools?
    case Reading => event.OnDocument?
    case Opening => event.OnToolsAgain?
    case Writing => event.OnWritten?
    case ReadingBack => event.OnDocument?
  }

  /** A reply to a review that is under way. */
  method HandleReply(m: MeetingIntelligence, event: Event)
    requires m.Valid() && (event.OnTools? || event.OnDocument? || event.OnToolsAgain? || event.OnWritten?)
    modifies m
    ensures m.Valid() && StillRejected(old(m.proposals), m.proposals)
    ensures event.id in old(m.reviews) && Awaits(old(m.reviews)[event.id].1, event) ==>
              event.id !in m.reviews || m.reviews[event.id].1 != old(m.reviews)[event.id].1
  {
    ghost var was := m.proposals;
    NoneUnrejected(was);
    if event.id !in m.reviews {
      return;
    }
    UnderWayIsNotRejected(m, event.id);
    hide Sound, StillRejected;
    match event {
      case OnTools(id, advertised) =>
        if m.reviews[id].1 == Checking {
          m.ToolsSettled(id, advertised);
        }
      case OnDocument(id, document) =>
        if m.reviews[id].1 == Reading {
          m.ReadSettled(id, document);
        } else if m.reviews[id].1 == ReadingBack {
          m.ReadBackSettled(id, document);
        }
      case OnToolsAgain(id, available) =>
        if m.reviews[id].1 == Opening {
          m.OpeningSettled(id, available);
        }
      case OnWritten(id, ok) =>
        if m.reviews[id].1 == Writing {
          m.WriteSettled(id, ok);
        }
    }
    OneMoved(was, m.proposals, event.id);
  }

  lemma UnderWayIsNotRejected(m: MeetingIntelligence, id: ID)
    requires m.Valid() && id in m.reviews
    ensures id in m.proposals && m.proposals[id].status != Rejected
  {
    assert SoundOne(id, m.proposals[id], PhaseOf(m.reviews, id), m.histories[id], m.approvals);
  }

  ghost predicate SentOnce(history: seq<Step>) {
    forall i, j :: 0 <= i < |history| && 0 <= j < |history| && history[i].Sent? && history[j].Sent? ==> i == j
  }

  ghost predicate SentWithReason(id: ID, proposal: Proposal, history: seq<Step>, approvals: seq<Approval>) {
    forall i :: 0 <= i < |history| && history[i].Sent? ==>
      && proposal.status in {Applying, Applied, Uncertain} && Justified(proposal.draft, history, i)
      && Verdict(id, true, proposal.draft) in approvals
  }

  lemma RunMeans(m: MeetingIntelligence)
    requires m.Valid()
    ensures m.histories.Keys == m.proposals.Keys
    ensures forall id :: id in m.proposals ==>
              SentOnce(m.histories[id]) && SentWithReason(id, m.proposals[id], m.histories[id], m.approvals)
    ensures forall id :: id in m.proposals ==> RefusedForGood(m.proposals[id], m.histories[id])
  {
    hide Justified, Matched, Confirmed, InPhase, Recorded, Firm, SentOnce, SentWithReason, RefusedForGood, Honest;
    forall id | id in m.proposals
      ensures SentOnce(m.histories[id]) && SentWithReason(id, m.proposals[id], m.histories[id], m.approvals)
      ensures RefusedForGood(m.proposals[id], m.histories[id])
    {
      assert SoundOne(id, m.proposals[id], PhaseOf(m.reviews, id), m.histories[id], m.approvals);
      SoundOneMeans(id, m.proposals[id], PhaseOf(m.reviews, id), m.histories[id], m.approvals);
    }
  }

  lemma SoundOneMeans(id: ID, proposal: Proposal, phase: Option<Phase>, history: seq<Step>, approvals: seq<Approval>)
    requires SoundOne(id, proposal, phase, history, approvals)
    ensures SentOnce(history) && SentWithReason(id, proposal, history, approvals) && RefusedForGood(proposal, history)
  {
    forall k | 0 <= k < |history| && history[k].Decided? && !history[k].approve
      ensures k == |history| - 1 && proposal.status == Rejected && forall j :: 0 <= j < |history| ==> !history[j].Sent?
    {
      RefusalIsFinal(id, proposal, phase, history, approvals, k);
    }
    hide Justified, Confirmed, InPhase, Recorded, Firm;
    forall i | 0 <= i < |history| && history[i].Sent?
      ensures Verdict(id, true, proposal.draft) in approvals
    {
      OnlyWhatWasApproved(proposal, phase, history, i);
    }
    forall i, j | 0 <= i < |history| && 0 <= j < |history| && history[i].Sent? && history[j].Sent?
      ensures i == j
    {
      OneSent(proposal.draft, history, i, j);
    }
  }
}
