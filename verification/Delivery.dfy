/** The bounded delivery queue of the capture page.

    `pump` is split at every await and at every call of a page callback, so `send` and `close`
    may come in anywhere.  A message is its number, counted from the first that was queued. */
module Delivery {
  import opened Wrappers

  const QUEUE_LIMIT := 32
  const ATTEMPTS := 4

  datatype Reason =
    | Unauthorized
    | DeliveryUnknown
    | BackpressureExhausted
    | QueueOverflow
    | BackendStopped
    | DeliveryClosed

  /** What the page can see happen. */
  datatype Event = Posted(id: nat) | Resolved(id: nat) | Shut | Rejected(id: nat)

  /** Where `pump` stands: idle, at the head of its loop, waiting for `fetch`, for the body, inside the "reconnecting"
      callback, waiting out the second, inside the "connected" callback, inside `onStop`. */
  datatype Pump =
    | Idle
    | Looping
    | Posting(attempt: nat)
    | Reading(attempt: nat, status: Option<nat>)
    | Reporting(attempt: nat)
    | Waiting(attempt: nat)
    | Connected(stop: bool)
    | Stopping

  datatype Body = Body(accepted: bool, stop: bool, busy: bool)

  datatype SendReply = Queued(id: nat) | Refused(reason: Reason)

  // ---- traces --------------------------------------------------------------------

  function Resolves(trace: seq<Event>): nat {
    if trace == [] then 0 else Resolves(trace[..|trace| - 1]) + (if trace[|trace| - 1].Resolved? then 1 else 0)
  }

  function Rejects(trace: seq<Event>): nat {
    if trace == [] then 0 else Rejects(trace[..|trace| - 1]) + (if trace[|trace| - 1].Rejected? then 1 else 0)
  }

  function Posts(trace: seq<Event>, id: nat): nat {
    if trace == [] then 0 else Posts(trace[..|trace| - 1], id) + (if trace[|trace| - 1] == Posted(id) then 1 else 0)
  }

  /** May `e` come next? */
  ghost predicate Allowed(trace: seq<Event>, e: Event) {
    match e
    // Only the oldest unacknowledged message is posted, at most four times, and only while open.
    case Posted(id) => Shut !in trace && id == Resolves(trace) && Posts(trace, id) < ATTEMPTS
    // Acknowledgements come in send order, each for a message that was posted.
    case Resolved(id) => Shut !in trace && id == Resolves(trace) && Posts(trace, id) > 0
    case Shut => Shut !in trace
    // What is left is rejected once, in order, and only after closing.
    case Rejected(id) => Shut in trace && id == Resolves(trace) + Rejects(trace)
  }

  ghost predicate Legal(trace: seq<Event>) {
    forall j :: 0 <= j < |trace| ==> Allowed(trace[..j], trace[j])
  }

  lemma LegalSnoc(trace: seq<Event>, e: Event)
    requires Legal(trace) && Allowed(trace, e)
    ensures Legal(trace + [e])
    ensures Resolves(trace + [e]) == Resolves(trace) + if e.Resolved? then 1 else 0
    ensures Rejects(trace + [e]) == Rejects(trace) + if e.Rejected? then 1 else 0
    ensures forall id :: Posts(trace + [e], id) == Posts(trace, id) + if e == Posted(id) then 1 else 0
  {
    hide Allowed;
    var all := trace + [e];
    assert all[..|trace|] == trace;
    forall j | 0 <= j < |all|
      ensures Allowed(all[..j], all[j])
    {
      assert all[..j] == trace[..j];
    }
  }

  /** Nothing was posted for the messages behind the oldest unacknowledged one. */
  ghost predicate Unposted(trace: seq<Event>, from: nat) {
    forall id :: id >= from ==> Posts(trace, id) == 0
  }

  // ---- the queue -------------------------------------------------------------------

  class Delivery {
    var queue: seq<nat>
    var pump: Pump
    var closed: bool
    var error: Option<Reason>
    /** Numbers the queued messages. */
    var sent: nat

    ghost var trace: seq<Event>

    ghost predicate Valid()
      reads this
    {
      && Legal(trace)
      && (closed <==> Shut in trace)
      && |queue| <= QUEUE_LIMIT
      && sent == Resolves(trace) + Rejects(trace) + |queue|
      && (closed ==> queue == [])
      && (!closed ==> Rejects(trace) == 0)
      && (forall i :: 0 <= i < |queue| ==> queue[i] == Resolves(trace) + i)
      && Unposted(trace, Resolves(trace) + 1)
      && (!closed ==> PumpAgrees())
    }

    /** While open: how often the head has been posted is where the pump stands. */
    ghost predicate PumpAgrees()
      reads this
    {
      match pump
      case Idle => queue == [] && Posts(trace, Resolves(trace)) == 0
      case Posting(attempt) => InFlight(attempt)
      case Reading(attempt, _) => InFlight(attempt)
      case Reporting(attempt) => InFlight(attempt)
      case Waiting(attempt) => InFlight(attempt) && attempt < ATTEMPTS - 1
      case Looping => Posts(trace, Resolves(trace)) == 0
      case Connected(_) => Posts(trace, Resolves(trace)) == 0
      case Stopping => Posts(trace, Resolves(trace)) == 0
    }

    ghost predicate InFlight(attempt: nat)
      reads this
    {
      queue != [] && attempt < ATTEMPTS && Posts(trace, Resolves(trace)) == attempt + 1
    }

    constructor ()
      ensures Valid() && sent == 0 && trace == [] && !closed && queue == []
    {
      queue, pump, closed, error, sent, trace := [], Idle, false, None, 0, [];
    }

    /** `fail(reason)`, and `close()` when there is no reason to keep. */
    method Shutdown(reason: Option<Reason>)
      requires Valid()
      modifies this`closed, this`error, this`queue, this`trace
      ensures Valid() && closed && queue == []
      ensures old(closed) ==> trace == old(trace) && error == old(error)
      ensures !old(closed) ==> error == reason && trace == old(trace) + [Shut] + Rejections(old(queue))
    {
      hide Legal, Allowed, Resolves, Rejects, Posts, Unposted;
      if closed {
        return;
      }
      ShutAllowed(trace);
      closed, error := true, reason;
      trace := trace + [Shut];
      ghost var first := Resolves(trace);
      for i := 0 to |queue|
        invariant trace == old(trace) + [Shut] + Rejections(queue)[..i]
        invariant Legal(trace) && Shut in trace
        invariant Resolves(trace) == first && Rejects(trace) == i
        invariant Unposted(trace, first + 1)
      {
        RejectAllowed(trace, queue[i]);
        trace := trace + [Rejected(queue[i])];
      }
      assert Rejections(queue)[..|queue|] == Rejections(queue);
      queue := [];
    }

    /** The call of `fetch` for the head. */
    method Post(attempt: nat)
      requires Valid() && !closed && queue != []
      requires attempt < ATTEMPTS && Posts(trace, Resolves(trace)) == attempt
      modifies this`pump, this`trace
      ensures Valid() && pump == Posting(attempt) && trace == old(trace) + [Posted(queue[0])]
    {
      hide Legal, Resolves, Rejects, Posts, Unposted;
      PostAllowed(trace, queue[0]);
      trace := trace + [Posted(queue[0])];
      pump := Posting(attempt);
    }

    /** The head of the outer loop. */
    method Next()
      requires Valid() && (closed || Posts(trace, Resolves(trace)) == 0)
      modifies this`pump, this`trace
      ensures Valid()
      ensures closed || queue == [] ==> pump == Idle && trace == old(trace)
      ensures !closed && queue != [] ==> pump == Posting(0) && trace == old(trace) + [Posted(queue[0])]
    {
      hide Legal, Resolves, Rejects, Posts, Unposted;
      if queue != [] && !closed {
        Post(0);
      } else {
        pump := Idle;
      }
    }

    method Send() returns (reply: SendReply)
      requires Valid()
      modifies this
      ensures Valid()
      ensures old(closed) ==>
                && reply == Refused(if old(error).Some? then old(error).value else DeliveryClosed)
                && trace == old(trace) && sent == old(sent) && queue == old(queue)
      ensures !old(closed) && |old(queue)| >= 32 ==>
                && reply == Refused(QueueOverflow) && closed && sent == old(sent)
                && trace == old(trace) + [Shut] + Rejections(old(queue))
      ensures !old(closed) && |old(queue)| < 32 ==>
                && reply == Queued(old(sent)) && !closed && sent == old(sent) + 1 && queue == old(queue) + [old(sent)]
                && trace == old(trace) + (if old(pump.Idle?) then [Posted(old(sent))] else [])
    {
      hide Legal, Resolves, Rejects, Posts, Unposted;
      if closed {
        return Refused(if error.Some? then error.value else DeliveryClosed);
      }
      if |queue| >= QUEUE_LIMIT {
        Shutdown(Some(QueueOverflow));
        return Refused(QueueOverflow);
      }
      reply := Queued(sent);
      queue, sent := queue + [sent], sent + 1;
      if pump.Idle? {
        pump := Looping;
        Next();
      }
    }

    method Close()
      requires Valid()
      modifies this`closed, this`error, this`queue, this`trace
      ensures Valid() && closed && queue == []
      ensures trace == old(trace) + (if old(closed) then [] else [Shut] + Rejections(old(queue)))
    {
      hide Legal, Resolves, Rejects, Posts, Unposted;
      Shutdown(None);
    }

    /** `fetch` settles, with a status or not at all. */
    method FetchSettled(status: Option<nat>)
      requires Valid() && pump.Posting?
      modifies this`pump
      ensures Valid() && pump == if closed then Idle else Reading(old(pump).attempt, status)
    {
      hide Legal, Resolves, Rejects, Posts, Unposted;
      pump := if closed then Idle else Reading(pump.attempt, status);
    }

    /** The body settles; `None` when there is none or it is not JSON. */
    method BodySettled(body: Option<Body>)
      requires Valid() && pump.Reading?
      modifies this`closed, this`error, this`queue, this`trace, this`pump
      ensures Valid()
      ensures var status := old(pump).status;
              var acknowledged := status == Some(200) && body.Some? && (body.value.accepted || body.value.stop);
              var busy := status == Some(429) && body.Some? && body.value.busy;
              if acknowledged then
                if old(closed) then pump == Idle && trace == old(trace)
                else old(queue) != [] && pump == Connected(body.value.stop)
                     && queue == old(queue)[1..] && trace == old(trace) + [Resolved(old(queue)[0])]
              else if busy then pump == Reporting(old(pump).attempt) && trace == old(trace) && queue == old(queue)
              else closed && pump == Idle
                   && trace == old(trace) + (if old(closed) then [] else [Shut] + Rejections(old(queue)))
                   && (!old(closed) ==> error == Some(if status == Some(401) || status == Some(403) then Unauthorized
                                                      else DeliveryUnknown))
    {
      hide Legal, Resolves, Rejects, Posts, Unposted, Rejections;
      var status, attempt := pump.status, pump.attempt;
      if status == Some(200) && body.Some? && (body.value.accepted || body.value.stop) {
        if closed {
          pump := Idle;
          return;
        }
        ResolveAllowed(trace, queue[0]);
        trace := trace + [Resolved(queue[0])];
        queue := queue[1..];
        pump := Connected(body.value.stop);
      } else if status == Some(429) && body.Some? && body.value.busy {
        pump := Reporting(attempt);
      } else {
        Shutdown(Some(if status == Some(401) || status == Some(403) then Unauthorized else DeliveryUnknown));
        pump := Idle;
      }
    }

    /** The "reconnecting" callback returns: wait, unless this was the last attempt. */
    method Reported()
      requires Valid() && pump.Reporting?
      modifies this`closed, this`error, this`queue, this`trace, this`pump
      ensures Valid()
      ensures old(pump).attempt < 3 ==> pump == Waiting(old(pump).attempt) && trace == old(trace)
      ensures old(pump).attempt >= 3 ==>
                && closed && pump == Idle
                && trace == old(trace) + (if old(closed) then [] else [Shut] + Rejections(old(queue)))
                && (!old(closed) ==> error == Some(BackpressureExhausted))
    {
      hide Legal, Resolves, Rejects, Posts, Unposted, Rejections;
      if pump.attempt < ATTEMPTS - 1 {
        pump := Waiting(pump.attempt);
      } else {
        Shutdown(Some(BackpressureExhausted));
        pump := Idle;
      }
    }

    /** The wait is over: try again, unless closed meanwhile. */
    method Waited()
      requires Valid() && pump.Waiting?
      modifies this`pump, this`trace
      ensures Valid()
      ensures closed ==> pump == Idle && trace == old(trace)
      ensures !closed ==> queue != [] && pump == Posting(old(pump).attempt + 1)
                          && trace == old(trace) + [Posted(queue[0])]
    {
      hide Legal, Resolves, Rejects, Posts, Unposted;
      if closed {
        pump := Idle;
      } else {
        Post(pump.attempt + 1);
      }
    }

    /** The "connected" callback returns. */
    method Acknowledged()
      requires Valid() && pump.Connected?
      modifies this`pump, this`trace
      ensures Valid()
      ensures old(pump).stop ==> pump == Stopping && trace == old(trace)
      ensures !old(pump).stop && !closed && queue != [] ==>
                pump == Posting(0) && trace == old(trace) + [Posted(queue[0])]
      ensures !old(pump).stop && (closed || queue == []) ==> pump == Idle && trace == old(trace)
    {
      hide Legal, Resolves, Rejects, Posts, Unposted;
      if pump.stop {
        pump := Stopping;
      } else {
        Next();
      }
    }

    /** `onStop` returns: the backend wants no more. */
    method Stopped()
      requires Valid() && pump.Stopping?
      modifies this`closed, this`error, this`queue, this`trace, this`pump
      ensures Valid() && closed && pump == Idle
      ensures trace == old(trace) + (if old(closed) then [] else [Shut] + Rejections(old(queue)))
      ensures !old(closed) ==> error == Some(BackendStopped)
    {
      hide Legal, Resolves, Rejects, Posts, Unposted, Rejections;
      Shutdown(Some(BackendStopped));
      pump := Idle;
    }
  }

  function Rejections(queue: seq<nat>): seq<Event> {
    seq(|queue|, i requires 0 <= i < |queue| => Rejected(queue[i]))
  }

  lemma ShutAllowed(trace: seq<Event>)
    requires Legal(trace) && Shut !in trace
    ensures Legal(trace + [Shut]) && Shut in trace + [Shut]
    ensures Resolves(trace + [Shut]) == Resolves(trace) && Rejects(trace + [Shut]) == Rejects(trace)
    ensures forall id :: Posts(trace + [Shut], id) == Posts(trace, id)
    ensures Unposted(trace, Resolves(trace) + 1) ==> Unposted(trace + [Shut], Resolves(trace) + 1)
  {
    LegalSnoc(trace, Shut);
  }

  lemma RejectAllowed(trace: seq<Event>, id: nat)
    requires Legal(trace) && Shut in trace && id == Resolves(trace) + Rejects(trace)
    ensures var next := trace + [Rejected(id)];
            && Legal(next) && Shut in next
            && Resolves(next) == Resolves(trace) && Rejects(next) == Rejects(trace) + 1
            && (Unposted(trace, Resolves(trace) + 1) ==> Unposted(next, Resolves(trace) + 1))
  {
    LegalSnoc(trace, Rejected(id));
  }

  lemma PostAllowed(trace: seq<Event>, id: nat)
    requires Legal(trace) && Shut !in trace && id == Resolves(trace) && Posts(trace, id) < ATTEMPTS
    ensures var next := trace + [Posted(id)];
            && Legal(next) && Shut !in next
            && Resolves(next) == Resolves(trace) && Rejects(next) == Rejects(trace)
            && Posts(next, id) == Posts(trace, id) + 1
            && (Unposted(trace, id + 1) ==> Unposted(next, id + 1))
  {
    LegalSnoc(trace, Posted(id));
  }

  lemma ResolveAllowed(trace: seq<Event>, id: nat)
    requires Legal(trace) && Shut !in trace && id == Resolves(trace) && Posts(trace, id) > 0
    requires Unposted(trace, id + 1)
    ensures var next := trace + [Resolved(id)];
            && Legal(next) && Shut !in next
            && Resolves(next) == id + 1 && Rejects(next) == Rejects(trace)
            && Posts(next, id + 1) == 0 && Unposted(next, id + 2)
  {
    LegalSnoc(trace, Resolved(id));
  }

  // ---- what a legal trace means -------------------------------------------------------

  lemma LegalPrefix(trace: seq<Event>, n: nat)
    requires Legal(trace) && n <= |trace|
    ensures Legal(trace[..n])
  {
    hide Allowed;
    forall j | 0 <= j < n
      ensures Allowed(trace[..n][..j], trace[..n][j])
    {
      assert trace[..n][..j] == trace[..j];
    }
  }

  lemma LastAllowed(trace: seq<Event>)
    requires Legal(trace) && trace != []
    ensures Allowed(trace[..|trace| - 1], trace[|trace| - 1])
  {
  }

  lemma InSnoc(front: seq<Event>, e: Event, trace: seq<Event>)
    requires trace != [] && front == trace[..|trace| - 1] && e == trace[|trace| - 1]
    ensures forall x :: x in trace <==> x in front || x == e
  {
    assert trace == front + [e];
  }

  lemma CountsSnoc(front: seq<Event>, e: Event, trace: seq<Event>)
    requires trace != [] && front == trace[..|trace| - 1] && e == trace[|trace| - 1]
    ensures Resolves(trace) == Resolves(front) + if e.Resolved? then 1 else 0
    ensures Rejects(trace) == Rejects(front) + if e.Rejected? then 1 else 0
  {
  }

  /** Exactly the messages before the oldest unacknowledged one are acknowledged. */
  lemma {:induction false} ResolvedAre(trace: seq<Event>, id: nat)
    requires Legal(trace)
    ensures Resolved(id) in trace <==> id < Resolves(trace)
  {
    if trace != [] {
      var front, e := trace[..|trace| - 1], trace[|trace| - 1];
      LegalPrefix(trace, |trace| - 1);
      LastAllowed(trace);
      InSnoc(front, e, trace);
      CountsSnoc(front, e, trace);
      hide Legal, Posts, Unposted, Resolves, Rejects;
      ResolvedAre(front, id);
    }
  }

  lemma {:induction false} RejectedAre(trace: seq<Event>, id: nat)
    requires Legal(trace)
    ensures Rejected(id) in trace <==> Resolves(trace) <= id < Resolves(trace) + Rejects(trace)
    ensures Shut !in trace ==> Rejects(trace) == 0
  {
    if trace != [] {
      var front, e := trace[..|trace| - 1], trace[|trace| - 1];
      LegalPrefix(trace, |trace| - 1);
      LastAllowed(trace);
      InSnoc(front, e, trace);
      CountsSnoc(front, e, trace);
      hide Legal, Posts, Unposted, Resolves, Rejects;
      RejectedAre(front, id);
    }
  }

  /** No promise settles twice. */
  lemma SettledOnce(trace: seq<Event>, id: nat, i: nat, j: nat)
    requires Legal(trace) && i < j < |trace| && (trace[i] == Resolved(id) || trace[i] == Rejected(id))
    ensures trace[j] != Resolved(id) && trace[j] != Rejected(id)
  {
    LegalPrefix(trace, j);
    assert Allowed(trace[..j], trace[j]);
    assert trace[..j][i] == trace[i];
    ResolvedAre(trace[..j], id);
    RejectedAre(trace[..j], id);
  }

  /** A post comes after the acknowledgement of everything sent before, and before closing. */
  lemma PostedInTurn(trace: seq<Event>, j: nat, earlier: nat)
    requires Legal(trace) && j < |trace| && trace[j].Posted? && earlier < trace[j].id
    ensures Resolved(earlier) in trace[..j] && Shut !in trace[..j]
  {
    LegalPrefix(trace, j);
    assert Allowed(trace[..j], trace[j]);
    ResolvedAre(trace[..j], earlier);
  }

  lemma {:induction false} PostedAtMostFour(trace: seq<Event>, id: nat)
    requires Legal(trace)
    ensures Posts(trace, id) <= 4
  {
    if trace != [] {
      var front := trace[..|trace| - 1];
      LegalPrefix(trace, |trace| - 1);
      LastAllowed(trace);
      hide Legal, Resolves, Rejects;
      PostedAtMostFour(front, id);
    }
  }

  datatype Call =
    | DoSend
    | DoClose
    | DoFetchSettled(status: Option<nat>)
    | DoBodySettled(body: Option<Body>)
    | DoReported
    | DoWaited
    | DoAcknowledged
    | DoStopped

  /** Any interleaving of calls and of outcomes; one that cannot happen now is ignored. */
  method Run(d: Delivery, calls: seq<Call>)
    requires d.Valid()
    modifies d
    ensures d.Valid()
    ensures Legal(d.trace) && |d.queue| <= 32
    ensures d.sent == Resolves(d.trace) + Rejects(d.trace) + |d.queue|
    ensures forall i :: 0 <= i < |d.queue| ==> d.queue[i] == Resolves(d.trace) + i
    ensures d.closed ==> d.queue == []
  {
    for i := 0 to |calls|
      invariant d.Valid()
    {
      match calls[i]
      case DoSend => var _ := d.Send();
      case DoClose => d.Close();
      case DoFetchSettled(status) => if d.pump.Posting? { d.FetchSettled(status); }
      case DoBodySettled(body) => if d.pump.Reading? { d.BodySettled(body); }
      case DoReported => if d.pump.Reporting? { d.Reported(); }
      case DoWaited => if d.pump.Waiting? { d.Waited(); }
      case DoAcknowledged => if d.pump.Connected? { d.Acknowledged(); }
      case DoStopped => if d.pump.Stopping? { d.Stopped(); }
    }
  }
}
