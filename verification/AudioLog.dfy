/** What happened to an audio source, packet by packet, and the segments it must have. */
module AudioLog {
  import opened Wrappers
  import opened Resampling
  import opened Windowing
  import opened Segments
  import opened Streaming
  import opened AudioHistory
  import opened Admission

  /** A packet was accepted, or the source was finalized. */
  datatype Entry = Took(p: Packet) | Ended

  type Log = map<string, seq<Entry>>

  function LogOf(log: Log, name: string): seq<Entry> {
    if name in log then log[name] else []
  }

  /** The segments that a log leaves. */
  function Told(entries: seq<Entry>): seq<Segment> {
    if entries == [] then []
    else
      var before := Told(entries[..|entries| - 1]);
      match Last(entries)
      case Took(p) => Heard(before, p)
      case Ended => if before == [] then [] else CloseLast(before)
  }

  /** The packets of a log. */
  function Taken(entries: seq<Entry>): seq<Packet> {
    if entries == [] then []
    else
      var before := Taken(entries[..|entries| - 1]);
      match Last(entries)
      case Took(p) => before + [p]
      case Ended => before
  }

  lemma ToldTook(entries: seq<Entry>, p: Packet)
    ensures Told(entries + [Took(p)]) == Heard(Told(entries), p)
    ensures Taken(entries + [Took(p)]) == Taken(entries) + [p]
  {
    assert (entries + [Took(p)])[..|entries|] == entries;
  }

  lemma ToldEnded(entries: seq<Entry>)
    ensures Told(entries + [Ended]) == if Told(entries) == [] then [] else CloseLast(Told(entries))
    ensures Taken(entries + [Ended]) == Taken(entries)
  {
    assert (entries + [Ended])[..|entries|] == entries;
  }

  /** Only the last segment of a source can still grow. */
  ghost predicate Superseded(segments: seq<Segment>) {
    forall i :: 0 <= i < |segments| - 1 ==> segments[i].closed
  }

  ghost predicate AllClosed(segments: seq<Segment>) {
    forall i :: 0 <= i < |segments| ==> segments[i].closed
  }

  lemma {:induction false} ToldSuperseded(entries: seq<Entry>)
    ensures Superseded(Told(entries))
  {
    if entries != [] {
      ToldSuperseded(entries[..|entries| - 1]);
    }
  }

  /** No accepted sample is lost, repeated or moved, across gaps and flushes. */
  lemma {:induction false} ToldKeepsSamples(entries: seq<Entry>)
    ensures HeardIn(Told(entries)) == SamplesOf(Taken(entries))
  {
    if entries != [] {
      var front := entries[..|entries| - 1];
      ToldKeepsSamples(front);
      match Last(entries) {
        case Took(p) =>
          HeardKeepsSamples(Told(front), p);
          SamplesOfSnoc(Taken(front), p);
        case Ended =>
          if Told(front) != [] {
            HeardInCloses(Told(front));
          }
      }
    }
  }

  /** History and packets are what the log says. */
  ghost predicate Logged(log: Log, accepted: Accepted, history: History) {
    && log.Keys == accepted.Keys == history.Keys
    && forall name :: name in log ==> history[name] == Told(log[name]) && accepted[name] == Taken(log[name])
  }

  lemma LoggedAccepts(log: Log, accepted: Accepted, history: History, p: Packet)
    requires Logged(log, accepted, history)
    ensures Logged(log[p.source := LogOf(log, p.source) + [Took(p)]],
                   accepted[p.source := AcceptedOf(accepted, p.source) + [p]],
                   history[p.source := Heard(SegmentsOf(history, p.source), p)])
  {
    ToldTook(LogOf(log, p.source), p);
    hide Heard;
  }

  /** Every named source is finalized once more. */
  function EndAll(log: Log, names: seq<string>): Log {
    map name | name in log :: if name in names then log[name] + [Ended] else log[name]
  }

  lemma LoggedEnds(log: Log, accepted: Accepted, history: History, names: seq<string>)
    requires Logged(log, accepted, history) && WellFormed(history)
    requires forall name :: name in names ==> name in history
    ensures Logged(EndAll(log, names), accepted, CloseAll(history, names))
  {
    var ended, closed := EndAll(log, names), CloseAll(history, names);
    hide Told, Taken, CloseLast;
    forall name | name in ended
      ensures closed[name] == Told(ended[name]) && accepted[name] == Taken(ended[name])
    {
      ToldEnded(log[name]);
    }
  }

  // ---- a log that is one contiguous sound -------------------------------------------------

  function Spoken(packets: seq<Packet>): seq<Entry> {
    seq(|packets|, i requires 0 <= i < |packets| => Took(packets[i]))
  }

  function Ends(n: nat): (entries: seq<Entry>)
    ensures |entries| == n && forall i :: 0 <= i < n ==> entries[i] == Ended
  {
    seq(n, _ => Ended)
  }

  lemma SpokenNext(packets: seq<Packet>)
    requires packets != []
    ensures var front := packets[..|packets| - 1];
            Spoken(packets) == Spoken(front) + [Took(Last(packets))] && packets == front + [Last(packets)]
  {
  }

  lemma {:induction false} ToldSpoken(packets: seq<Packet>)
    ensures Told(Spoken(packets)) == HeardAll([], packets)
    ensures Taken(Spoken(packets)) == packets
  {
    if packets != [] {
      var front, p := packets[..|packets| - 1], Last(packets);
      SpokenNext(packets);
      hide Told, Taken, Heard, Spoken;
      ToldSpoken(front);
      ToldTook(Spoken(front), p);
    }
  }

  /** The segments after accepting `packets` in turn. */
  function HeardAll(segments: seq<Segment>, packets: seq<Packet>): seq<Segment> {
    if packets == [] then segments else Heard(HeardAll(segments, packets[..|packets| - 1]), Last(packets))
  }

  lemma CloseLastTwice(segments: seq<Segment>)
    requires segments != []
    ensures CloseLast(segments) != [] && CloseLast(CloseLast(segments)) == CloseLast(segments)
  {
  }

  lemma {:induction false} ToldEnds(entries: seq<Entry>, n: nat)
    requires Told(entries) != []
    ensures Told(entries + Ends(n)) == if n == 0 then Told(entries) else CloseLast(Told(entries))
  {
    if n == 0 {
      assert entries + Ends(0) == entries;
    } else {
      ToldEnds(entries, n - 1);
      assert entries + Ends(n) == entries + Ends(n - 1) + [Ended];
      ToldEnded(entries + Ends(n - 1));
      CloseLastTwice(Told(entries));
    }
  }
}
