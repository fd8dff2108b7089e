/** Which packets of a source share a segment, and which are reported as gaps, said of the packets
    themselves. */
module AudioGaps {
  import Conversion
  import opened Wrappers
  import opened Resampling
  import opened Windowing
  import opened Segments
  import opened Streaming
  import opened AudioHistory
  import opened Admission
  import opened AudioLog

  datatype Gap = Gap(source: string, startMs: real)

  /** The packet's number is the next one, its rate is the same, and it starts within half a sample
      of where the packets `m` have ended. */
  predicate Follows(m: seq<Packet>, p: Packet)
    requires m != []
  {
    && p.sequence == Last(m).sequence + 1
    && p.sampleRate == m[0].sampleRate
    && -500.0 <= Offset(p.startMs - m[0].startMs, |SamplesOf(m)|, m[0].sampleRate) <= 500.0
  }

  /** How far `t` milliseconds are beyond `n` samples, in thousandths of a sample. */
  function Offset(t: real, n: nat, rate: Rate): real {
    t * rate as real - 1000.0 * n as real
  }

  /** The number of the segment an entry belongs to. */
  function SegmentOf(entries: seq<Entry>, k: nat): int
    requires k < |entries|
  {
    |Told(entries[..k + 1])| - 1
  }

  /** The packets of segment number `s`. */
  function Members(entries: seq<Entry>, s: int): seq<Packet> {
    if entries == [] then []
    else
      var front := Members(entries[..|entries| - 1], s);
      if Last(entries).Took? && |Told(entries)| == s + 1 then front + [Last(entries).p] else front
  }

  /** A segment is what its packets say: it starts where the first one does and holds all their
      samples, at their one rate. */
  ghost predicate IsOf(g: Segment, m: seq<Packet>) {
    && m != []
    && g.originMs == m[0].startMs && g.heard == SamplesOf(m) && g.sequence == Last(m).sequence
    && forall i :: 0 <= i < |m| ==> m[i].sampleRate == g.inputRate
  }

  lemma {:induction false} TookOrEnded(entries: seq<Entry>)
    requires entries != []
    ensures var front := entries[..|entries| - 1];
            match Last(entries)
            case Took(p) => Told(entries) == Heard(Told(front), p)
            case Ended => Told(entries) == if Told(front) == [] then [] else CloseLast(Told(front))
  {
  }

  lemma {:induction false} HeardCounts(segments: seq<Segment>, p: Packet)
    ensures var after := Heard(segments, p);
            if segments != [] && Continues(Last(segments), p)
            then |after| == |segments| && Last(after) == Longer(Last(segments), p)
            else |after| == |segments| + 1 && Last(after) == Opened(p)
    ensures forall s :: 0 <= s < |segments| - 1 ==> Heard(segments, p)[s] == segments[s]
    ensures segments != [] && !Continues(Last(segments), p) ==>
              Heard(segments, p)[|segments| - 1] == Closed(Last(segments))
  {
    hide Continues, Opened;
  }

  lemma FirstOf(p: Packet)
    ensures IsOf(Opened(p), [p])
  {
    assert SamplesOf([p]) == p.samples by {
      assert [p][..0] == [];
    }
  }

  lemma {:induction false} OneMoreOf(g: Segment, m: seq<Packet>, p: Packet)
    requires IsOf(g, m) && p.sampleRate == g.inputRate
    ensures IsOf(Longer(g, p), m + [p])
  {
    SamplesOfSnoc(m, p);
  }

  /** Every segment is that of its packets. */
  lemma {:induction false} SegmentsAreOfMembers(entries: seq<Entry>, s: int)
    ensures 0 <= s < |Told(entries)| ==> IsOf(Told(entries)[s], Members(entries, s))
    ensures s >= |Told(entries)| ==> Members(entries, s) == []
  {
    if entries != [] {
      var front := entries[..|entries| - 1];
      SegmentsAreOfMembers(front, s);
      TookOrEnded(entries);
      match Last(entries) {
        case Took(p) =>
          TookIsOf(entries, front, p, s);
        case Ended =>
      }
    }
  }

  lemma {:induction false} TookIsOf(entries: seq<Entry>, front: seq<Entry>, p: Packet, s: int)
    requires entries != [] && front == entries[..|entries| - 1] && Last(entries) == Took(p)
    requires 0 <= s < |Told(front)| ==> IsOf(Told(front)[s], Members(front, s))
    requires s >= |Told(front)| ==> Members(front, s) == []
    ensures 0 <= s < |Told(entries)| ==> IsOf(Told(entries)[s], Members(entries, s))
    ensures s >= |Told(entries)| ==> Members(entries, s) == []
  {
    hide Told, Heard, IsOf, Opened, SamplesOf, Continues, Members, Longer, Closed;
    MembersTook(entries, front, p, s);
    var before, n := Told(front), |Told(entries)|;
    HeardCounts(before, p);
    if s == n - 1 {
      if before != [] && Continues(Last(before), p) {
        SameRate(Last(before), p);
        OneMoreOf(before[s], Members(front, s), p);
      } else {
        FirstOf(p);
        assert Members(front, s) + [p] == [p];
      }
    } else if 0 <= s < n {
      ClosedIsOf(before[s], Members(front, s));
    }
  }

  lemma SameRate(g: Segment, p: Packet)
    requires Continues(g, p)
    ensures p.sampleRate == g.inputRate
  {
  }

  lemma {:induction false} MembersTook(entries: seq<Entry>, front: seq<Entry>, p: Packet, s: int)
    requires entries != [] && front == entries[..|entries| - 1] && Last(entries) == Took(p)
    ensures Members(entries, s) == if |Told(entries)| == s + 1 then Members(front, s) + [p] else Members(front, s)
    ensures Told(entries) == Heard(Told(front), p)
  {
    hide Heard;
  }

  lemma {:induction false} ClosedIsOf(g: Segment, m: seq<Packet>)
    requires IsOf(g, m)
    ensures IsOf(Closed(g), m)
  {
  }

  /** The tests of `accept` against the record are the ones above. */
  lemma {:induction false} FollowsIs(g: Segment, m: seq<Packet>, p: Packet)
    requires IsOf(g, m)
    ensures Discontinuous(g, p) <==> !Follows(m, p)
  {
    hide SamplesOf, Offset, Ms, Slack, Abs;
    OffsetIs(p.startMs - m[0].startMs, |g.heard|, g.inputRate);
    assert p.startMs - g.EndMs() == p.startMs - m[0].startMs - Ms(|g.heard|, g.inputRate);
    assert m[0].sampleRate == g.inputRate;
  }

  /** The packet has a larger number than its source sent so far, and starts no earlier than half a
      sample before where the packets of the last segment have ended. */
  predicate IsLater(entries: seq<Entry>, p: Packet) {
    var m := Members(entries, |Told(entries)| - 1);
    m != [] ==>
      && p.sequence > Last(m).sequence
      && Offset(p.startMs - m[0].startMs, |SamplesOf(m)|, m[0].sampleRate) >= -500.0
  }

  lemma {:induction false} LaterThan(entries: seq<Entry>, p: Packet)
    ensures IsLater(entries, p)
            <==> (Told(entries) != [] ==>
                    p.sequence > Last(Told(entries)).sequence && !TooEarly(Last(Told(entries)), p))
  {
    hide Told, Members, SamplesOf, Offset, Ms, Slack, IsOf;
    var segments := Told(entries);
    if segments == [] {
      NothingMembers(entries);
    } else {
      var g, m := Last(segments), Members(entries, |segments| - 1);
      SegmentsAreOfMembers(entries, |segments| - 1);
      IsOfMeans(g, m);
      EarlyIs(p.startMs - m[0].startMs, |g.heard|, g.inputRate);
      assert p.startMs - g.EndMs() == p.startMs - m[0].startMs - Ms(|g.heard|, g.inputRate);
    }
  }

  /** The last segment ends with the last packet. */
  lemma {:induction false} LastTaken(entries: seq<Entry>)
    ensures Told(entries) == [] <==> Taken(entries) == []
    ensures Told(entries) != [] ==> Last(Taken(entries)).sequence == Last(Told(entries)).sequence
  {
    if entries != [] {
      TookOrEnded(entries);
      LastTaken(entries[..|entries| - 1]);
    }
  }

  lemma {:induction false} IsOfMeans(g: Segment, m: seq<Packet>)
    requires IsOf(g, m)
    ensures m != [] && g.originMs == m[0].startMs && g.heard == SamplesOf(m) && g.sequence == Last(m).sequence
    ensures m[0].sampleRate == g.inputRate
  {
  }

  lemma EarlyIs(t: real, n: nat, rate: Rate)
    ensures t - Ms(n, rate) >= -Slack(rate) <==> Offset(t, n, rate) >= -500.0
  {
    var r, ms, slack := rate as real, Ms(n, rate), Slack(rate);
    RateTimes(n, rate);
    Distribute(t, ms, r);
    assert Conversion.Times(t, r) == t * r;
    hide Conversion.Times, Ms, Slack;
    Compare(-slack, t - ms, r);
  }

  /** Half a sample either way, multiplied out. */
  lemma OffsetIs(t: real, n: nat, rate: Rate)
    ensures Abs(t - Ms(n, rate)) <= Slack(rate) <==> -500.0 <= Offset(t, n, rate) <= 500.0
  {
    var r, ms, slack := rate as real, Ms(n, rate), Slack(rate);
    RateTimes(n, rate);
    Distribute(t, ms, r);
    assert Conversion.Times(t, r) == t * r;
    hide Conversion.Times, Ms, Slack;
    Compare(t - ms, slack, r);
    Compare(-slack, t - ms, r);
  }

  lemma RateTimes(n: nat, rate: Rate)
    ensures Conversion.Times(Ms(n, rate), rate as real) == 1000.0 * n as real
    ensures Conversion.Times(Slack(rate), rate as real) == 500.0
    ensures Conversion.Times(-Slack(rate), rate as real) == -500.0
  {
  }

  lemma Distribute(a: real, b: real, r: real)
    ensures Conversion.Times(a - b, r) == Conversion.Times(a, r) - Conversion.Times(b, r)
  {
  }

  lemma Compare(a: real, b: real, r: real)
    requires r > 0.0
    ensures a <= b <==> Conversion.Times(a, r) <= Conversion.Times(b, r)
  {
    if a < b {
      Conversion.Positive(b - a, r);
    } else if b < a {
      Conversion.Positive(a - b, r);
    }
    Distribute(b, a, r);
    Distribute(a, b, r);
  }

  /** Between two packets of a source there are only flushes. */
  ghost predicate Neighbours(entries: seq<Entry>, a: nat, b: nat) {
    && a < b < |entries| && entries[a].Took? && entries[b].Took?
    && forall k :: a < k < b ==> entries[k].Ended?
  }

  lemma {:induction false} FlushesOnly(entries: seq<Entry>, a: nat, b: nat)
    requires a < b <= |entries| && entries[a].Took? && forall k :: a < k < b ==> entries[k].Ended?
    ensures Told(entries[..b]) != [] && |Told(entries[..b])| == |Told(entries[..a + 1])|
    ensures Last(Told(entries[..b])).closed <==> b > a + 1
    ensures forall s :: Members(entries[..b], s) == Members(entries[..a + 1], s)
    decreases b
  {
    var some := entries[..b];
    assert some[..b - 1] == entries[..b - 1];
    TookOrEnded(some);
    if b > a + 1 {
      FlushesOnly(entries, a, b - 1);
    }
  }

  /** The packet at `b` comes right behind the one at `a` and follows the packets of its segment. */
  ghost predicate Joins(entries: seq<Entry>, a: nat, b: nat)
    requires a < b < |entries| && entries[b].Took?
  {
    var m := Members(entries[..a + 1], SegmentOf(entries, a));
    m != [] && b == a + 1 && Follows(m, entries[b].p)
  }

  /** Two neighbouring packets share a segment exactly when there is no flush between them and the
      second follows the packets of the segment of the first. */
  lemma {:induction false} NeighboursShare(entries: seq<Entry>, a: nat, b: nat)
    requires Neighbours(entries, a, b)
    ensures SegmentOf(entries, a) == SegmentOf(entries, b) <==> Joins(entries, a, b)
  {
    hide Told, Heard, IsOf, Opened, SamplesOf, Continues, Members, Longer, Closed, Neighbours, Follows, Discontinuous,
         Joins;
    JoinsMeans(entries, a, b);
    NeighboursMean(entries, a, b);
    FlushesOnly(entries, a, b);
    var before, s, p := Told(entries[..b]), SegmentOf(entries, a), entries[b].p;
    SegmentsAreOfMembers(entries[..b], s);
    SegmentOfIs(entries, a);
    SegmentOfIs(entries, b);
    FollowsIs(Last(before), Members(entries[..b], s), p);
    MembersTook(entries[..b + 1], entries[..b], p, s);
    HeardCounts(before, p);
    ContinuesMeans(Last(before), p);
    IsOfSome(Last(before), Members(entries[..b], s));
  }

  lemma {:induction false} JoinsMeans(entries: seq<Entry>, a: nat, b: nat)
    requires Neighbours(entries, a, b)
    ensures var m := Members(entries[..a + 1], SegmentOf(entries, a));
            Joins(entries, a, b) <==> m != [] && b == a + 1 && Follows(m, entries[b].p)
  {
  }

  lemma {:induction false} NeighboursMean(entries: seq<Entry>, a: nat, b: nat)
    requires Neighbours(entries, a, b)
    ensures a < b < |entries| && entries[a].Took? && entries[b].Took? && forall k :: a < k < b ==> entries[k].Ended?
    ensures entries[..b + 1][..b] == entries[..b] && Last(entries[..b + 1]) == Took(entries[b].p)
  {
  }

  lemma {:induction false} SegmentOfIs(entries: seq<Entry>, k: nat)
    requires k < |entries|
    ensures SegmentOf(entries, k) == |Told(entries[..k + 1])| - 1
  {
  }

  lemma ContinuesMeans(g: Segment, p: Packet)
    ensures Continues(g, p) <==> !g.closed && !Discontinuous(g, p)
  {
  }

  lemma {:induction false} IsOfSome(g: Segment, m: seq<Packet>)
    requires IsOf(g, m)
    ensures m != []
  {
  }

  /** The segments are those of their packets, cut wherever neighbours do not join. */
  ghost predicate CutRightly(entries: seq<Entry>, segments: seq<Segment>) {
    && (forall s :: 0 <= s < |segments| ==> IsOf(segments[s], Members(entries, s)))
    && (forall s :: s >= |segments| ==> Members(entries, s) == [])
    && forall a: nat, b: nat :: Neighbours(entries, a, b) ==>
         (SegmentOf(entries, a) == SegmentOf(entries, b) <==> Joins(entries, a, b))
  }

  lemma {:induction false} ToldIsCutRightly(entries: seq<Entry>)
    ensures CutRightly(entries, Told(entries))
  {
    hide Told, IsOf, Members, Neighbours, SegmentOf, Joins;
    forall s: int
      ensures 0 <= s < |Told(entries)| ==> IsOf(Told(entries)[s], Members(entries, s))
      ensures s >= |Told(entries)| ==> Members(entries, s) == []
    {
      SegmentsAreOfMembers(entries, s);
    }
    forall a: nat, b: nat | Neighbours(entries, a, b)
      ensures a < b < |entries| && entries[b].Took?
      ensures SegmentOf(entries, a) == SegmentOf(entries, b) <==> Joins(entries, a, b)
    {
      NeighboursMean(entries, a, b);
      NeighboursShare(entries, a, b);
    }
  }

  // ---- what is reported -----------------------------------------------------------------------

  /** The later packets of a source that do not follow. */
  function Breaks(entries: seq<Entry>): seq<Packet> {
    if entries == [] then []
    else
      var front := entries[..|entries| - 1];
      match Last(entries)
      case Took(p) =>
        var m := Members(front, |Told(front)| - 1);
        if m != [] && !Follows(m, p) then Breaks(front) + [p] else Breaks(front)
      case Ended => Breaks(front)
  }

  /** The gaps reported for one source. */
  function GapsOf(gaps: seq<Gap>, source: string): seq<Gap> {
    if gaps == [] then []
    else if Last(gaps).source == source then GapsOf(gaps[..|gaps| - 1], source) + [Last(gaps)]
    else GapsOf(gaps[..|gaps| - 1], source)
  }

  /** The reports these packets call for. */
  function Reports(source: string, packets: seq<Packet>): seq<Gap> {
    seq(|packets|, i requires 0 <= i < |packets| => Gap(source, packets[i].startMs))
  }

  /** Each source's gaps are reported in order, and nothing else is. */
  ghost predicate Reported(gaps: seq<Gap>, log: Log) {
    forall name :: GapsOf(gaps, name) == Reports(name, Breaks(LogOf(log, name)))
  }

  lemma NoReports()
    ensures Reported([], map[])
  {
  }

  lemma {:induction false} GapsSnoc(gaps: seq<Gap>, gap: Gap)
    ensures forall name :: GapsOf(gaps + [gap], name)
                           == if name == gap.source then GapsOf(gaps, name) + [gap] else GapsOf(gaps, name)
  {
    assert (gaps + [gap])[..|gaps|] == gaps;
  }

  lemma {:induction false} BreaksTook(entries: seq<Entry>, p: Packet)
    ensures var before := Told(entries);
            Breaks(entries + [Took(p)])
            == if before != [] && Discontinuous(Last(before), p) then Breaks(entries) + [p] else Breaks(entries)
  {
    var before := Told(entries);
    BreaksSnoc(entries, p);
    hide Told, Breaks, Discontinuous, Follows, Members, IsOf;
    SegmentsAreOfMembers(entries, |before| - 1);
    if before != [] {
      FollowsIs(Last(before), Members(entries, |before| - 1), p);
      IsOfSome(Last(before), Members(entries, |before| - 1));
    } else {
      NothingMembers(entries);
    }
  }

  lemma {:induction false} BreaksSnoc(entries: seq<Entry>, p: Packet)
    ensures var m := Members(entries, |Told(entries)| - 1);
            Breaks(entries + [Took(p)])
            == if m != [] && !Follows(m, p) then Breaks(entries) + [p] else Breaks(entries)
  {
    assert (entries + [Took(p)])[..|entries|] == entries;
    hide Members, Follows, Told;
  }

  lemma {:induction false} NothingMembers(entries: seq<Entry>)
    requires Told(entries) == []
    ensures Members(entries, -1) == []
  {
    if entries != [] {
      TookOrEnded(entries);
      NothingMembers(entries[..|entries| - 1]);
    }
  }

  lemma {:induction false} BreaksEnded(entries: seq<Entry>)
    ensures Breaks(entries + [Ended]) == Breaks(entries)
  {
    assert (entries + [Ended])[..|entries|] == entries;
  }

  /** A packet is reported when it breaks. */
  lemma {:induction false} ReportedTook(gaps: seq<Gap>, log: Log, p: Packet)
    requires Reported(gaps, log)
    ensures var before := Told(LogOf(log, p.source));
            var more := if before != [] && Discontinuous(Last(before), p) then [Gap(p.source, p.startMs)] else [];
            Reported(gaps + more, log[p.source := LogOf(log, p.source) + [Took(p)]])
  {
    var before, entries := Told(LogOf(log, p.source)), LogOf(log, p.source);
    var after := log[p.source := entries + [Took(p)]];
    BreaksTook(entries, p);
    hide Told, Breaks, Discontinuous, GapsOf;
    if before != [] && Discontinuous(Last(before), p) {
      GapsSnoc(gaps, Gap(p.source, p.startMs));
      assert Reports(p.source, Breaks(entries) + [p])
             == Reports(p.source, Breaks(entries)) + [Gap(p.source, p.startMs)];
    } else {
      assert gaps + [] == gaps;
    }
    assert forall name :: name != p.source ==> LogOf(after, name) == LogOf(log, name);
  }

  lemma {:induction false} ReportedEnds(gaps: seq<Gap>, log: Log, names: seq<string>)
    requires Reported(gaps, log)
    ensures Reported(gaps, EndAll(log, names))
  {
    forall name
      ensures Breaks(LogOf(EndAll(log, names), name)) == Breaks(LogOf(log, name))
    {
      BreaksEnded(LogOf(log, name));
    }
  }
}
