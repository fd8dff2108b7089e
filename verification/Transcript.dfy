/** `MeetingRuntime.transcribe` and the rows it writes: one temporary row at the end, which becomes
    final before the next one is written. */
module Transcript {
  import opened Wrappers
  import opened Extract

  type ChunkID = nat

  /** A row of the transcript; chunk and index are its identity. */
  datatype Segment = Segment(chunk: ChunkID, index: nat, sequence: nat, text: string, final: bool)

  // ---- the store ------------------------------------------------------------------------

  /** `nextSequence`: one more than the largest sequence of a final row. */
  function Next(rows: seq<Segment>): (next: nat)
    ensures next >= 1
  {
    if rows == [] then 1
    else
      var front, last := Next(rows[..|rows| - 1]), rows[|rows| - 1];
      if last.final && last.sequence >= front then last.sequence + 1 else front
  }

  lemma {:induction false} NextIsAbove(rows: seq<Segment>, i: nat)
    requires i < |rows| && rows[i].final
    ensures rows[i].sequence < Next(rows)
  {
    if i < |rows| - 1 {
      NextIsAbove(rows[..|rows| - 1], i);
    }
  }

  lemma {:induction false} NextIsLeast(rows: seq<Segment>, bound: nat)
    requires bound >= 1 && forall i :: 0 <= i < |rows| && rows[i].final ==> rows[i].sequence < bound
    ensures Next(rows) <= bound
  {
    if rows != [] {
      NextIsLeast(rows[..|rows| - 1], bound);
    }
  }

  predicate Same(a: Segment, b: Segment) {
    a.chunk == b.chunk && a.index == b.index
  }

  predicate Fresh(s: Segment, rows: seq<Segment>) {
    forall i :: 0 <= i < |rows| ==> !Same(rows[i], s)
  }

  /** The place of the row with this identity, or the number of rows. */
  function Place(rows: seq<Segment>, s: Segment): (i: nat)
    ensures i <= |rows| && (i < |rows| ==> Same(rows[i], s))
    ensures i == |rows| <==> Fresh(s, rows)
  {
    if rows == [] then 0 else if Same(rows[0], s) then 0 else 1 + Place(rows[1..], s)
  }

  /** `putSegment`: the rows afterwards, or nothing when it throws.  A temporary row may become
      final once, as it is; any other change of a row is refused. */
  function Put(rows: seq<Segment>, s: Segment): Option<seq<Segment>> {
    var i := Place(rows, s);
    if i < |rows| then
      var promoted := !rows[i].final && s.final;
      if rows[i].(final := promoted || rows[i].final) != s then None
      else if !promoted then Some(rows)
      else if s.sequence < Next(rows) then None
      else Some(rows[i := s])
    else if s.final && s.sequence < Next(rows) then None
    else Some(rows + [s])
  }

  // ---- what every row satisfies -----------------------------------------------------------

  /** Rows come in the order of their sequences, so the order in which they were written is the
      order in which they are read; none comes twice; and only the last may be temporary. */
  ghost predicate Tidy(rows: seq<Segment>) {
    && (forall i, j :: 0 <= i < j < |rows| ==> rows[i].sequence < rows[j].sequence && !Same(rows[i], rows[j]))
    && (forall i :: 0 <= i < |rows| ==> rows[i].sequence >= 1)
    && (forall i :: 0 <= i < |rows| - 1 ==> rows[i].final)
  }

  ghost predicate AllFinal(rows: seq<Segment>) {
    forall i :: 0 <= i < |rows| ==> rows[i].final
  }

  function Promoted(s: Segment): Segment {
    s.(final := true)
  }

  /** The row that is written as final next: the last row, or one that is final already, or one
      whose transaction was rolled back. */
  ghost predicate Held(p: Segment, rows: seq<Segment>) {
    && !p.final && p.sequence >= 1
    && ((rows != [] && rows[|rows| - 1] == p)
        || (AllFinal(rows) && Promoted(p) in rows)
        || (AllFinal(rows) && Fresh(p, rows) && p.sequence >= Next(rows)))
  }

  lemma PlaceOf(rows: seq<Segment>, i: nat)
    requires Tidy(rows) && i < |rows|
    ensures forall s :: Same(rows[i], s) ==> Place(rows, s) == i
  {
    forall s | Same(rows[i], s)
      ensures Place(rows, s) == i
    {
      var k := Place(rows, s);
      assert !Fresh(s, rows);
      assert Same(rows[k], rows[i]);
    }
  }

  lemma AboveAll(rows: seq<Segment>)
    requires Tidy(rows) && AllFinal(rows)
    ensures forall i :: 0 <= i < |rows| ==> rows[i].sequence < Next(rows)
  {
    forall i | 0 <= i < |rows|
      ensures rows[i].sequence < Next(rows)
    {
      NextIsAbove(rows, i);
    }
  }

  /** Writing a new row behind final ones. */
  lemma AppendTidy(rows: seq<Segment>, s: Segment)
    requires Tidy(rows) && AllFinal(rows) && Fresh(s, rows) && s.sequence >= Next(rows)
    ensures Put(rows, s) == Some(rows + [s]) && Tidy(rows + [s])
    ensures Tidy(rows + [s.(final := true)]) && AllFinal(rows + [s.(final := true)])
  {
    AboveAll(rows);
  }

  /** The last row becomes final. */
  lemma PromoteTidy(rows: seq<Segment>)
    requires Tidy(rows) && rows != [] && !rows[|rows| - 1].final
    ensures var last := rows[|rows| - 1];
            && Put(rows, Promoted(last)) == Some(rows[|rows| - 1 := Promoted(last)])
            && Tidy(rows[|rows| - 1 := Promoted(last)]) && AllFinal(rows[|rows| - 1 := Promoted(last)])
  {
    var n := |rows| - 1;
    PlaceOf(rows, n);
    NextIsLeast(rows, rows[n].sequence);
  }

  /** What `finalizeProvisional` makes of the rows. */
  function Finalized(rows: seq<Segment>, p: Segment): seq<Segment> {
    if rows != [] && rows[|rows| - 1] == p then rows[|rows| - 1 := Promoted(p)]
    else if Promoted(p) in rows then rows
    else rows + [Promoted(p)]
  }

  lemma FinalizedTidy(rows: seq<Segment>, p: Segment)
    requires Tidy(rows) && Held(p, rows)
    ensures Put(rows, Promoted(p)) == Some(Finalized(rows, p))
    ensures Tidy(Finalized(rows, p)) && AllFinal(Finalized(rows, p)) && Promoted(p) in Finalized(rows, p)
  {
    if rows != [] && rows[|rows| - 1] == p {
      PromoteTidy(rows);
      assert Finalized(rows, p)[|rows| - 1] == Promoted(p);
    } else if Promoted(p) in rows {
      var i :| 0 <= i < |rows| && rows[i] == Promoted(p);
      PlaceOf(rows, i);
    } else {
      AppendTidy(rows, Promoted(p));
      assert Promoted(p).(final := true) == Promoted(p);
      assert Finalized(rows, p)[|rows|] == Promoted(p);
    }
  }

  // ---- one chunk --------------------------------------------------------------------------

  /** The rows of a chunk: one for each result that is not blank, numbered from `next`.  A result
      is its text once an overlap is removed, or nothing when that is blank. */
  function Recorded(chunk: ChunkID, results: seq<Option<string>>, next: nat): (rows: seq<Segment>)
    ensures |rows| <= |results|
  {
    if results == [] then []
    else
      var n := |results| - 1;
      var front := Recorded(chunk, results[..n], next);
      match results[n]
      case Some(text) => front + [Segment(chunk, n, next + |front|, text, true)]
      case None => front
  }

  /** The last of them waits to become final. */
  function Written(rows: seq<Segment>): (written: seq<Segment>)
    ensures |written| == |rows|
  {
    if rows == [] then [] else rows[..|rows| - 1] + [rows[|rows| - 1].(final := false)]
  }

  /** No result that is not blank has its row already. */
  ghost predicate Unwritten(chunk: ChunkID, results: seq<Option<string>>, rows: seq<Segment>) {
    forall k, i :: 0 <= k < |results| && results[k].Some? && 0 <= i < |rows| ==>
      !(rows[i].chunk == chunk && rows[i].index == k)
  }

  /** Where a transaction is refused or fails: making the row before result `k` final, writing the
      row of result `k`, or marking the chunk as done. */
  datatype Fault = Never | OnPromoting(k: nat) | OnWriting(k: nat) | OnJob

  ghost predicate Remembered(provisional: Option<Segment>, rows: seq<Segment>) {
    provisional.Some? ==> Held(provisional.value, rows)
  }

  function AfterFinalizing(rows: seq<Segment>, provisional: Option<Segment>): seq<Segment> {
    match provisional
    case Some(p) => Finalized(rows, p)
    case None => rows
  }

  function LastOf(rows: seq<Segment>): Option<Segment> {
    if rows == [] then None else Some(rows[|rows| - 1])
  }

  /** A row that was rolled back and is still remembered. */
  ghost predicate Lost(p: Segment, chunk: ChunkID, results: seq<Option<string>>, rows: seq<Segment>) {
    && !p.final && Holds(p, chunk, results)
    && Fresh(p, rows) && p.sequence >= Next(rows)
  }

  /** The rows are final, numbered from `next`, and each holds the result of its index. */
  ghost predicate Rightly(rows: seq<Segment>, chunk: ChunkID, results: seq<Option<string>>, next: nat) {
    forall i :: 0 <= i < |rows| ==> rows[i].final && rows[i].sequence == next + i && Holds(rows[i], chunk, results)
  }

  predicate Holds(s: Segment, chunk: ChunkID, results: seq<Option<string>>) {
    s.chunk == chunk && s.index < |results| && results[s.index] == Some(s.text)
  }

  lemma {:induction false} RecordedRightly(chunk: ChunkID, results: seq<Option<string>>, next: nat)
    ensures Rightly(Recorded(chunk, results, next), chunk, results, next)
  {
    if results != [] {
      RecordedRightly(chunk, results[..|results| - 1], next);
    }
  }

  /** Rows that are numbered on from the final ones before them. */
  lemma {:induction false} NextBehind(rows: seq<Segment>, more: seq<Segment>, chunk: ChunkID,
                                      results: seq<Option<string>>)
    requires Rightly(more, chunk, results, Next(rows))
    ensures Next(rows + more) == Next(rows) + |more|
  {
    if more == [] {
      assert rows + more == rows;
    } else {
      var n := |more| - 1;
      NextBehind(rows, more[..n], chunk, results);
      assert (rows + more)[..|rows| + n] == rows + more[..n];
    }
  }

  /** Everything of a chunk is recorded but for its results from number `k` on. */
  ghost predicate UpTo(was: seq<Segment>, chunk: ChunkID, results: seq<Option<string>>, k: nat, rows: seq<Segment>,
                       provisional: Option<Segment>)
    requires k <= |results|
  {
    var more := Recorded(chunk, results[..k], Next(was));
    && rows == was + Written(more) && provisional == LastOf(Written(more))
    && Tidy(was + more) && AllFinal(was + more)
    && Unwritten(chunk, results[..k], was)
  }

  lemma NothingRecorded(was: seq<Segment>, chunk: ChunkID, results: seq<Option<string>>)
    requires Tidy(was) && AllFinal(was)
    ensures UpTo(was, chunk, results, 0, was, None)
  {
    assert was + [] == was;
  }

  lemma WrittenTidy(was: seq<Segment>, more: seq<Segment>)
    requires Tidy(was + more) && AllFinal(was + more) && more != []
    ensures var rows, p := was + Written(more), more[|more| - 1].(final := false);
            Tidy(rows) && Held(p, rows) && LastOf(Written(more)) == Some(p) && Finalized(rows, p) == was + more
  {
    var all, rows, n := was + more, was + Written(more), |was + more| - 1;
    assert all[n] == more[|more| - 1] && rows[n] == all[n].(final := false);
    assert forall i :: 0 <= i < n ==> rows[i] == all[i];
    assert rows[n := all[n]] == all;
  }

  lemma LastIsFresh(was: seq<Segment>, more: seq<Segment>)
    requires Tidy(was + more) && more != []
    ensures Fresh(more[|more| - 1].(final := false), was)
  {
    var all, n := was + more, |was + more| - 1;
    assert all[n] == more[|more| - 1];
    forall i | 0 <= i < |was|
      ensures !Same(was[i], all[n])
    {
      assert all[i] == was[i];
    }
  }

  lemma HoldsOn(s: Segment, chunk: ChunkID, results: seq<Option<string>>, k: nat)
    requires k <= |results| && Holds(s, chunk, results[..k])
    ensures s.index < k && Holds(s, chunk, results)
  {
  }

  lemma UpToMeans(was: seq<Segment>, chunk: ChunkID, results: seq<Option<string>>, k: nat, rows: seq<Segment>,
                  provisional: Option<Segment>)
    requires k <= |results| && UpTo(was, chunk, results, k, rows, provisional)
    ensures Tidy(rows) && Remembered(provisional, rows) && (provisional.None? ==> AllFinal(rows))
    ensures provisional.Some? ==> Lost(provisional.value, chunk, results, was)
    ensures AfterFinalizing(rows, provisional) == was + Recorded(chunk, results[..k], Next(was))
  {
    var more := Recorded(chunk, results[..k], Next(was));
    hide Recorded, Next, Unwritten, Tidy, AllFinal, Fresh, Held, Finalized;
    if more == [] {
      assert rows == was == was + more;
    } else {
      RecordedRightly(chunk, results[..k], Next(was));
      HoldsOn(more[|more| - 1], chunk, results, k);
      WrittenTidy(was, more);
      LastIsFresh(was, more);
    }
  }

  lemma BlankNext(was: seq<Segment>, chunk: ChunkID, results: seq<Option<string>>, k: nat, rows: seq<Segment>,
                  provisional: Option<Segment>)
    requires k < |results| && UpTo(was, chunk, results, k, rows, provisional) && results[k].None?
    ensures UpTo(was, chunk, results, k + 1, rows, provisional)
  {
    OneResultMore(was, chunk, results, k);
    hide Tidy, AllFinal, Unwritten, Next;
  }

  lemma OneResultMore(was: seq<Segment>, chunk: ChunkID, results: seq<Option<string>>, k: nat)
    requires k < |results| && Unwritten(chunk, results[..k], was)
    ensures var more, next := Recorded(chunk, results[..k], Next(was)), Next(was);
            Recorded(chunk, results[..k + 1], next)
            == match results[k]
               case Some(text) => more + [Segment(chunk, k, next + |more|, text, true)]
               case None => more
    ensures results[k].None? ==> Unwritten(chunk, results[..k + 1], was)
    ensures results[k].Some? ==>
              (Unwritten(chunk, results[..k + 1], was) <==> Fresh(Segment(chunk, k, 0, "", true), was))
  {
    assert results[..k + 1][..k] == results[..k];
    assert results[..k + 1][k] == results[k];
    assert forall j :: 0 <= j < k ==> results[..k + 1][j] == results[..k][j];
  }

  /** A row may be written exactly when it has not been written before. */
  lemma RowNext(was: seq<Segment>, chunk: ChunkID, results: seq<Option<string>>, k: nat, rows: seq<Segment>,
                provisional: Option<Segment>)
    requires k < |results| && UpTo(was, chunk, results, k, rows, provisional) && results[k].Some?
    ensures var before := AfterFinalizing(rows, provisional);
            var s := Segment(chunk, k, Next(before), results[k].value, false);
            && (Put(before, s).Some? <==> Unwritten(chunk, results[..k + 1], was))
            && (Put(before, s).Some? ==> UpTo(was, chunk, results, k + 1, Put(before, s).value, Some(s)))
  {
    UpToMeans(was, chunk, results, k, rows, provisional);
    UpToGives(was, chunk, results, k, rows, provisional);
    hide *;
    NextOfRecorded(was, chunk, results, k);
    RowFits(was, chunk, results, k, AfterFinalizing(rows, provisional));
  }

  lemma RowFits(was: seq<Segment>, chunk: ChunkID, results: seq<Option<string>>, k: nat, before: seq<Segment>)
    requires k < |results| && results[k].Some? && Unwritten(chunk, results[..k], was)
    requires before == was + Recorded(chunk, results[..k], Next(was)) && Tidy(before) && AllFinal(before)
    requires Next(before) == Next(was) + |Recorded(chunk, results[..k], Next(was))|
    ensures var s := Segment(chunk, k, Next(before), results[k].value, false);
            && (Put(before, s).Some? <==> Unwritten(chunk, results[..k + 1], was))
            && (Put(before, s).Some? ==> UpTo(was, chunk, results, k + 1, Put(before, s).value, Some(s)))
  {
    hide *;
    var s := Segment(chunk, k, Next(before), results[k].value, false);
    OneResultMore(was, chunk, results, k);
    FreshBehind(was, chunk, results, k, s);
    if Fresh(s, before) {
      AppendTidy(before, s);
      UpToNext(was, chunk, results, k, s);
    } else {
      RefusedAgain(before, s);
    }
  }

  lemma UpToGives(was: seq<Segment>, chunk: ChunkID, results: seq<Option<string>>, k: nat, rows: seq<Segment>,
                  provisional: Option<Segment>)
    requires k <= |results| && UpTo(was, chunk, results, k, rows, provisional)
    ensures var more := Recorded(chunk, results[..k], Next(was));
            Tidy(was + more) && AllFinal(was + more) && Unwritten(chunk, results[..k], was)
  {
  }

  lemma UpToNext(was: seq<Segment>, chunk: ChunkID, results: seq<Option<string>>, k: nat, s: Segment)
    requires k < |results| && results[k].Some? && Unwritten(chunk, results[..k + 1], was)
    requires var more := Recorded(chunk, results[..k], Next(was));
             && s == Segment(chunk, k, Next(was) + |more|, results[k].value, false)
             && Recorded(chunk, results[..k + 1], Next(was)) == more + [s.(final := true)]
             && Tidy(was + more + [s.(final := true)]) && AllFinal(was + more + [s.(final := true)])
    ensures UpTo(was, chunk, results, k + 1, was + Recorded(chunk, results[..k], Next(was)) + [s], Some(s))
  {
    hide Recorded, Next, Unwritten, Tidy, AllFinal, Written, LastOf;
    Appended(was, Recorded(chunk, results[..k], Next(was)), s);
  }

  lemma Appended(was: seq<Segment>, more: seq<Segment>, s: Segment)
    requires !s.final
    ensures was + more + [Promoted(s)] == was + (more + [Promoted(s)])
    ensures was + more + [s] == was + Written(more + [Promoted(s)]) && LastOf(Written(more + [Promoted(s)])) == Some(s)
  {
    assert Written(more + [Promoted(s)]) == more + [s];
  }

  lemma NextOfRecorded(was: seq<Segment>, chunk: ChunkID, results: seq<Option<string>>, k: nat)
    requires k <= |results|
    ensures var more := Recorded(chunk, results[..k], Next(was));
            Next(was + more) == Next(was) + |more|
  {
    RecordedRightly(chunk, results[..k], Next(was));
    hide *;
    NextBehind(was, Recorded(chunk, results[..k], Next(was)), chunk, results[..k]);
  }

  lemma FreshBehind(was: seq<Segment>, chunk: ChunkID, results: seq<Option<string>>, k: nat, s: Segment)
    requires k <= |results| && s.chunk == chunk && s.index == k
    ensures Fresh(s, was + Recorded(chunk, results[..k], Next(was))) <==> Fresh(Segment(chunk, k, 0, "", true), was)
  {
    RecordedRightly(chunk, results[..k], Next(was));
    hide Recorded, Next;
    var more := Recorded(chunk, results[..k], Next(was));
    assert forall i :: 0 <= i < |was| ==> (was + more)[i] == was[i];
    assert forall i :: 0 <= i < |more| ==> (was + more)[|was| + i] == more[i];
  }

  lemma LostMeans(chunk: ChunkID, results: seq<Option<string>>, was: seq<Segment>)
    requires AllFinal(was)
    ensures Remembered(None, was)
    ensures forall p :: Lost(p, chunk, results, was) ==> Remembered(Some(p), was)
  {
  }

  /** The rows of a chunk that went through stand behind those that were there. */
  ghost predicate Extended(was: seq<Segment>, chunk: ChunkID, results: seq<Option<string>>, rows: seq<Segment>,
                           provisional: Option<Segment>)
  {
    var more := Written(Recorded(chunk, results, Next(was)));
    rows == was + more && provisional == LastOf(more)
  }

  lemma UpToEnd(was: seq<Segment>, chunk: ChunkID, results: seq<Option<string>>, rows: seq<Segment>,
                provisional: Option<Segment>)
    requires UpTo(was, chunk, results, |results|, rows, provisional)
    ensures Extended(was, chunk, results, rows, provisional) && Unwritten(chunk, results, was)
    ensures provisional == LastOf(Written(Recorded(chunk, results, Next(was))))
  {
    assert results[..|results|] == results;
  }

  lemma UnwrittenPrefix(was: seq<Segment>, chunk: ChunkID, results: seq<Option<string>>, k: nat)
    requires k <= |results|
    ensures Unwritten(chunk, results, was) ==> Unwritten(chunk, results[..k], was)
  {
  }

  lemma RefusedAgain(rows: seq<Segment>, s: Segment)
    requires AllFinal(rows) && !s.final && !Fresh(s, rows)
    ensures Put(rows, s).None?
  {
    var i := Place(rows, s);
    assert rows[i].final;
  }

  lemma FinalizingKeepsChunks(rows: seq<Segment>, provisional: Option<Segment>, done: set<ChunkID>)
    requires forall i :: 0 <= i < |rows| ==> rows[i].chunk in done
    requires provisional.Some? ==> provisional.value.chunk in done
    ensures var after := AfterFinalizing(rows, provisional);
            forall i :: 0 <= i < |after| ==> after[i].chunk in done
  {
  }

  ghost predicate CleanRows(rows: seq<Segment>, done: set<ChunkID>) {
    forall i :: 0 <= i < |rows| ==> rows[i].chunk in done
  }

  class Transcriber {
    var rows: seq<Segment>
    /** The chunks whose job is done. */
    var done: set<ChunkID>
    /** The temporary row, as the process remembers it. */
    var provisional: Option<Segment>
    /** The chunk that waits for its inference. */
    var busy: Option<ChunkID>
    /** The process that captures the meeting still runs: after a restart nothing is transcribed. */
    var live: bool

    ghost predicate Valid()
      reads this
    {
      && Tidy(rows)
      && Remembered(provisional, rows)
      && (live && provisional.None? ==> AllFinal(rows))
      && (busy.Some? ==> live && provisional.None? && busy.value !in done)
    }

    /** No row without its chunk done: nothing was rolled back with a row to remember. */
    ghost predicate Clean()
      reads this
    {
      && CleanRows(rows, done)
      && (provisional.Some? ==> provisional.value.chunk in done)
    }

    constructor ()
      ensures Valid() && Clean() && live && rows == [] && done == {} && busy == None && provisional == None
    {
      rows, done, provisional, busy, live := [], {}, None, None, true;
    }

    /** `finalizeProvisional`. */
    method FinalizeProvisional(works: bool) returns (ok: bool)
      requires Tidy(rows) && Remembered(provisional, rows)
      modifies this`rows, this`provisional
      ensures Tidy(rows) && Remembered(provisional, rows)
      ensures ok <==> works || old(provisional).None?
      ensures !ok ==> rows == old(rows) && provisional == old(provisional)
      ensures ok ==> provisional == None && rows == AfterFinalizing(old(rows), old(provisional))
      ensures ok && (old(provisional).Some? || AllFinal(old(rows))) ==> AllFinal(rows)
    {
      match provisional {
        case None =>
          return true;
        case Some(p) =>
          FinalizedTidy(rows, p);
          if !works {
            return false;
          }
          rows, provisional := Put(rows, Promoted(p)).value, None;
          return true;
      }
    }

    /** `transcribe` up to its inference. */
    method Start(chunk: ChunkID, works: bool, jobWorks: bool) returns (started: bool)
      requires Valid() && live && busy == None
      modifies this`rows, this`provisional, this`busy
      ensures Valid() && (old(Clean()) ==> Clean())
      ensures started <==> chunk !in done && (works || old(provisional).None?) && jobWorks
      ensures busy == if started then Some(chunk) else None
      ensures started ==> AllFinal(rows) && rows == AfterFinalizing(old(rows), old(provisional))
      ensures rows in {old(rows), AfterFinalizing(old(rows), old(provisional))}
    {
      if chunk in done {
        return false;
      }
      if Clean() {
        FinalizingKeepsChunks(rows, provisional, done);
      }
      started := FinalizeProvisional(works);
      if !started || !jobWorks {
        return false;
      }
      busy := Some(chunk);
    }

    /** The transaction behind the inference.  It is undone as a whole, but for the row that the
        process remembers. */
    method Settle(results: Option<seq<Option<string>>>, fault: Fault) returns (ok: bool)
      requires Valid() && busy.Some?
      modifies this`rows, this`done, this`provisional, this`busy
      ensures Valid() && busy == None
      ensures ok ==>
                && results.Some? && done == old(done) + {old(busy).value}
                && Extended(old(rows), old(busy).value, results.value, rows, provisional)
      ensures !ok ==> rows == old(rows) && done == old(done)
      ensures !ok && provisional.Some? ==>
                results.Some? && Lost(provisional.value, old(busy).value, results.value, rows)
      ensures fault.Never? ==> (ok <==> results.Some? && Unwritten(old(busy).value, results.value, old(rows)))
      ensures fault.OnJob? ==> !ok
      ensures fault.OnJob? && results.Some? && Unwritten(old(busy).value, results.value, old(rows)) ==>
                provisional == LastOf(Written(Recorded(old(busy).value, results.value, Next(old(rows)))))
      ensures old(Clean()) && fault.Never? ==> (ok <==> results.Some?)
      ensures old(Clean()) ==> (Clean() <==> ok || provisional.None?)
    {
      var chunk := busy.value;
      CleanIsUnwritten(chunk);
      hide *;
      busy := None;
      if results.None? {
        return false;
      }
      ok := Record(chunk, results.value, fault);
      SettledClean(old(rows), old(done), chunk, results.value, ok);
    }

    lemma CleanIsUnwritten(chunk: ChunkID)
      ensures Clean() && chunk !in done ==> forall results :: Unwritten(chunk, results, rows)
    {
    }

    lemma SettledClean(was: seq<Segment>, before: set<ChunkID>, chunk: ChunkID, results: seq<Option<string>>, ok: bool)
      requires chunk !in before && Remembered(provisional, rows)
      requires ok ==> done == before + {chunk} && Extended(was, chunk, results, rows, provisional)
      requires !ok ==> rows == was && done == before
      requires !ok && provisional.Some? ==> Lost(provisional.value, chunk, results, rows)
      ensures CleanRows(was, before) ==> (Clean() <==> ok || provisional.None?)
    {
      if ok {
        RecordedRightly(chunk, results, Next(was));
      }
    }

    method Record(chunk: ChunkID, results: seq<Option<string>>, fault: Fault) returns (ok: bool)
      requires Tidy(rows) && AllFinal(rows) && provisional == None
      modifies this`rows, this`done, this`provisional
      ensures Tidy(rows) && Remembered(provisional, rows) && (provisional.None? ==> AllFinal(rows))
      ensures ok ==> done == old(done) + {chunk} && Extended(old(rows), chunk, results, rows, provisional)
      ensures ok ==> Unwritten(chunk, results, old(rows))
      ensures !ok ==> rows == old(rows) && done == old(done)
      ensures !ok && provisional.Some? ==> Lost(provisional.value, chunk, results, rows)
      ensures fault.Never? && Unwritten(chunk, results, old(rows)) ==> ok
      ensures fault.OnJob? ==> !ok && (Unwritten(chunk, results, old(rows)) ==>
                provisional == LastOf(Written(Recorded(chunk, results, Next(old(rows))))))
    {
      var was := rows;
      LostMeans(chunk, results, was);
      hide *;
      ok := RecordRows(chunk, results, fault);
      if !ok {
        rows := was;
        return;
      }
      UpToMeans(was, chunk, results, |results|, rows, provisional);
      UpToEnd(was, chunk, results, rows, provisional);
      if fault.OnJob? {
        rows := was;
        return false;
      }
      done := done + {chunk};
    }

    method RecordRows(chunk: ChunkID, results: seq<Option<string>>, fault: Fault) returns (ok: bool)
      requires Tidy(rows) && AllFinal(rows) && provisional == None
      modifies this`rows, this`provisional
      ensures ok ==> UpTo(old(rows), chunk, results, |results|, rows, provisional)
      ensures !ok && provisional.Some? ==> Lost(provisional.value, chunk, results, old(rows))
      ensures (fault.Never? || fault.OnJob?) && Unwritten(chunk, results, old(rows)) ==> ok
    {
      hide *;
      ghost var was := rows;
      NothingRecorded(was, chunk, results);
      for k := 0 to |results|
        invariant UpTo(was, chunk, results, k, rows, provisional)
      {
        match results[k] {
          case None =>
            BlankNext(was, chunk, results, k, rows, provisional);
          case Some(_) =>
            UpToMeans(was, chunk, results, k, rows, provisional);
            ok := RecordOne(was, chunk, results, k, fault);
            if !ok {
              return;
            }
        }
      }
      return true;
    }

    method RecordOne(ghost was: seq<Segment>, chunk: ChunkID, results: seq<Option<string>>, k: nat, fault: Fault)
      returns (ok: bool)
      requires k < |results| && UpTo(was, chunk, results, k, rows, provisional) && results[k].Some?
      modifies this`rows, this`provisional
      ensures ok ==> UpTo(was, chunk, results, k + 1, rows, provisional)
      ensures !ok ==> provisional in {None, old(provisional)}
      ensures (fault.Never? || fault.OnJob?) && Unwritten(chunk, results, was) ==> ok
    {
      UpToMeans(was, chunk, results, k, rows, provisional);
      RowNext(was, chunk, results, k, rows, provisional);
      UnwrittenPrefix(was, chunk, results, k + 1);
      hide *;
      ok := FinalizeProvisional(fault != OnPromoting(k));
      if !ok {
        return;
      }
      var s := Segment(chunk, k, Next(rows), results[k].value, false);
      var next := Put(rows, s);
      if fault == OnWriting(k) || next.None? {
        return false;
      }
      rows, provisional := next.value, Some(s);
    }

    /** `finalizeRecovered`: every temporary row of a meeting that is not being captured becomes
        final, unless the store fails on the way. */
    method FinalizeRecovered(works: bool) returns (ok: bool)
      requires Valid()
      modifies this`rows
      ensures Valid() && (old(Clean()) ==> Clean())
      ensures ok ==> AllFinal(rows) && |rows| == |old(rows)| && Grows(old(rows), rows)
      ensures !ok ==> rows == old(rows)
      ensures works ==> ok
    {
      var read := rows;
      for i := 0 to |read|
        invariant rows == read == old(rows)
        invariant forall j :: 0 <= j < i ==> read[j].final
      {
        if !read[i].final {
          assert i == |rows| - 1;
          PromoteTidy(rows);
          if !works {
            return false;
          }
          PromotedIsHeld(rows, provisional);
          rows := Put(rows, Promoted(read[i])).value;
          return true;
        }
      }
      return true;
    }

    /** A new process: nothing is remembered, and nothing more is transcribed. */
    method Restart()
      requires Valid()
      modifies this`provisional, this`busy, this`live
      ensures Valid() && !live && (old(Clean()) ==> Clean())
    {
      provisional, busy, live := None, None, false;
    }
  }

  lemma PromotedIsHeld(rows: seq<Segment>, provisional: Option<Segment>)
    requires Tidy(rows) && Remembered(provisional, rows) && rows != [] && !rows[|rows| - 1].final
    ensures Remembered(provisional, rows[|rows| - 1 := Promoted(rows[|rows| - 1])])
  {
    PromoteTidy(rows);
    var after := rows[|rows| - 1 := Promoted(rows[|rows| - 1])];
    assert after[|rows| - 1] in after;
  }

  // ---- a transaction that is rolled back --------------------------------------------------

  /** A chunk that was rolled back is transcribed again.  The row that is still remembered becomes
      final first, so the new attempt goes through exactly when it leaves no text for that row. */
  method Retry(t: Transcriber, chunk: ChunkID, results: seq<Option<string>>) returns (ok: bool)
    requires t.Valid() && t.live && t.busy == None && CleanRows(t.rows, t.done) && chunk !in t.done
    requires t.provisional.Some? && t.provisional.value.chunk == chunk
    modifies t
    ensures t.Valid() && t.live && t.busy == None
    ensures var p := old(t.provisional.value);
            && (ok <==> p.index >= |results| || results[p.index].None?)
            && Promoted(p) in t.rows
            && (!ok ==> t.rows == old(t.rows) + [Promoted(p)] && t.done == old(t.done))
  {
    ghost var p, was := t.provisional.value, t.rows;
    LostIsWritten(p, chunk, results, was, t.done);
    var started := t.Start(chunk, true, true);
    assert t.rows == was + [Promoted(p)] && t.rows[|was|] == Promoted(p);
    ok := t.Settle(Some(results), Never);
    assert t.rows[|was|] == Promoted(p);
  }

  lemma LostIsWritten(p: Segment, chunk: ChunkID, results: seq<Option<string>>, rows: seq<Segment>,
                      done: set<ChunkID>)
    requires CleanRows(rows, done) && p.chunk == chunk && chunk !in done
    ensures Finalized(rows, p) == rows + [Promoted(p)]
    ensures Unwritten(chunk, results, rows + [Promoted(p)]) <==> p.index >= |results| || results[p.index].None?
  {
    var after := rows + [Promoted(p)];
    assert after[|rows|] == Promoted(p);
    assert forall i :: 0 <= i < |rows| ==> after[i] == rows[i];
  }

  /** Two sentences, and a store that fails once, when their job is to be marked as done.  The
      last sentence gets into the transcript all the same, and while the inference finds a second
      sentence the first never does. */
  method OneFailure(again: seq<Option<string>>) returns (t: Transcriber, ok: bool)
    ensures fresh(t) && t.Valid()
    ensures ok <==> |again| < 2 || again[1].None?
    ensures !ok ==> t.rows == [Segment(7, 1, 2, "two", true)] && t.done == {}
  {
    t := new Transcriber();
    var results := [Some("one"), Some("two")];
    var started := t.Start(7, true, true);
    ok := t.Settle(Some(results), OnJob);
    TwoRows();
    ok := Retry(t, 7, again);
  }

  lemma TwoRows()
    ensures var results := [Some("one"), Some("two")];
            && Written(Recorded(7, results, Next([])))
               == [Segment(7, 0, 1, "one", true), Segment(7, 1, 2, "two", false)]
            && Unwritten(7, results, [])
  {
    var results := [Some("one"), Some("two")];
    assert results[..1] == [Some("one")] && results[..1][..0] == [];
    assert Recorded(7, results[..1][..0], 1) == [];
    assert Recorded(7, results[..1], 1) == [Segment(7, 0, 1, "one", true)];
  }

  // ---- whole runs ---------------------------------------------------------------------------

  datatype Event =
    | OnStart(chunk: ChunkID, works: bool, jobWorks: bool)
    | OnSettled(results: Option<seq<Option<string>>>, fault: Fault)
    | OnFinalize(works: bool)
    | OnRecover(works: bool)
    | OnRestart

  /** Rows are only added at the end and made final: none is lost, moved or changed. */
  ghost predicate Grows(was: seq<Segment>, now: seq<Segment>) {
    |was| <= |now| && forall i :: 0 <= i < |was| ==> now[i] == was[i] || now[i] == Promoted(was[i])
  }

  lemma GrowsTwice(a: seq<Segment>, b: seq<Segment>, c: seq<Segment>)
    requires Grows(a, b) && Grows(b, c)
    ensures Grows(a, c)
  {
  }

  /** Any transcriptions, with any outcomes, and any other reason to make a row final in between;
      an event that cannot happen now is ignored. */
  method Run(t: Transcriber, events: seq<Event>)
    requires t.Valid()
    modifies t
    ensures t.Valid() && Tidy(t.rows) && Grows(old(t.rows), t.rows)
  {
    hide Tidy, Remembered, AllFinal, CleanRows, Grows;
    GrowsNot(t.rows);
    for i := 0 to |events|
      invariant t.Valid() && Grows(old(t.rows), t.rows)
    {
      ghost var was := t.rows;
      Handle(t, events[i]);
      GrowsTwice(old(t.rows), was, t.rows);
    }
  }

  method Handle(t: Transcriber, event: Event)
    requires t.Valid()
    modifies t
    ensures t.Valid() && Grows(old(t.rows), t.rows)
    ensures event == OnFinalize(true) ==>
              t.provisional == None && t.rows == AfterFinalizing(old(t.rows), old(t.provisional))
    ensures event.OnRestart? ==> !t.live && t.rows == old(t.rows)
  {
    hide Tidy, AllFinal, CleanRows, Grows, Extended;
    ghost var was := t.rows;
    GrowsNot(was);
    match event {
      case OnStart(chunk, works, jobWorks) =>
        if t.live && t.busy == None {
          FinalizingGrows(was, t.provisional);
          var _ := t.Start(chunk, works, jobWorks);
        }
      case OnSettled(results, fault) =>
        if t.busy.Some? {
          ghost var chunk := t.busy.value;
          var ok := t.Settle(results, fault);
          if ok {
            ExtendedGrows(was, chunk, results.value, t.rows, t.provisional);
          }
        }
      case OnFinalize(works) =>
        FinalizingGrows(was, t.provisional);
        var _ := t.FinalizeProvisional(works);
      case OnRecover(works) =>
        var _ := t.FinalizeRecovered(works);
      case OnRestart =>
        t.Restart();
    }
  }

  lemma GrowsNot(rows: seq<Segment>)
    ensures Grows(rows, rows)
  {
  }

  lemma FinalizingGrows(rows: seq<Segment>, provisional: Option<Segment>)
    ensures Grows(rows, AfterFinalizing(rows, provisional))
  {
  }

  lemma ExtendedGrows(was: seq<Segment>, chunk: ChunkID, results: seq<Option<string>>, rows: seq<Segment>,
                      provisional: Option<Segment>)
    requires Extended(was, chunk, results, rows, provisional)
    ensures Grows(was, rows)
  {
  }

  // ---- and its analysis ---------------------------------------------------------------------

  /** The rows as an analysis sees them; `size` is the length of a row inside a prompt. */
  function Shown(rows: seq<Segment>, size: Segment -> nat): seq<Row> {
    seq(|rows|, i requires 0 <= i < |rows| => Row(rows[i].sequence, rows[i].final, size(rows[i])))
  }

  /** A transcript is in the store's order and has at most one temporary row. */
  lemma TranscriptIsOrdered(rows: seq<Segment>, size: Segment -> nat)
    requires Tidy(rows)
    ensures Ordered(Shown(rows, size)) && Temporary(Shown(rows, size)) <= 1 && OnlyLastIsTemporary(Shown(rows, size))
  {
    var shown := Shown(rows, size);
    if rows != [] {
      NoneTemporary(shown[..|shown| - 1]);
    }
  }

  lemma {:induction false} NoneTemporary(rows: seq<Row>)
    requires forall i :: 0 <= i < |rows| ==> rows[i].final
    ensures Temporary(rows) == 0
  {
    if rows != [] {
      NoneTemporary(rows[..|rows| - 1]);
    }
  }

  lemma {:induction false} MarksMean(rows: seq<Row>, was: seq<Checkpoint>, now: seq<Checkpoint>, batches: seq<Batch>)
    requires MarksAll(rows, true, was, now, batches) && !AnyMixed(rows)
    ensures was <= now
    ensures forall j :: |was| <= j < |now| && now[j].final ==> Remaining(rows, now[j].through) == []
  {
    hide Remaining, AnyMixed;
  }

  /** A final analysis of a transcript, whatever happened while it was written: one that goes
      through covers every final row behind its starting checkpoint, and a reconciliation every
      final row.  Whether or not it goes through, no checkpoint is marked as final in front of rows
      that are left. */
  method Analyse(t: Transcriber, size: Segment -> nat, e: Extraction, reconcile: bool)
    returns (ok: bool, ghost batches: seq<Batch>)
    requires t.Valid() && e.rows == Shown(t.rows, size)
    modifies e
    ensures e.answering && e.Roomy() ==> ok
    ensures ok ==> Flat(batches) == Remaining(e.rows, if reconcile then 0 else Through(old(e.checkpoints)))
    ensures ok ==> e.checkpoints != [] && e.checkpoints[|e.checkpoints| - 1].final
    ensures old(e.checkpoints) <= e.checkpoints
    ensures forall j :: |old(e.checkpoints)| <= j < |e.checkpoints| && e.checkpoints[j].final ==>
              Remaining(e.rows, e.checkpoints[j].through) == []
    ensures ok && reconcile ==>
              forall i :: 0 <= i < |t.rows| && t.rows[i].final ==>
                Row(t.rows[i].sequence, true, size(t.rows[i])) in Flat(batches)
  {
    TranscriptIsOrdered(t.rows, size);
    ghost var start := if reconcile then 0 else Through(e.checkpoints);
    NeverMixed(e.rows);
    ghost var was := e.checkpoints;
    ok, batches := e.Extract(true, reconcile);
    MarksMean(e.rows, was, e.checkpoints, batches);
    hide Ordered, Temporary, OnlyLastIsTemporary, AnyMixed, MarksAll, Ended, Consecutive, Remaining;
    if ok {
      OneTemporaryRowIsCovered(e.rows, start, batches, e.checkpoints);
      RemainingIs(e.rows, start);
      forall i | reconcile && 0 <= i < |t.rows| && t.rows[i].final
        ensures Row(t.rows[i].sequence, true, size(t.rows[i])) in Flat(batches)
      {
        assert e.rows[i] in e.rows;
      }
    }
  }
}
