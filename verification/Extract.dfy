/** `MeetingIntelligence.extract`: analysing a transcript page by page, and what one prompt holds. */
module Extract {
  import opened Wrappers

  /** A transcript row; `size` is the length of its rendering inside a prompt. */
  datatype Row = Row(sequence: nat, final: bool, size: nat)

  datatype Checkpoint = Checkpoint(through: nat, final: bool)

  const PAGE: nat := 100

  // ---- one prompt -----------------------------------------------------------------------

  function Sum(rows: seq<Row>): nat {
    if rows == [] then 0 else Sum(rows[..|rows| - 1]) + rows[|rows| - 1].size
  }

  /** The length of a prompt: instructions, summary and knowledge in `base`, then the rows with
      a comma between each two. */
  function Rendered(base: nat, rows: seq<Row>): nat {
    base + Sum(rows) + if |rows| > 1 then |rows| - 1 else 0
  }

  /** The elements of a JSON array, as they are printed. */
  function Joined(texts: seq<string>): string {
    if texts == [] then ""
    else if |texts| == 1 then texts[0]
    else Joined(texts[..|texts| - 1]) + "," + texts[|texts| - 1]
  }

  lemma {:induction false} RenderedIsJoined(base: nat, rows: seq<Row>, texts: seq<string>)
    requires |texts| == |rows| && forall i :: 0 <= i < |rows| ==> |texts[i]| == rows[i].size
    ensures Rendered(base, rows) == base + |Joined(texts)|
  {
    if |rows| > 0 {
      RenderedIsJoined(base, rows[..|rows| - 1], texts[..|rows| - 1]);
    }
  }

  function Finals(rows: seq<Row>): seq<Row> {
    if rows == [] then []
    else if rows[|rows| - 1].final then Finals(rows[..|rows| - 1]) + [rows[|rows| - 1]]
    else Finals(rows[..|rows| - 1])
  }

  datatype Context = Selected(rows: seq<Row>) | NoRoom | TooLong

  /** The longest prefix that fits. */
  ghost predicate Longest(base: nat, finals: seq<Row>, limit: nat, selected: seq<Row>) {
    && selected <= finals
    && Rendered(base, selected) <= limit
    && forall n :: |selected| < n <= |finals| ==> Rendered(base, finals[..n]) > limit
  }

  lemma {:induction false} RenderedGrows(base: nat, rows: seq<Row>, m: nat, n: nat)
    requires m <= n <= |rows|
    ensures Rendered(base, rows[..m]) <= Rendered(base, rows[..n])
  {
    if m < n {
      RenderedGrows(base, rows, m, n - 1);
      assert rows[..n][..n - 1] == rows[..n - 1];
    }
  }

  lemma FinalsNext(rows: seq<Row>, i: nat)
    requires i < |rows|
    ensures Finals(rows[..i + 1]) == if rows[i].final then Finals(rows[..i]) + [rows[i]] else Finals(rows[..i])
  {
    assert rows[..i + 1][..i] == rows[..i];
  }

  lemma {:induction false} FinalsPrefix(rows: seq<Row>, i: nat)
    requires i <= |rows|
    ensures Finals(rows[..i]) <= Finals(rows)
    decreases |rows| - i
  {
    if i < |rows| {
      FinalsNext(rows, i);
      FinalsPrefix(rows, i + 1);
    } else {
      assert rows[..i] == rows;
    }
  }

  /** `assembleContext`: rows are pushed until one does not fit. */
  method AssembleContext(segments: seq<Row>, base: nat, limit: nat) returns (context: Context)
    ensures context.NoRoom? <==> Rendered(base, []) > limit
    ensures context.Selected? ==> Longest(base, Finals(segments), limit, context.rows)
    ensures context.Selected? ==> (context.rows == [] <==> Finals(segments) == [])
    ensures context.TooLong? <==>
              Rendered(base, []) <= limit && Finals(segments) != [] && Rendered(base, Finals(segments)[..1]) > limit
  {
    if Rendered(base, []) > limit {
      return NoRoom;
    }
    var selected: seq<Row> := [];
    FinalsEnds(segments);
    hide *;
    for i := 0 to |segments|
      invariant selected == Finals(segments[..i]) && Rendered(base, selected) <= limit
    {
      FinalsNext(segments, i);
      if segments[i].final {
        selected := selected + [segments[i]];
        if Rendered(base, selected) > limit {
          StopsHere(segments, i, base, limit);
          selected := selected[..|selected| - 1];
          context := Conclude(segments, base, limit, selected);
          return;
        }
      }
    }
    AllFit(base, selected, limit);
    context := Conclude(segments, base, limit, selected);
  }

  method Conclude(segments: seq<Row>, base: nat, limit: nat, selected: seq<Row>) returns (context: Context)
    requires Longest(base, Finals(segments), limit, selected)
    ensures context == if Finals(segments) != [] && selected == [] then TooLong else Selected(selected)
    ensures !context.NoRoom?
    ensures context.TooLong? <==> Finals(segments) != [] && Rendered(base, Finals(segments)[..1]) > limit
    ensures context.Selected? ==> Longest(base, Finals(segments), limit, context.rows)
    ensures context.Selected? ==> (context.rows == [] <==> Finals(segments) == [])
  {
    LongestMeans(base, Finals(segments), limit, selected);
    LongestIsPrefix(base, Finals(segments), limit, selected);
    hide *;
    return if Finals(segments) != [] && selected == [] then TooLong else Selected(selected);
  }

  lemma {:induction false} FinalsTwice(rows: seq<Row>)
    ensures Finals(Finals(rows)) == Finals(rows)
  {
    if rows != [] {
      FinalsTwice(rows[..|rows| - 1]);
      FinalsSnoc(Finals(rows[..|rows| - 1]), rows[|rows| - 1]);
    }
  }

  lemma FinalsEnds(segments: seq<Row>)
    ensures Finals(segments[..0]) == [] && segments[..|segments|] == segments
  {
  }

  lemma AllFit(base: nat, finals: seq<Row>, limit: nat)
    requires Rendered(base, finals) <= limit
    ensures Longest(base, finals, limit, finals)
  {
  }

  lemma {:induction false} StopsHere(segments: seq<Row>, i: nat, base: nat, limit: nat)
    requires i < |segments| && segments[i].final
    requires Rendered(base, Finals(segments[..i])) <= limit < Rendered(base, Finals(segments[..i]) + [segments[i]])
    ensures Longest(base, Finals(segments), limit, Finals(segments[..i]))
  {
    var finals, kept := Finals(segments), Finals(segments[..i]);
    FinalsNext(segments, i);
    FinalsPrefix(segments, i);
    FinalsPrefix(segments, i + 1);
    assert finals[..|kept| + 1] == kept + [segments[i]];
    TooMany(base, finals, limit, |kept| + 1);
  }

  lemma LongestMeans(base: nat, finals: seq<Row>, limit: nat, selected: seq<Row>)
    requires Longest(base, finals, limit, selected)
    ensures finals != [] ==> (selected == [] <==> Rendered(base, finals[..1]) > limit)
  {
    if selected != [] {
      RenderedGrows(base, finals, 1, |selected|);
      assert finals[..|selected|] == selected;
    }
  }

  /** What does not fit does not fit with more behind it. */
  lemma TooMany(base: nat, finals: seq<Row>, limit: nat, n: nat)
    requires n <= |finals| && Rendered(base, finals[..n]) > limit
    ensures forall m :: n <= m <= |finals| ==> Rendered(base, finals[..m]) > limit
  {
    forall m | n <= m <= |finals|
      ensures Rendered(base, finals[..m]) > limit
    {
      RenderedGrows(base, finals, n, m);
    }
  }

  // ---- pages of a transcript ------------------------------------------------------------

  /** The store's order: by sequence, with the sequences of final rows distinct. */
  predicate Ordered(rows: seq<Row>) {
    && (forall i, j :: 0 <= i < j < |rows| ==> rows[i].sequence <= rows[j].sequence)
    && (forall i, j :: 0 <= i < j < |rows| && rows[i].final && rows[j].final ==> rows[i].sequence < rows[j].sequence)
  }

  /** The rows behind a cursor. */
  function Behind(rows: seq<Row>, cursor: nat): seq<Row> {
    if rows == [] then []
    else if rows[|rows| - 1].sequence > cursor then Behind(rows[..|rows| - 1], cursor) + [rows[|rows| - 1]]
    else Behind(rows[..|rows| - 1], cursor)
  }

  /** What the store returns: the first rows behind the cursor. */
  function Page(rows: seq<Row>, cursor: nat): seq<Row> {
    var behind := Behind(rows, cursor);
    if |behind| > PAGE then behind[..PAGE] else behind
  }

  /** What is left to analyse. */
  function Remaining(rows: seq<Row>, cursor: nat): seq<Row> {
    Finals(Behind(rows, cursor))
  }

  /** A page without a final row, though final rows follow. */
  predicate Stuck(rows: seq<Row>, cursor: nat) {
    Finals(Page(rows, cursor)) == [] && Remaining(rows, cursor) != []
  }

  /** The cursor once `n` final rows behind the start are analysed. */
  function Cursor(rows: seq<Row>, start: nat, n: nat): nat
    requires n <= |Remaining(rows, start)|
  {
    if n == 0 then start else Remaining(rows, start)[n - 1].sequence
  }

  /** Somewhere a hundred temporary rows stand in a row before a final one. */
  ghost predicate Blocked(rows: seq<Row>, start: nat) {
    exists n :: 0 <= n <= |Remaining(rows, start)| && Stuck(rows, Cursor(rows, start, n))
  }

  lemma {:induction false} BehindMember(rows: seq<Row>, cursor: nat)
    ensures forall r :: r in Behind(rows, cursor) <==> r in rows && r.sequence > cursor
  {
    if rows != [] {
      var front, last := rows[..|rows| - 1], rows[|rows| - 1];
      BehindMember(front, cursor);
      assert rows == front + [last];
    }
  }

  lemma {:induction false} BehindTwice(rows: seq<Row>, first: nat, second: nat)
    requires first <= second
    ensures Behind(Behind(rows, first), second) == Behind(rows, second)
  {
    if rows != [] {
      BehindTwice(rows[..|rows| - 1], first, second);
      BehindSnoc(Behind(rows[..|rows| - 1], first), rows[|rows| - 1], second);
    }
  }

  lemma BehindSnoc(rows: seq<Row>, last: Row, cursor: nat)
    ensures Behind(rows + [last], cursor)
            == if last.sequence > cursor then Behind(rows, cursor) + [last] else Behind(rows, cursor)
  {
    assert (rows + [last])[..|rows|] == rows;
  }

  lemma FinalsSnoc(rows: seq<Row>, last: Row)
    ensures Finals(rows + [last]) == if last.final then Finals(rows) + [last] else Finals(rows)
  {
    assert (rows + [last])[..|rows|] == rows;
  }

  /** Leaving out temporary rows and leaving out analysed rows commute. */
  lemma {:induction false} FinalsBehind(rows: seq<Row>, cursor: nat)
    ensures Finals(Behind(rows, cursor)) == Behind(Finals(rows), cursor)
  {
    if rows != [] {
      var front, last := rows[..|rows| - 1], rows[|rows| - 1];
      FinalsBehind(front, cursor);
      FinalsSnoc(Behind(front, cursor), last);
      BehindSnoc(Finals(front), last, cursor);
    }
  }

  predicate Increasing(rows: seq<Row>) {
    forall i, j :: 0 <= i < j < |rows| ==> rows[i].sequence < rows[j].sequence
  }

  lemma {:induction false} FinalsIncreasing(rows: seq<Row>)
    requires Ordered(rows)
    ensures Increasing(Finals(rows)) && forall r :: r in Finals(rows) <==> r in rows && r.final
  {
    if rows != [] {
      var front, last := rows[..|rows| - 1], rows[|rows| - 1];
      FrontIsOrdered(rows);
      FinalsIncreasing(front);
      hide Ordered;
      assert rows == front + [last];
    }
  }

  lemma {:induction false} FrontIsOrdered(rows: seq<Row>)
    requires Ordered(rows) && rows != []
    ensures Ordered(rows[..|rows| - 1])
    ensures rows[|rows| - 1].final ==>
              forall r :: r in rows[..|rows| - 1] && r.final ==> r.sequence < rows[|rows| - 1].sequence
  {
    var front := rows[..|rows| - 1];
    forall r | rows[|rows| - 1].final && r in front && r.final
      ensures r.sequence < rows[|rows| - 1].sequence
    {
      var i :| 0 <= i < |front| && front[i] == r;
      assert rows[i] == r;
    }
  }

  /** Behind row `n` of increasing rows stands the rest of them. */
  lemma {:induction false} BehindIncreasing(rows: seq<Row>, n: nat)
    requires Increasing(rows) && 0 < n <= |rows|
    ensures Behind(rows, rows[n - 1].sequence) == rows[n..]
  {
    var front, last, cursor := rows[..|rows| - 1], rows[|rows| - 1], rows[n - 1].sequence;
    if n == |rows| {
      NothingBehind(rows, cursor);
    } else {
      BehindIncreasing(front, n);
      assert rows[n..] == front[n..] + [last];
    }
  }

  lemma {:induction false} NothingBehind(rows: seq<Row>, cursor: nat)
    requires forall i :: 0 <= i < |rows| ==> rows[i].sequence <= cursor
    ensures Behind(rows, cursor) == []
  {
    if rows != [] {
      NothingBehind(rows[..|rows| - 1], cursor);
    }
  }

  /** The cursor moves over exactly the rows that were analysed. */
  lemma RemainingMoves(rows: seq<Row>, start: nat, n: nat)
    requires Ordered(rows) && n <= |Remaining(rows, start)|
    ensures Remaining(rows, Cursor(rows, start, n)) == Remaining(rows, start)[n..]
    ensures start <= Cursor(rows, start, n)
  {
    var left, cursor := Remaining(rows, start), Cursor(rows, start, n);
    FinalsIncreasing(rows);
    FinalsBehind(rows, start);
    FinalsBehind(rows, cursor);
    BehindMember(Finals(rows), start);
    if n > 0 {
      BehindIsIncreasing(Finals(rows), start);
      BehindTwice(Finals(rows), start, cursor);
      BehindIncreasing(left, n);
    }
  }

  lemma {:induction false} BehindIsIncreasing(rows: seq<Row>, cursor: nat)
    requires Increasing(rows)
    ensures Increasing(Behind(rows, cursor))
  {
    if rows != [] {
      var front, last := rows[..|rows| - 1], rows[|rows| - 1];
      BehindIsIncreasing(front, cursor);
      BehindMember(front, cursor);
    }
  }

  lemma {:induction false} SuffixSnoc(rows: seq<Row>, n: nat)
    requires n < |rows|
    ensures var front, last := rows[..|rows| - 1], rows[|rows| - 1];
            front[|front| - n..] + [last] == rows[|rows| - (n + 1)..]
  {
  }

  /** In order, the rows behind a cursor are the last ones. */
  lemma {:induction false} BehindIsSuffix(rows: seq<Row>, cursor: nat)
    requires forall i, j :: 0 <= i < j < |rows| ==> rows[i].sequence <= rows[j].sequence
    ensures |Behind(rows, cursor)| <= |rows| && Behind(rows, cursor) == rows[|rows| - |Behind(rows, cursor)|..]
    ensures forall i :: 0 <= i < |rows| - |Behind(rows, cursor)| ==> rows[i].sequence <= cursor
  {
    if rows != [] {
      var front, last := rows[..|rows| - 1], rows[|rows| - 1];
      if last.sequence > cursor {
        BehindIsSuffix(front, cursor);
        SuffixSnoc(rows, |Behind(front, cursor)|);
      } else {
        NothingBehind(rows, cursor);
      }
    }
  }

  /** A row on a page is still on the page when the cursor comes closer to it. */
  lemma PageMoves(rows: seq<Row>, first: nat, second: nat, r: Row)
    requires Ordered(rows) && r in Page(rows, first) && first <= second < r.sequence
    ensures r in Page(rows, second)
  {
    var behind := Behind(rows, first);
    BehindInOrder(rows, first);
    BehindTwice(rows, first, second);
    hide Ordered, Behind;
    var j :| 0 <= j < |Page(rows, first)| && Page(rows, first)[j] == r;
    assert behind[j] == r;
    SuffixMoves(behind, second, j);
  }

  lemma BehindInOrder(rows: seq<Row>, cursor: nat)
    requires Ordered(rows)
    ensures var behind := Behind(rows, cursor);
            forall i, k :: 0 <= i < k < |behind| ==> behind[i].sequence <= behind[k].sequence
  {
    BehindIsSuffix(rows, cursor);
    hide Behind;
  }

  lemma SuffixMoves(behind: seq<Row>, cursor: nat, j: nat)
    requires forall i, k :: 0 <= i < k < |behind| ==> behind[i].sequence <= behind[k].sequence
    requires j < |behind| && j < PAGE && behind[j].sequence > cursor
    ensures var left := Behind(behind, cursor);
            behind[j] in (if |left| > PAGE then left[..PAGE] else left)
  {
    BehindIsSuffix(behind, cursor);
    var left := Behind(behind, cursor);
    var skipped := |behind| - |left|;
    assert left[j - skipped] == behind[j];
  }

  lemma {:induction false} FinalsHave(rows: seq<Row>, r: Row)
    ensures r in Finals(rows) <==> r in rows && r.final
  {
    if rows != [] {
      var front, last := rows[..|rows| - 1], rows[|rows| - 1];
      FinalsHave(front, r);
      assert rows == front + [last];
    }
  }

  /** The final rows of the page at `n` are the next ones. */
  lemma PageIsNext(rows: seq<Row>, start: nat, n: nat)
    requires Ordered(rows) && n <= |Remaining(rows, start)|
    ensures Finals(Page(rows, Cursor(rows, start, n))) <= Remaining(rows, start)[n..]
  {
    var behind := Behind(rows, Cursor(rows, start, n));
    RemainingMoves(rows, start, n);
    if |behind| > PAGE {
      FinalsPrefix(behind, PAGE);
    }
  }

  /** Between two final rows of one page the cursor is never stuck. */
  lemma NotStuckOnPage(rows: seq<Row>, start: nat, n: nat, m: nat)
    requires Ordered(rows) && n <= |Remaining(rows, start)|
    requires n <= m < n + |Finals(Page(rows, Cursor(rows, start, n)))|
    ensures m < |Remaining(rows, start)| && !Stuck(rows, Cursor(rows, start, m))
  {
    PageIsNext(rows, start, n);
    var left, page := Remaining(rows, start), Page(rows, Cursor(rows, start, n));
    var r := left[m];
    assert Finals(page)[m - n] == r;
    FinalsHave(page, r);
    CursorsIncrease(rows, start, n, m);
    PageMoves(rows, Cursor(rows, start, n), Cursor(rows, start, m), r);
    FinalsHave(Page(rows, Cursor(rows, start, m)), r);
  }

  lemma CursorsIncrease(rows: seq<Row>, start: nat, n: nat, m: nat)
    requires Ordered(rows) && n <= m < |Remaining(rows, start)|
    ensures Cursor(rows, start, n) <= Cursor(rows, start, m) < Remaining(rows, start)[m].sequence
  {
    FinalsIncreasing(rows);
    FinalsBehind(rows, start);
    BehindIsIncreasing(Finals(rows), start);
    BehindMember(Finals(rows), start);
    assert Remaining(rows, start)[m] in Remaining(rows, start);
  }

  // ---- when nothing is skipped ----------------------------------------------------------

  /** What is left to analyse are the final rows behind the cursor, each once, in order. */
  lemma RemainingIs(rows: seq<Row>, start: nat)
    requires Ordered(rows)
    ensures Increasing(Remaining(rows, start))
    ensures forall r :: r in Remaining(rows, start) <==> r in rows && r.final && r.sequence > start
  {
    FinalsIncreasing(rows);
    FinalsBehind(rows, start);
    BehindIsIncreasing(Finals(rows), start);
    BehindMember(Finals(rows), start);
  }

  function Temporary(rows: seq<Row>): nat {
    if rows == [] then 0 else Temporary(rows[..|rows| - 1]) + if rows[|rows| - 1].final then 0 else 1
  }

  lemma {:induction false} FinalOrTemporary(rows: seq<Row>)
    ensures |Finals(rows)| + Temporary(rows) == |rows|
  {
    if rows != [] {
      FinalOrTemporary(rows[..|rows| - 1]);
    }
  }

  lemma {:induction false} TemporaryPrefix(rows: seq<Row>, n: nat)
    requires n <= |rows|
    ensures Temporary(rows[..n]) <= Temporary(rows)
  {
    if n == |rows| {
      assert rows[..n] == rows;
    } else {
      var front := rows[..|rows| - 1];
      TemporaryPrefix(front, n);
      assert front[..n] == rows[..n];
    }
  }

  lemma {:induction false} TemporaryBehind(rows: seq<Row>, cursor: nat)
    ensures Temporary(Behind(rows, cursor)) <= Temporary(rows)
  {
    if rows != [] {
      var front, last := rows[..|rows| - 1], rows[|rows| - 1];
      TemporaryBehind(front, cursor);
      assert (Behind(front, cursor) + [last])[..|Behind(front, cursor)|] == Behind(front, cursor);
    }
  }

  /** With fewer temporary rows than a page holds, the loop is never stuck. */
  lemma FewTemporaryRows(rows: seq<Row>, start: nat)
    requires Temporary(rows) < 100
    ensures !Blocked(rows, start)
  {
    forall n | 0 <= n <= |Remaining(rows, start)|
      ensures !Stuck(rows, Cursor(rows, start, n))
    {
      NotStuck(rows, Cursor(rows, start, n));
    }
  }

  lemma NotStuck(rows: seq<Row>, cursor: nat)
    requires Temporary(rows) < 100
    ensures !Stuck(rows, cursor)
  {
    var behind := Behind(rows, cursor);
    if |behind| > PAGE {
      FinalOrTemporary(behind[..PAGE]);
      TemporaryPrefix(behind, PAGE);
      TemporaryBehind(rows, cursor);
    }
  }

  /** A page of temporary rows in front of a final one: the loop ends before it. */
  function Hidden(n: nat): (rows: seq<Row>)
    ensures |rows| == n
  {
    seq(n, i requires 0 <= i < n => Row(i + 1, false, 1))
  }

  lemma {:induction false} HiddenIsTemporary(n: nat)
    ensures Finals(Hidden(n)) == [] && Behind(Hidden(n), 0) == Hidden(n)
  {
    if n > 0 {
      assert Hidden(n) == Hidden(n - 1) + [Row(n, false, 1)];
      HiddenIsTemporary(n - 1);
      BehindSnoc(Hidden(n - 1), Row(n, false, 1), 0);
      FinalsSnoc(Hidden(n - 1), Row(n, false, 1));
      hide *;
    }
  }

  lemma HundredTemporaryRowsBlock()
    ensures var rows := Hidden(100) + [Row(101, true, 1)];
            && Ordered(rows) && Temporary(rows) == 100 && Remaining(rows, 0) == [Row(101, true, 1)]
            && Blocked(rows, 0)
  {
    var last := Row(PAGE + 1, true, 1);
    var rows := Hidden(PAGE) + [last];
    HiddenIsTemporary(PAGE);
    BehindSnoc(Hidden(PAGE), last, 0);
    FinalsSnoc(Hidden(PAGE), last);
    FinalOrTemporary(rows);
    assert rows[..PAGE] == Hidden(PAGE);
    assert Remaining(rows, 0) == [] + [last];
    assert Cursor(rows, 0, 0) == 0 && Stuck(rows, 0);
  }

  // ---- the loop ---------------------------------------------------------------------------

  /** One call of the model: the final rows of the page, the length of everything else in the
      prompt, and the rows that went into it. */
  datatype Batch = Batch(page: seq<Row>, base: nat, rows: seq<Row>)

  function Flat(batches: seq<Batch>): seq<Row> {
    if batches == [] then [] else Flat(batches[..|batches| - 1]) + batches[|batches| - 1].rows
  }

  /** The batch takes the longest prefix that fits of the page behind the first `n` rows. */
  ghost predicate Taken(rows: seq<Row>, start: nat, limit: nat, n: nat, batch: Batch) {
    && n <= |Remaining(rows, start)|
    && batch.page == Finals(Page(rows, Cursor(rows, start, n)))
    && Longest(batch.base, batch.page, limit, batch.rows)
    && (batch.rows == [] <==> batch.page == [])
  }

  /** Each batch continues where the batch before it ended. */
  ghost predicate Consecutive(rows: seq<Row>, start: nat, limit: nat, batches: seq<Batch>) {
    && Flat(batches) <= Remaining(rows, start)
    && forall i :: 0 <= i < |batches| ==> Taken(rows, start, limit, |Flat(batches[..i])|, batches[i])
  }

  ghost predicate FreeUpTo(rows: seq<Row>, start: nat, n: nat) {
    n <= |Remaining(rows, start)| && forall m :: 0 <= m < n ==> !Stuck(rows, Cursor(rows, start, m))
  }

  lemma FlatSnoc(batches: seq<Batch>, batch: Batch)
    ensures Flat(batches + [batch]) == Flat(batches) + batch.rows
  {
    assert (batches + [batch])[..|batches|] == batches;
  }

  lemma OneMoreBatch(rows: seq<Row>, start: nat, limit: nat, batches: seq<Batch>, batch: Batch)
    requires Ordered(rows) && Consecutive(rows, start, limit, batches)
    requires Taken(rows, start, limit, |Flat(batches)|, batch)
    ensures Consecutive(rows, start, limit, batches + [batch])
  {
    var more, n := batches + [batch], |Flat(batches)|;
    FlatSnoc(batches, batch);
    BatchIsNext(rows, start, limit, n, batch);
    PrefixJoin(Flat(batches), batch.rows, Remaining(rows, start));
    hide Taken, Remaining, Flat, FreeUpTo, Ordered;
    forall i | 0 <= i < |more|
      ensures Taken(rows, start, limit, |Flat(more[..i])|, more[i])
    {
      EarlierBatches(batches, batch, i);
    }
  }

  lemma PrefixJoin<T>(first: seq<T>, second: seq<T>, all: seq<T>)
    requires first <= all && second <= all[|first|..]
    ensures first + second <= all
  {
  }

  lemma EarlierBatches(batches: seq<Batch>, batch: Batch, i: nat)
    requires i <= |batches|
    ensures (batches + [batch])[..i] == batches[..i]
    ensures (batches + [batch])[i] == if i < |batches| then batches[i] else batch
    ensures i == |batches| ==> batches[..i] == batches
  {
  }

  /** A batch holds the next rows, and the cursor is not stuck in front of any of them. */
  lemma BatchIsNext(rows: seq<Row>, start: nat, limit: nat, n: nat, batch: Batch)
    requires Ordered(rows) && Taken(rows, start, limit, n, batch)
    ensures batch.rows <= Remaining(rows, start)[n..]
    ensures batch.rows != [] ==> Cursor(rows, start, n + |batch.rows|) == batch.rows[|batch.rows| - 1].sequence
    ensures FreeUpTo(rows, start, n) ==> FreeUpTo(rows, start, n + |batch.rows|)
  {
    PageIsNext(rows, start, n);
    LongestIsPrefix(batch.base, batch.page, limit, batch.rows);
    hide Remaining, Page, Finals, Longest, Stuck, Ordered;
    var left := Remaining(rows, start);
    assert batch.rows == left[n..n + |batch.rows|];
    forall m | n <= m < n + |batch.rows|
      ensures !Stuck(rows, Cursor(rows, start, m))
    {
      NotStuckOnPage(rows, start, n, m);
    }
  }

  lemma LongestIsPrefix(base: nat, finals: seq<Row>, limit: nat, selected: seq<Row>)
    requires Longest(base, finals, limit, selected)
    ensures selected <= finals
  {
  }

  /** The loop ends where a page holds no final row: at the end, or where it is stuck. */
  lemma EndsAtBlock(rows: seq<Row>, start: nat, n: nat)
    requires Ordered(rows) && FreeUpTo(rows, start, n)
    requires Finals(Page(rows, Cursor(rows, start, n))) == []
    ensures n == |Remaining(rows, start)| <==> !Blocked(rows, start)
  {
    RemainingMoves(rows, start, n);
    hide Remaining, Page, Finals;
    if n == |Remaining(rows, start)| {
      assert forall m :: 0 <= m <= n ==> !Stuck(rows, Cursor(rows, start, m));
    } else {
      assert Stuck(rows, Cursor(rows, start, n));
    }
  }

  datatype Turn = Again | Over | Threw

  function Last(rows: seq<Row>): nat
    requires rows != []
  {
    rows[|rows| - 1].sequence
  }

  function Through(checkpoints: seq<Checkpoint>): nat {
    if checkpoints == [] then 0 else checkpoints[|checkpoints| - 1].through
  }

  /** Where the next page begins. */
  function After(cursor: Option<nat>, checkpoints: seq<Checkpoint>): nat {
    match cursor
    case Some(at) => at
    case None => Through(checkpoints)
  }

  /** Once round the loop, from checkpoints `was` to `now`. */
  ghost predicate Turned(rows: seq<Row>, limit: nat, final: bool, cursor: Option<nat>, was: seq<Checkpoint>,
                         now: seq<Checkpoint>, turn: Turn, next: Option<nat>, batch: Option<Batch>)
  {
    var page := Finals(Page(rows, After(cursor, was)));
    match batch
    case None =>
      if turn.Threw? then now == was
      else
        && turn.Over? && page == []
        && if was == [] then now == (if final then [Checkpoint(0, true)] else [])
           else now == was && (final ==> now[|now| - 1].final)
    case Some(b) =>
      && b.page == page && Longest(b.base, page, limit, b.rows) && (b.rows == [] <==> page == [])
      && (page == [] ==> final && was != [] && !was[|was| - 1].final)
      && next == Some(if b.rows == [] then Through(was) else Last(b.rows))
      && now == was + [Checkpoint(next.value, final && |b.rows| == |page| && |page| < PAGE)]
      && turn == (if !final || page == [] then Over else Again)
  }

  /** How far the loop has come: the batches so far, and the cursor behind them. */
  ghost predicate Reached(rows: seq<Row>, limit: nat, start: nat, cursor: Option<nat>, checkpoints: seq<Checkpoint>,
                          batches: seq<Batch>)
  {
    && Consecutive(rows, start, limit, batches)
    && FreeUpTo(rows, start, |Flat(batches)|)
    && After(cursor, checkpoints) == Cursor(rows, start, |Flat(batches)|)
    && (Flat(batches) != [] ==> checkpoints != [] && Through(checkpoints) == Cursor(rows, start, |Flat(batches)|))
  }

  /** A final analysis that went through: the last checkpoint is final and is through everything,
      unless temporary rows were in the way, and only then. */
  ghost predicate Complete(rows: seq<Row>, start: nat, batches: seq<Batch>, checkpoints: seq<Checkpoint>) {
    && checkpoints != [] && checkpoints[|checkpoints| - 1].final
    && (Flat(batches) == Remaining(rows, start) <==> !Blocked(rows, start))
    && (!Blocked(rows, start) && Remaining(rows, start) != [] ==> Through(checkpoints) == Last(Remaining(rows, start)))
  }

  /** With at most one temporary row, as every transcript has, a final analysis covers everything. */
  lemma OneTemporaryRowIsCovered(rows: seq<Row>, start: nat, batches: seq<Batch>, checkpoints: seq<Checkpoint>)
    requires Temporary(rows) <= 1 && Complete(rows, start, batches, checkpoints)
    ensures Flat(batches) == Remaining(rows, start)
    ensures Remaining(rows, start) != [] ==> Through(checkpoints) == Last(Remaining(rows, start))
  {
    FewTemporaryRows(rows, start);
  }

  lemma StartReached(rows: seq<Row>, limit: nat, start: nat, cursor: Option<nat>, checkpoints: seq<Checkpoint>)
    requires start == After(cursor, checkpoints)
    ensures Reached(rows, limit, start, cursor, checkpoints, [])
  {
  }

  lemma ReachedMeans(rows: seq<Row>, limit: nat, start: nat, cursor: Option<nat>, checkpoints: seq<Checkpoint>,
                     batches: seq<Batch>)
    requires Reached(rows, limit, start, cursor, checkpoints, batches)
    ensures Consecutive(rows, start, limit, batches) && |Flat(batches)| <= |Remaining(rows, start)|
  {
  }

  /** Where the loop stops, everything is covered unless it is stuck. */
  lemma Completed(rows: seq<Row>, limit: nat, start: nat, batches: seq<Batch>, checkpoints: seq<Checkpoint>)
    requires Ordered(rows) && Consecutive(rows, start, limit, batches) && FreeUpTo(rows, start, |Flat(batches)|)
    requires Finals(Page(rows, Cursor(rows, start, |Flat(batches)|))) == []
    requires checkpoints != [] && checkpoints[|checkpoints| - 1].final
    requires Flat(batches) != [] ==> Through(checkpoints) == Cursor(rows, start, |Flat(batches)|)
    ensures Complete(rows, start, batches, checkpoints)
  {
    EndsAtBlock(rows, start, |Flat(batches)|);
    FlatIsPrefix(rows, start, limit, batches);
    hide Ordered, Page, Finals, Blocked, Taken, Consecutive, FreeUpTo, Flat, Remaining, Stuck;
  }

  lemma FlatIsPrefix(rows: seq<Row>, start: nat, limit: nat, batches: seq<Batch>)
    requires Consecutive(rows, start, limit, batches)
    ensures |Flat(batches)| <= |Remaining(rows, start)|
    ensures Flat(batches) == Remaining(rows, start) <==> |Flat(batches)| == |Remaining(rows, start)|
  {
    hide Taken, Flat, Remaining;
  }

  /** What an analysis leaves: the batches are consecutive, whether or not it went through. */
  ghost predicate Ended(rows: seq<Row>, limit: nat, start: nat, final: bool, ok: bool, batches: seq<Batch>,
                        checkpoints: seq<Checkpoint>)
  {
    && Consecutive(rows, start, limit, batches)
    && (ok && final ==> Complete(rows, start, batches, checkpoints))
    && (ok && !final && Finals(Page(rows, start)) != [] ==> Flat(batches) != [])
  }

  /** What one turn leaves, given the batches before it. */
  ghost predicate Outcome(rows: seq<Row>, limit: nat, start: nat, final: bool, turn: Turn, next: Option<nat>,
                          now: seq<Checkpoint>, batches: seq<Batch>, more: seq<Batch>)
  {
    && Consecutive(rows, start, limit, more)
    && (turn.Again? ==> final && Reached(rows, limit, start, next, now, more) && |Flat(more)| > |Flat(batches)|)
    && (turn.Over? && final ==> Complete(rows, start, more, now))
    && (turn.Over? && batches == [] && Finals(Page(rows, start)) != [] ==> Flat(more) != [])
  }

  lemma TurnWithout(rows: seq<Row>, limit: nat, start: nat, final: bool, cursor: Option<nat>, was: seq<Checkpoint>,
                    now: seq<Checkpoint>, turn: Turn, next: Option<nat>, batches: seq<Batch>)
    requires Ordered(rows) && Reached(rows, limit, start, cursor, was, batches)
    requires Turned(rows, limit, final, cursor, was, now, turn, next, None)
    ensures Outcome(rows, limit, start, final, turn, next, now, batches, batches)
  {
    assert Flat([]) == [];
    hide Ordered, Page, Finals, Consecutive, FreeUpTo, Longest, Complete, Remaining, Flat;
    if turn.Over? && final {
      Completed(rows, limit, start, batches, now);
    }
  }

  lemma TurnWith(rows: seq<Row>, limit: nat, start: nat, final: bool, cursor: Option<nat>, was: seq<Checkpoint>,
                 now: seq<Checkpoint>, turn: Turn, next: Option<nat>, b: Batch, batches: seq<Batch>)
    requires Ordered(rows) && Reached(rows, limit, start, cursor, was, batches)
    requires Turned(rows, limit, final, cursor, was, now, turn, next, Some(b))
    ensures Outcome(rows, limit, start, final, turn, next, now, batches, batches + [b])
  {
    BatchTaken(rows, limit, start, final, cursor, was, now, turn, next, b, batches);
    OneMoreBatch(rows, start, limit, batches, b);
    hide *;
    if b.rows == [] {
      LastTurn(rows, limit, start, final, cursor, was, now, turn, next, b, batches);
    } else {
      NextTurn(rows, limit, start, final, cursor, was, now, turn, next, b, batches);
    }
  }

  lemma BatchTaken(rows: seq<Row>, limit: nat, start: nat, final: bool, cursor: Option<nat>, was: seq<Checkpoint>,
                   now: seq<Checkpoint>, turn: Turn, next: Option<nat>, b: Batch, batches: seq<Batch>)
    requires Reached(rows, limit, start, cursor, was, batches)
    requires Turned(rows, limit, final, cursor, was, now, turn, next, Some(b))
    ensures Consecutive(rows, start, limit, batches) && Taken(rows, start, limit, |Flat(batches)|, b)
  {
    ReachedMeans(rows, limit, start, cursor, was, batches);
    hide Ordered, Page, Finals, Longest, Remaining, Flat, Consecutive, FreeUpTo;
  }

  /** A turn that took some rows. */
  lemma NextTurn(rows: seq<Row>, limit: nat, start: nat, final: bool, cursor: Option<nat>, was: seq<Checkpoint>,
                 now: seq<Checkpoint>, turn: Turn, next: Option<nat>, b: Batch, batches: seq<Batch>)
    requires Ordered(rows) && Reached(rows, limit, start, cursor, was, batches)
    requires Turned(rows, limit, final, cursor, was, now, turn, next, Some(b)) && b.rows != []
    requires Taken(rows, start, limit, |Flat(batches)|, b) && Consecutive(rows, start, limit, batches + [b])
    ensures Outcome(rows, limit, start, final, turn, next, now, batches, batches + [b])
  {
    var n, more := |Flat(batches)|, batches + [b];
    BatchIsNext(rows, start, limit, n, b);
    FlatSnoc(batches, b);
    FlatIsPrefix(rows, start, limit, more);
    assert FreeUpTo(rows, start, n);
    assert next == Some(Last(b.rows)) && Through(now) == Last(b.rows) && now != [];
    assert turn == if final then Again else Over;
    hide Ordered, Page, Finals, Longest, Complete, Remaining, Flat, Consecutive, FreeUpTo, Taken, Turned, Through, Last;
    assert |Flat(more)| == n + |b.rows|;
  }

  /** The turn that finds nothing more, and marks that. */
  lemma LastTurn(rows: seq<Row>, limit: nat, start: nat, final: bool, cursor: Option<nat>, was: seq<Checkpoint>,
                 now: seq<Checkpoint>, turn: Turn, next: Option<nat>, b: Batch, batches: seq<Batch>)
    requires Ordered(rows) && Reached(rows, limit, start, cursor, was, batches)
    requires Turned(rows, limit, final, cursor, was, now, turn, next, Some(b)) && b.rows == []
    requires Consecutive(rows, start, limit, batches + [b])
    ensures Outcome(rows, limit, start, final, turn, next, now, batches, batches + [b])
  {
    FlatSnoc(batches, b);
    NoRows();
    hide Ordered, Page, Finals, Longest, Complete, Remaining, Flat, Consecutive, FreeUpTo;
    assert Flat(batches + [b]) == Flat(batches);
    if final {
      Completed(rows, limit, start, batches + [b], now);
    }
  }

  lemma NoRows()
    ensures Flat([]) == []
  {
  }

  lemma OutcomeMeans(rows: seq<Row>, limit: nat, start: nat, final: bool, turn: Turn, next: Option<nat>,
                     now: seq<Checkpoint>, batches: seq<Batch>, more: seq<Batch>)
    requires Outcome(rows, limit, start, final, turn, next, now, batches, more) && (batches == [] || final)
    ensures !turn.Again? ==> Ended(rows, limit, start, final, turn.Over?, more, now)
    ensures turn.Again? ==> final && Reached(rows, limit, start, next, now, more)
    ensures turn.Again? ==> |Flat(batches)| < |Flat(more)| <= |Remaining(rows, start)|
  {
  }

  lemma OneRow(base: nat, finals: seq<Row>)
    ensures Rendered(base, []) == base
    ensures finals != [] ==> finals[0] in finals && Rendered(base, finals[..1]) == base + finals[0].size
  {
    if finals != [] {
      assert finals[..1] == [finals[0]] && finals[..1][..0] == [];
    }
  }

  lemma PageHas(rows: seq<Row>, cursor: nat)
    ensures forall r :: r in Finals(Page(rows, cursor)) ==> r in rows && r.final
  {
    BehindMember(rows, cursor);
    forall r | r in Finals(Page(rows, cursor))
      ensures r in rows && r.final
    {
      FinalsHave(Page(rows, cursor), r);
      assert r in Behind(rows, cursor);
    }
  }

  // ---- what a checkpoint may claim --------------------------------------------------------

  /** A full page with a temporary row on it, in front of more final rows. */
  predicate Mixed(rows: seq<Row>, cursor: nat) {
    && |Page(rows, cursor)| == 100 && |Finals(Page(rows, cursor))| < 100
    && |Finals(Page(rows, cursor))| < |Remaining(rows, cursor)|
  }

  ghost predicate AnyMixed(rows: seq<Row>) {
    exists cursor: nat :: Mixed(rows, cursor)
  }

  ghost predicate OnlyLastIsTemporary(rows: seq<Row>) {
    forall i :: 0 <= i < |rows| - 1 ==> rows[i].final
  }

  /** A checkpoint marked as final comes from a final analysis, and leaves nothing behind it; one of
      a final analysis without the mark leaves rows, or comes from a page of a hundred final ones. */
  ghost predicate MarkedRightly(rows: seq<Row>, final: bool, c: Checkpoint, batches: seq<Batch>) {
    && (c.final ==> final && (Remaining(rows, c.through) == [] || AnyMixed(rows)))
    && (final && !c.final ==>
          || Remaining(rows, c.through) != []
          || exists b :: b in batches && |b.page| == 100 && b.rows == b.page && Last(b.rows) == c.through)
  }

  lemma {:induction false} FinalsOfPage(rows: seq<Row>, cursor: nat)
    ensures var page, left := Finals(Page(rows, cursor)), Remaining(rows, cursor);
            && page <= left && |page| <= |Page(rows, cursor)| <= 100
            && (|Page(rows, cursor)| < 100 ==> page == left)
  {
    var behind := Behind(rows, cursor);
    FinalOrTemporary(Page(rows, cursor));
    if |behind| > PAGE {
      FinalsPrefix(behind, PAGE);
    }
  }

  /** With the last row of a batch as the cursor, what remains is what the batch left. */
  lemma {:induction false} LeftBehind(rows: seq<Row>, cursor: nat, taken: seq<Row>)
    requires Ordered(rows) && taken != [] && taken <= Finals(Page(rows, cursor))
    ensures |taken| <= |Remaining(rows, cursor)|
    ensures Remaining(rows, Last(taken)) == Remaining(rows, cursor)[|taken|..]
  {
    FinalsOfPage(rows, cursor);
    RemainingMoves(rows, cursor, |taken|);
    hide Remaining, Finals, Page, Ordered;
    assert taken[|taken| - 1] == Remaining(rows, cursor)[|taken| - 1];
  }

  lemma {:induction false} EmptyOr(rows: seq<Row>)
    ensures rows == [] || exists r :: r in rows
  {
    if rows != [] {
      assert rows[0] in rows;
    }
  }

  lemma {:induction false} NothingLeft(rows: seq<Row>, first: nat, second: nat)
    requires Ordered(rows) && Remaining(rows, first) == [] && first <= second
    ensures Remaining(rows, second) == []
  {
    RemainingIs(rows, first);
    RemainingIs(rows, second);
    hide Remaining;
    EmptyOr(Remaining(rows, second));
  }

  /** A page that holds no temporary row in front of more final ones shows whether it is the last. */
  lemma {:induction false} MarkDecides(rows: seq<Row>, cursor: nat, b: Batch, limit: nat)
    requires Ordered(rows) && b.page == Finals(Page(rows, cursor)) && b.rows != []
    requires Longest(b.base, b.page, limit, b.rows)
    ensures |b.rows| == |b.page| < 100 ==> (Remaining(rows, Last(b.rows)) == [] <==> !Mixed(rows, cursor))
    ensures !(|b.rows| == |b.page| < 100) ==>
              Remaining(rows, Last(b.rows)) != [] || (|b.page| == 100 && b.rows == b.page)
  {
    FinalsOfPage(rows, cursor);
    LongestIsPrefix(b.base, b.page, limit, b.rows);
    LeftBehind(rows, cursor, b.rows);
    hide Remaining, Finals, Page, Ordered, Longest;
  }

  /** The checkpoint that one turn adds. */
  lemma {:induction false} TurnMarks(rows: seq<Row>, limit: nat, final: bool, cursor: Option<nat>, was: seq<Checkpoint>,
                                     now: seq<Checkpoint>, turn: Turn, next: Option<nat>, batch: Option<Batch>)
    requires Ordered(rows) && Turned(rows, limit, final, cursor, was, now, turn, next, batch)
    requires After(cursor, was) <= Through(was)
    ensures MarksOne(rows, final, was, now, batch)
    ensures turn.Again? ==> After(next, now) <= Through(now)
  {
    var at := After(cursor, was);
    FinalsOfPage(rows, at);
    match batch {
      case None =>
        if now != was {
          NothingOnPage(rows, at);
        }
      case Some(b) =>
        if b.rows == [] {
          NothingOnPage(rows, at);
          if !Mixed(rows, at) {
            NothingLeft(rows, at, Through(was));
          }
        } else {
          MarkDecides(rows, at, b, limit);
        }
    }
    hide Remaining, Finals, Page, Ordered, Longest, Mixed;
  }

  lemma {:induction false} NothingOnPage(rows: seq<Row>, cursor: nat)
    requires Finals(Page(rows, cursor)) == []
    ensures Remaining(rows, cursor) == [] <==> !Mixed(rows, cursor)
  {
    FinalsOfPage(rows, cursor);
  }

  /** At most one checkpoint is added, and its mark is right.  Only for want of a mark is one added
      where no row is new. */
  ghost predicate MarksOne(rows: seq<Row>, final: bool, was: seq<Checkpoint>, now: seq<Checkpoint>,
                           batch: Option<Batch>)
  {
    now == was
    || exists c :: && now == was + [c] && MarkedRightly(rows, final, c, if batch.Some? then [batch.value] else [])
                   && (batch.None? || batch.value.rows == [] ==> final && (was == [] || !was[|was| - 1].final))
  }

  /** All checkpoints since `was` are marked rightly. */
  ghost predicate MarksAll(rows: seq<Row>, final: bool, was: seq<Checkpoint>, now: seq<Checkpoint>,
                           batches: seq<Batch>)
  {
    was <= now && forall j :: |was| <= j < |now| ==> MarkedRightly(rows, final, now[j], batches)
  }

  lemma {:induction false} NoMarks(rows: seq<Row>, final: bool, checkpoints: seq<Checkpoint>)
    ensures MarksAll(rows, final, checkpoints, checkpoints, [])
  {
  }

  lemma {:induction false} MoreMarks(rows: seq<Row>, final: bool, first: seq<Checkpoint>, was: seq<Checkpoint>,
                                     now: seq<Checkpoint>, batches: seq<Batch>, batch: Option<Batch>)
    requires MarksAll(rows, final, first, was, batches) && MarksOne(rows, final, was, now, batch)
    ensures MarksAll(rows, final, first, now, if batch.Some? then batches + [batch.value] else batches)
  {
    var more := if batch.Some? then batches + [batch.value] else batches;
    hide Remaining, AnyMixed;
    forall j | |first| <= j < |now|
      ensures MarkedRightly(rows, final, now[j], more)
    {
      if j < |was| {
        assert MarkedRightly(rows, final, was[j], batches);
      }
    }
  }

  /** When only the last row may be temporary, no page is mixed. */
  lemma {:induction false} NeverMixed(rows: seq<Row>)
    requires Ordered(rows) && OnlyLastIsTemporary(rows)
    ensures !AnyMixed(rows)
  {
    forall cursor: nat
      ensures !Mixed(rows, cursor)
    {
      var behind, page := Behind(rows, cursor), Page(rows, cursor);
      BehindIsSuffix(rows, cursor);
      if |behind| > 100 {
        assert forall i :: 0 <= i < 100 ==> page[i] == rows[|rows| - |behind| + i];
        AllOfThem(page);
      }
    }
  }

  lemma {:induction false} AllOfThem(rows: seq<Row>)
    requires forall i :: 0 <= i < |rows| ==> rows[i].final
    ensures Finals(rows) == rows
  {
    if rows != [] {
      AllOfThem(rows[..|rows| - 1]);
    }
  }

  /** One temporary row in front of a hundred final ones, which only the bare store accepts: the
      page is mixed, and its checkpoint is marked as final in front of the last row. */
  lemma {:induction false} OneTemporaryRowMisleads(finals: seq<Row>, limit: nat)
    requires |finals| == 100 && forall i :: 0 <= i < 100 ==> finals[i] == Row(i + 2, true, 1)
    requires Rendered(0, finals[..99]) <= limit
    ensures var rows := [Row(1, false, 1)] + finals;
            && Ordered(rows) && Temporary(rows) == 1 && Mixed(rows, 0)
            && Turned(rows, limit, true, None, [], [Checkpoint(100, true)], Again, Some(100),
                      Some(Batch(finals[..99], 0, finals[..99])))
            && Remaining(rows, 100) == [Row(101, true, 1)]
  {
    var rows := [Row(1, false, 1)] + finals;
    MixedPage(finals);
    hide Behind, Finals, Page, Remaining, Ordered;
    LeftBehind(rows, 0, finals[..99]);
    assert finals[..99] == finals[..99][..99] && finals[99..] == [Row(101, true, 1)];
  }

  lemma {:induction false} MixedPage(finals: seq<Row>)
    requires |finals| == 100 && forall i :: 0 <= i < 100 ==> finals[i] == Row(i + 2, true, 1)
    ensures var rows := [Row(1, false, 1)] + finals;
            && Ordered(rows) && Temporary(rows) == 1
            && |Page(rows, 0)| == 100 && Finals(Page(rows, 0)) == finals[..99] && Remaining(rows, 0) == finals
  {
    var first := Row(1, false, 1);
    var rows := [first] + finals;
    CountedUp(finals);
    AllBehind(rows);
    AllOfThem(finals);
    AllOfThem(finals[..99]);
    FinalsOfJoin(first, finals);
    FinalsOfJoin(first, finals[..99]);
    FinalOrTemporary(rows);
    hide Behind, Finals, Ordered, Temporary;
    assert rows[..100] == [first] + finals[..99];
  }

  lemma {:induction false} CountedUp(finals: seq<Row>)
    requires forall i :: 0 <= i < |finals| ==> finals[i] == Row(i + 2, true, 1)
    ensures var rows := [Row(1, false, 1)] + finals;
            Ordered(rows) && forall i :: 0 <= i < |rows| ==> rows[i].sequence > 0
  {
    var rows := [Row(1, false, 1)] + finals;
    assert forall i :: 1 <= i < |rows| ==> rows[i] == finals[i - 1];
  }

  lemma {:induction false} AllBehind(rows: seq<Row>)
    requires forall i :: 0 <= i < |rows| ==> rows[i].sequence > 0
    ensures Behind(rows, 0) == rows
  {
    if rows != [] {
      AllBehind(rows[..|rows| - 1]);
    }
  }

  lemma {:induction false} FinalsOfJoin(first: Row, rows: seq<Row>)
    requires !first.final
    ensures Finals([first] + rows) == Finals(rows)
  {
    if rows == [] {
      assert [first] + rows == [first] && [first][..0] == [];
    } else {
      var front, last := rows[..|rows| - 1], rows[|rows| - 1];
      FinalsOfJoin(first, front);
      assert ([first] + rows)[..|rows|] == [first] + front;
    }
  }

  class Extraction {
    const maxCharacters: nat
    /** The transcript, in the store's order; it does not change while it is analysed. */
    const rows: seq<Row>
    /** The most that instructions, summary and knowledge take. */
    const mostOther: nat
    /** Retrieval, generation and the store work whenever a prompt can be made. */
    const answering: bool
    var checkpoints: seq<Checkpoint>

    constructor (rows: seq<Row>, maxCharacters: nat, mostOther: nat, answering: bool, checkpoints: seq<Checkpoint>)
      ensures this.rows == rows && this.maxCharacters == maxCharacters && this.checkpoints == checkpoints
      ensures this.mostOther == mostOther && this.answering == answering
    {
      this.rows, this.maxCharacters, this.mostOther, this.answering := rows, maxCharacters, mostOther, answering;
      this.checkpoints := checkpoints;
    }

    /** There is always room for one more row. */
    ghost predicate Roomy() {
      mostOther <= maxCharacters && forall r :: r in rows && r.final ==> mostOther + r.size <= maxCharacters
    }

    /** Retrieval, generation and the checks on what comes back, any of which may throw.  The
        summary and the knowledge found decide how much room is left. */
    method Generate(segments: seq<Row>) returns (context: Option<seq<Row>>, base: nat)
      ensures context.Some? ==>
                && Longest(base, Finals(segments), maxCharacters, context.value)
                && (context.value == [] <==> Finals(segments) == [])
      ensures answering && Roomy() && (forall r :: r in Finals(segments) ==> r in rows && r.final) ==> context.Some?
    {
      base := *;
      if base > mostOther {
        base := mostOther;
      }
      OneRow(base, Finals(segments));
      var assembled := AssembleContext(segments, base, maxCharacters);
      var answered: bool := *;
      context := if (answered || answering) && assembled.Selected? then Some(assembled.rows) else None;
    }

    /** Once round the loop. */
    method Turn(final: bool, cursor: Option<nat>) returns (turn: Turn, next: Option<nat>, ghost batch: Option<Batch>)
      modifies this`checkpoints
      ensures Turned(rows, maxCharacters, final, cursor, old(checkpoints), checkpoints, turn, next, batch)
      ensures Ordered(rows) && After(cursor, old(checkpoints)) <= Through(old(checkpoints)) ==>
                MarksOne(rows, final, old(checkpoints), checkpoints, batch)
      ensures answering && Roomy() ==> !turn.Threw?
      ensures turn.Again? && After(cursor, old(checkpoints)) <= Through(old(checkpoints)) && Ordered(rows) ==>
                After(next, checkpoints) <= Through(checkpoints)
    {
      turn, next, batch := Round(final, cursor);
      ghost var was := old(checkpoints);
      hide *;
      if Ordered(rows) && After(cursor, was) <= Through(was) {
        TurnMarks(rows, maxCharacters, final, cursor, was, checkpoints, turn, next, batch);
      }
    }

    /** The body of the loop. */
    method Round(final: bool, cursor: Option<nat>) returns (turn: Turn, next: Option<nat>, ghost batch: Option<Batch>)
      modifies this`checkpoints
      ensures Turned(rows, maxCharacters, final, cursor, old(checkpoints), checkpoints, turn, next, batch)
      ensures answering && Roomy() ==> !turn.Threw?
    {
      var page := Page(rows, After(cursor, checkpoints));
      var segments := Finals(page);
      batch, next := None, cursor;
      if segments == [] && checkpoints == [] {
        if final {
          checkpoints := checkpoints + [Checkpoint(0, true)];
        }
        return Over, next, batch;
      }
      if segments == [] && (!final || checkpoints[|checkpoints| - 1].final) {
        return Over, next, batch;
      }
      var context, base := Generate(segments);
      FinalsTwice(page);
      PageHas(rows, After(cursor, checkpoints));
      if context.None? {
        return Threw, next, batch;
      }
      next := Some(if context.value == [] then Through(checkpoints) else Last(context.value));
      var last := final && |context.value| == |segments| && |segments| < PAGE;
      checkpoints := checkpoints + [Checkpoint(next.value, last)];
      batch := Some(Batch(segments, base, context.value));
      turn := if !final || segments == [] then Over else Again;
    }

    /** `extract` with `final`, `reconcile` or neither. */
    method Extract(final: bool, reconcile: bool) returns (ok: bool, ghost batches: seq<Batch>)
      requires Ordered(rows)
      modifies this`checkpoints
      ensures Ended(rows, maxCharacters, if reconcile then 0 else Through(old(checkpoints)), final, ok, batches,
                    checkpoints)
      ensures MarksAll(rows, final, old(checkpoints), checkpoints, batches)
      ensures answering && Roomy() ==> ok
    {
      var cursor: Option<nat> := if reconcile then Some(0) else None;
      ghost var start := After(cursor, checkpoints);
      batches := [];
      StartReached(rows, maxCharacters, start, cursor, checkpoints);
      NoMarks(rows, final, checkpoints);
      hide *;
      while true
        invariant Reached(rows, maxCharacters, start, cursor, checkpoints, batches)
        invariant batches == [] || final
        invariant MarksAll(rows, final, old(checkpoints), checkpoints, batches)
        invariant After(cursor, checkpoints) <= Through(checkpoints)
        decreases |Remaining(rows, start)| - |Flat(batches)|
      {
        ReachedMeans(rows, maxCharacters, start, cursor, checkpoints, batches);
        ghost var was := checkpoints;
        var turn, next, batch := Turn(final, cursor);
        ghost var more := if batch.Some? then batches + [batch.value] else batches;
        if batch.Some? {
          TurnWith(rows, maxCharacters, start, final, cursor, was, checkpoints, turn, next, batch.value, batches);
        } else {
          TurnWithout(rows, maxCharacters, start, final, cursor, was, checkpoints, turn, next, batches);
        }
        MoreMarks(rows, final, old(checkpoints), was, checkpoints, batches, batch);
        OutcomeMeans(rows, maxCharacters, start, final, turn, next, checkpoints, batches, more);
        batches := more;
        if turn.Threw? {
          return false, batches;
        }
        if turn.Over? {
          return true, batches;
        }
        cursor := next;
      }
    }
  }
}
