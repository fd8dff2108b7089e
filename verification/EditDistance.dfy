/** The character edits counted by `speechAccuracy`, against every edit script. */
module EditDistance {
  import opened Wrappers

  const CHARACTER_LIMIT := 20000

  datatype Edit<T> = Insert(at: nat, c: T) | Delete(at: nat) | Substitute(at: nat, c: T)

  function Apply<T>(s: seq<T>, e: Edit<T>): Option<seq<T>> {
    match e
    case Insert(at, c) => if at <= |s| then Some(s[..at] + [c] + s[at..]) else None
    case Delete(at) => if at < |s| then Some(s[..at] + s[at + 1..]) else None
    case Substitute(at, c) => if at < |s| then Some(s[..at] + [c] + s[at + 1..]) else None
  }

  function ApplyAll<T>(s: seq<T>, script: seq<Edit<T>>): Option<seq<T>>
    decreases |script|
  {
    if script == [] then Some(s)
    else
      var next := Apply(s, script[0]);
      if next.None? then None else ApplyAll(next.value, script[1..])
  }

  ghost predicate Transforms<T>(script: seq<Edit<T>>, a: seq<T>, b: seq<T>) {
    ApplyAll(a, script) == Some(b)
  }

  /** `n` single-character edits turn `a` into `b`, and fewer never do. */
  ghost predicate IsEditDistance<T(!new)>(n: nat, a: seq<T>, b: seq<T>) {
    && (exists script: seq<Edit<T>> :: Transforms(script, a, b) && |script| == n)
    && (forall script: seq<Edit<T>> :: Transforms(script, a, b) ==> n <= |script|)
  }

  // ---- the recurrence ----------------------------------------------------------

  function Min3(x: nat, y: nat, z: nat): nat {
    var m := if y < x then y else x;
    if z < m then z else m
  }

  function Front<T>(s: seq<T>): seq<T>
    requires s != []
  {
    s[..|s| - 1]
  }

  function End<T>(s: seq<T>): T
    requires s != []
  {
    s[|s| - 1]
  }

  /** The cell of the full table for the prefixes `a` and `b`. */
  function Cell<T(==)>(a: seq<T>, b: seq<T>): nat
    decreases |a| + |b|
  {
    if a == [] then |b|
    else if b == [] then |a|
    else Min3(Cell(a, Front(b)) + 1, Cell(Front(a), b) + 1,
              Cell(Front(a), Front(b)) + (if End(a) == End(b) then 0 else 1))
  }

  // ---- enough edits: a script of that length exists -----------------------------

  lemma {:induction false} ApplyAllJoin<T>(s: seq<T>, first: seq<Edit<T>>, second: seq<Edit<T>>)
    requires ApplyAll(s, first).Some?
    ensures ApplyAll(s, first + second) == ApplyAll(ApplyAll(s, first).value, second)
    decreases |first|
  {
    if first == [] {
      assert first + second == second;
    } else {
      ApplyAllJoin(Apply(s, first[0]).value, first[1..], second);
      assert (first + second)[1..] == first[1..] + second;
    }
  }

  lemma ApplyBefore<T>(s: seq<T>, e: Edit<T>, tail: seq<T>)
    requires Apply(s, e).Some?
    ensures Apply(s + tail, e) == Some(Apply(s, e).value + tail)
  {
    var r := Apply(s, e).value;
    if e.Insert? {
      assert (s + tail)[..e.at] + [e.c] + (s + tail)[e.at..] == r + tail;
    } else if e.Delete? {
      assert (s + tail)[..e.at] + (s + tail)[e.at + 1..] == r + tail;
    } else {
      assert (s + tail)[..e.at] + [e.c] + (s + tail)[e.at + 1..] == r + tail;
    }
  }

  /** Edits inside a prefix leave what follows alone. */
  lemma {:induction false} ApplyAllBefore<T>(s: seq<T>, script: seq<Edit<T>>, tail: seq<T>)
    requires ApplyAll(s, script).Some?
    ensures ApplyAll(s + tail, script) == Some(ApplyAll(s, script).value + tail)
    decreases |script|
  {
    if script != [] {
      ApplyBefore(s, script[0], tail);
      ApplyAllBefore(Apply(s, script[0]).value, script[1..], tail);
    }
  }

  lemma ThenInsert<T>(a: seq<T>, before: seq<Edit<T>>, b: seq<T>)
    requires b != [] && Transforms(before, a, Front(b))
    ensures Transforms(before + [Insert(|b| - 1, End(b))], a, b)
  {
    var last := Insert(|b| - 1, End(b));
    ApplyAllJoin(a, before, [last]);
    assert Front(b)[..|b| - 1] + [End(b)] + Front(b)[|b| - 1..] == b;
    assert ApplyAll(Front(b), [last]) == Some(b);
  }

  lemma DeleteThen<T>(a: seq<T>, after: seq<Edit<T>>, b: seq<T>)
    requires a != [] && Transforms(after, Front(a), b)
    ensures Transforms([Delete(|a| - 1)] + after, a, b)
  {
    assert a[..|a| - 1] + a[|a|..] == Front(a);
    assert ([Delete(|a| - 1)] + after)[1..] == after;
  }

  lemma KeepLast<T>(a: seq<T>, before: seq<Edit<T>>, b: seq<T>)
    requires a != [] && b != [] && Transforms(before, Front(a), Front(b))
    ensures Transforms(before, a, Front(b) + [End(a)])
  {
    ApplyAllBefore(Front(a), before, [End(a)]);
    assert Front(a) + [End(a)] == a;
  }

  lemma ThenSubstitute<T>(a: seq<T>, before: seq<Edit<T>>, b: seq<T>)
    requires a != [] && b != [] && Transforms(before, Front(a), Front(b))
    ensures Transforms(before + [Substitute(|b| - 1, End(b))], a, b)
  {
    KeepLast(a, before, b);
    var last, mid := Substitute(|b| - 1, End(b)), Front(b) + [End(a)];
    ApplyAllJoin(a, before, [last]);
    assert mid[..|b| - 1] + [End(b)] + mid[|b|..] == b;
    assert ApplyAll(mid, [last]) == Some(b);
  }

  lemma {:induction false} ScriptOfCell<T>(a: seq<T>, b: seq<T>) returns (script: seq<Edit<T>>)
    ensures Transforms(script, a, b) && |script| == Cell(a, b)
    decreases |a| + |b|
  {
    hide Transforms;
    if a == [] && b == [] {
      script := [];
      NoEdits(a);
    } else if b != [] && (a == [] || Cell(a, b) == Cell(a, Front(b)) + 1) {
      var before := ScriptOfCell(a, Front(b));
      script := before + [Insert(|b| - 1, End(b))];
      ThenInsert(a, before, b);
    } else if a != [] && (b == [] || Cell(a, b) == Cell(Front(a), b) + 1) {
      var after := ScriptOfCell(Front(a), b);
      script := [Delete(|a| - 1)] + after;
      DeleteThen(a, after, b);
    } else {
      script := ScriptOfCell(Front(a), Front(b));
      if End(a) == End(b) {
        KeepLast(a, script, b);
        assert Front(b) + [End(b)] == b;
      } else {
        ThenSubstitute(a, script, b);
        script := script + [Substitute(|b| - 1, End(b))];
      }
    }
  }

  lemma NoEdits<T>(a: seq<T>)
    ensures Transforms([], a, a)
  {
  }

  // ---- never too many: one edit moves a cell by at most one ----------------------

  ghost predicate Near<T(!new)>(a: seq<T>, a': seq<T>) {
    forall b :: Cell(a, b) <= Cell(a', b) + 1
  }

  lemma GrowLeft<T>(a: seq<T>, x: T, b: seq<T>)
    ensures Cell(a + [x], b) <= Cell(a, b) + 1
  {
    assert Front(a + [x]) == a;
  }

  lemma GrowRight<T>(a: seq<T>, b: seq<T>, y: T)
    ensures Cell(a, b + [y]) <= Cell(a, b) + 1
  {
    assert Front(b + [y]) == b;
  }

  lemma {:induction false} ShrinkLeft<T>(a: seq<T>, x: T, b: seq<T>)
    ensures Cell(a, b) <= Cell(a + [x], b) + 1
    decreases |b|
  {
    assert Front(a + [x]) == a;
    if b != [] {
      var front, last := Front(b), End(b);
      assert front + [last] == b;
      ShrinkLeft(a, x, front);
      GrowRight(a, front, last);
    }
  }

  lemma {:induction false} ChangeLeft<T>(a: seq<T>, x: T, c: T, b: seq<T>)
    ensures Cell(a + [x], b) <= Cell(a + [c], b) + 1
    decreases |b|
  {
    assert Front(a + [x]) == a && Front(a + [c]) == a;
    if b != [] {
      ChangeLeft(a, x, c, Front(b));
    }
  }

  lemma {:induction false} NearGrowsAt<T(!new)>(a: seq<T>, a': seq<T>, z: T, b: seq<T>)
    requires Near(a, a') && |a| <= |a'| + 1
    ensures Cell(a + [z], b) <= Cell(a' + [z], b) + 1
    decreases |b|
  {
    assert Front(a + [z]) == a && Front(a' + [z]) == a';
    if b != [] {
      NearGrowsAt(a, a', z, Front(b));
      assert Cell(a, Front(b)) <= Cell(a', Front(b)) + 1;
    }
  }

  /** What holds before the tail holds with it. */
  lemma {:induction false} NearGrows<T(!new)>(a: seq<T>, a': seq<T>, tail: seq<T>)
    requires Near(a, a') && |a| <= |a'| + 1
    ensures Near(a + tail, a' + tail)
    decreases |tail|
  {
    if tail == [] {
      assert a + tail == a && a' + tail == a';
    } else {
      forall b
        ensures Cell(a + [tail[0]], b) <= Cell(a' + [tail[0]], b) + 1
      {
        NearGrowsAt(a, a', tail[0], b);
      }
      NearGrows(a + [tail[0]], a' + [tail[0]], tail[1..]);
      assert a + [tail[0]] + tail[1..] == a + tail && a' + [tail[0]] + tail[1..] == a' + tail;
    }
  }

  lemma OneEditIsNear<T(!new)>(a: seq<T>, e: Edit<T>)
    requires Apply(a, e).Some?
    ensures Near(a, Apply(a, e).value)
  {
    var p := a[..e.at];
    match e
    case Insert(at, c) =>
      forall b ensures Cell(p, b) <= Cell(p + [c], b) + 1 { ShrinkLeft(p, c, b); }
      NearGrows(p, p + [c], a[at..]);
      assert p + a[at..] == a;
    case Delete(at) =>
      forall b ensures Cell(p + [a[at]], b) <= Cell(p, b) + 1 { GrowLeft(p, a[at], b); }
      NearGrows(p + [a[at]], p, a[at + 1..]);
      assert p + [a[at]] + a[at + 1..] == a;
    case Substitute(at, c) =>
      forall b ensures Cell(p + [a[at]], b) <= Cell(p + [c], b) + 1 { ChangeLeft(p, a[at], c, b); }
      NearGrows(p + [a[at]], p + [c], a[at + 1..]);
      assert p + [a[at]] + a[at + 1..] == a;
  }

  lemma {:induction false} CellOfEqual<T>(a: seq<T>)
    ensures Cell(a, a) == 0
  {
    if a != [] {
      CellOfEqual(Front(a));
    }
  }

  lemma {:induction false} ScriptsAreNoShorter<T(!new)>(script: seq<Edit<T>>, a: seq<T>, b: seq<T>)
    requires Transforms(script, a, b)
    ensures Cell(a, b) <= |script|
    decreases |script|
  {
    if script == [] {
      CellOfEqual(a);
    } else {
      OneEditIsNear(a, script[0]);
      ScriptsAreNoShorter(script[1..], Apply(a, script[0]).value, b);
    }
  }

  lemma CellIsEditDistance<T(!new)>(a: seq<T>, b: seq<T>)
    ensures IsEditDistance(Cell(a, b), a, b)
  {
    var script := ScriptOfCell(a, b);
    forall other: seq<Edit<T>> | Transforms(other, a, b)
      ensures Cell(a, b) <= |other|
    {
      ScriptsAreNoShorter(other, a, b);
    }
  }

  // ---- the rolling row ------------------------------------------------------------

  /** The loops of `speechAccuracy` on the two filtered texts; `None` where it throws. */
  method ThaiEdits<T(==, !new)>(expected: seq<T>, actual: seq<T>) returns (edits: Option<nat>)
    ensures edits.None? <==> |expected| > 20000 || |actual| > 20000
    ensures edits.Some? ==> IsEditDistance(edits.value, expected, actual)
  {
    if |expected| > CHARACTER_LIMIT || |actual| > CHARACTER_LIMIT {
      return None;
    }
    var previous: seq<nat> := seq(|actual| + 1, (index: nat) => index);
    for index := 0 to |expected|
      invariant |previous| == |actual| + 1 && IsRow(previous, expected[..index], actual)
    {
      previous := NextRow(expected, actual, index, previous);
    }
    assert expected[..|expected|] == expected && actual[..|actual|] == actual;
    CellIsEditDistance(expected, actual);
    return Some(previous[|actual|]);
  }

  /** `row` is the row of the table for the prefix `a`, as far as it goes. */
  ghost predicate IsRow<T>(row: seq<nat>, a: seq<T>, actual: seq<T>) {
    && |row| <= |actual| + 1
    && forall j :: 0 <= j < |row| ==> row[j] == Cell(a, actual[..j])
  }

  method NextRow<T(==)>(expected: seq<T>, actual: seq<T>, index: nat, previous: seq<nat>) returns (current: seq<nat>)
    requires index < |expected| && |previous| == |actual| + 1 && IsRow(previous, expected[..index], actual)
    ensures |current| == |actual| + 1 && IsRow(current, expected[..index + 1], actual)
  {
    hide Cell, Min3;
    current := [index + 1];
    FirstCell(expected[..index + 1], actual);
    for column := 0 to |actual|
      invariant |current| == column + 1
      invariant IsRow(current, expected[..index + 1], actual)
    {
      NextCell(expected, actual, index, column);
      var cell := Min3(current[column] + 1, previous[column + 1] + 1,
                       previous[column] + (if expected[index] != actual[column] then 1 else 0));
      RowGrows(current, cell, expected[..index + 1], actual);
      current := current + [cell];
    }
  }

  lemma RowGrows<T>(row: seq<nat>, cell: nat, a: seq<T>, actual: seq<T>)
    requires IsRow(row, a, actual) && |row| <= |actual| && cell == Cell(a, actual[..|row|])
    ensures IsRow(row + [cell], a, actual)
  {
    hide Cell;
  }

  lemma FirstCell<T>(a: seq<T>, actual: seq<T>)
    ensures IsRow([|a|], a, actual)
  {
  }

  lemma CellStep<T>(a: seq<T>, b: seq<T>)
    requires a != [] && b != []
    ensures Cell(a, b) == Min3(Cell(a, Front(b)) + 1, Cell(Front(a), b) + 1,
                               Cell(Front(a), Front(b)) + (if End(a) == End(b) then 0 else 1))
  {
    hide Front, End, Min3;
  }

  lemma NextCell<T>(expected: seq<T>, actual: seq<T>, i: nat, j: nat)
    requires i < |expected| && j < |actual|
    ensures Cell(expected[..i + 1], actual[..j + 1])
            == Min3(Cell(expected[..i + 1], actual[..j]) + 1, Cell(expected[..i], actual[..j + 1]) + 1,
                    Cell(expected[..i], actual[..j]) + (if expected[i] != actual[j] then 1 else 0))
  {
    hide Cell, Min3;
    CellStep(expected[..i + 1], actual[..j + 1]);
    assert Front(expected[..i + 1]) == expected[..i] && Front(actual[..j + 1]) == actual[..j];
  }

  // ---- what follows ----------------------------------------------------------------

  lemma {:induction false} CellSymmetric<T>(a: seq<T>, b: seq<T>)
    ensures Cell(a, b) == Cell(b, a)
    decreases |a| + |b|
  {
    if a != [] && b != [] {
      CellSymmetric(a, Front(b));
      CellSymmetric(Front(a), b);
      CellSymmetric(Front(a), Front(b));
    }
  }

  lemma {:induction false} CellBounds<T>(a: seq<T>, b: seq<T>)
    ensures |a| - |b| <= Cell(a, b) && |b| - |a| <= Cell(a, b)
    ensures Cell(a, b) <= |a| || Cell(a, b) <= |b|
    decreases |a| + |b|
  {
    if a != [] && b != [] {
      CellBounds(a, Front(b));
      CellBounds(Front(a), b);
      CellBounds(Front(a), Front(b));
    }
  }

  /** The edit distance is a metric: zero exactly between equal texts, symmetric, and
      never longer than a detour; it lies between the length difference and the larger length. */
  lemma EditDistanceIsMetric<T(!new)>(a: seq<T>, b: seq<T>, c: seq<T>, ab: nat, bc: nat, ac: nat)
    requires IsEditDistance(ab, a, b) && IsEditDistance(bc, b, c) && IsEditDistance(ac, a, c)
    ensures ab == 0 <==> a == b
    ensures IsEditDistance(ab, b, a)
    ensures ac <= ab + bc
    ensures |a| - |b| <= ab && |b| - |a| <= ab && (ab <= |a| || ab <= |b|)
  {
    EditDistanceIsUnique(a, b, ab);
    EditDistanceIsUnique(b, c, bc);
    CellSymmetric(a, b);
    CellIsEditDistance(b, a);
    CellBounds(a, b);
    CellOfEqual(a);
    var first: seq<Edit<T>> :| Transforms(first, a, b) && |first| == ab;
    var second: seq<Edit<T>> :| Transforms(second, b, c) && |second| == bc;
    ApplyAllJoin(a, first, second);
    assert Transforms(first + second, a, c);
  }

  lemma EditDistanceIsUnique<T(!new)>(a: seq<T>, b: seq<T>, n: nat)
    requires IsEditDistance(n, a, b)
    ensures n == Cell(a, b)
  {
    CellIsEditDistance(a, b);
    var script: seq<Edit<T>> :| Transforms(script, a, b) && |script| == n;
    var other: seq<Edit<T>> :| Transforms(other, a, b) && |other| == Cell(a, b);
  }
}
