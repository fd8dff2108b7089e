/** `globMatch`: greedy matching that only ever backtracks to the last star. */
module Glob {

  function Stars(pattern: string): nat {
    if pattern == [] then 0 else Stars(pattern[1..]) + (if pattern[0] == '*' then 1 else 0)
  }

  /** The pattern with its stars replaced, in order, by `fills`. */
  function Fill(pattern: string, fills: seq<string>): string
    requires |fills| == Stars(pattern)
  {
    if pattern == [] then []
    else if pattern[0] == '*' then fills[0] + Fill(pattern[1..], fills[1..])
    else [pattern[0]] + Fill(pattern[1..], fills)
  }

  /** Some choice of text for each star makes the pattern the value. */
  ghost predicate Matches(pattern: string, value: string) {
    exists fills: seq<string> :: |fills| == Stars(pattern) && Fill(pattern, fills) == value
  }

  /** The same, decided from the front. */
  ghost predicate Splits(pattern: string, value: string)
    decreases |pattern|
  {
    if pattern == [] then value == []
    else if pattern[0] == '*' then exists k :: 0 <= k <= |value| && Splits(pattern[1..], value[k..])
    else value != [] && pattern[0] == value[0] && Splits(pattern[1..], value[1..])
  }

  lemma {:induction false} FillSplits(pattern: string, fills: seq<string>)
    requires |fills| == Stars(pattern)
    ensures Splits(pattern, Fill(pattern, fills))
  {
    if pattern != [] {
      if pattern[0] == '*' {
        FillSplits(pattern[1..], fills[1..]);
        assert Fill(pattern, fills)[|fills[0]|..] == Fill(pattern[1..], fills[1..]);
      } else {
        FillSplits(pattern[1..], fills);
        assert Fill(pattern, fills)[1..] == Fill(pattern[1..], fills);
      }
    }
  }

  lemma {:induction false} SplitsFill(pattern: string, value: string) returns (fills: seq<string>)
    requires Splits(pattern, value)
    ensures |fills| == Stars(pattern) && Fill(pattern, fills) == value
    decreases |pattern|
  {
    if pattern == [] {
      fills := [];
    } else if pattern[0] == '*' {
      var k :| 0 <= k <= |value| && Splits(pattern[1..], value[k..]);
      var rest := SplitsFill(pattern[1..], value[k..]);
      fills := [value[..k]] + rest;
      assert fills[1..] == rest;
    } else {
      fills := SplitsFill(pattern[1..], value[1..]);
    }
  }

  lemma SplitsIsMatches(pattern: string, value: string)
    ensures Splits(pattern, value) <==> Matches(pattern, value)
  {
    if Splits(pattern, value) {
      var fills := SplitsFill(pattern, value);
    }
    if Matches(pattern, value) {
      var fills: seq<string> :| |fills| == Stars(pattern) && Fill(pattern, fills) == value;
      FillSplits(pattern, fills);
    }
  }

  /** Literal text has one way to match. */
  lemma {:induction false} SplitsLiteral(literal: string, rest: string, value: string)
    requires '*' !in literal
    ensures Splits(literal + rest, value) <==> literal <= value && Splits(rest, value[|literal|..])
  {
    if literal == [] {
      assert literal + rest == rest && value[0..] == value;
    } else {
      assert (literal + rest)[1..] == literal[1..] + rest;
      if value != [] && literal[0] == value[0] {
        SplitsLiteral(literal[1..], rest, value[1..]);
        assert literal <= value <==> literal[1..] <= value[1..] by {
          assert literal == [literal[0]] + literal[1..] && value == [value[0]] + value[1..];
        }
        if literal <= value {
          assert value[1..][|literal| - 1..] == value[|literal|..];
        }
      }
    }
  }

  /** A star that matches from `late` also matches from anywhere before. */
  lemma StarAbsorbs(pattern: string, value: string, early: nat, late: nat)
    requires pattern != [] && pattern[0] == '*' && early <= late <= |value|
    requires Splits(pattern, value[late..])
    ensures Splits(pattern, value[early..])
  {
    var k :| 0 <= k <= |value[late..]| && Splits(pattern[1..], value[late..][k..]);
    assert value[late..][k..] == value[early..][late - early + k..];
  }

  /** The last star keeps every earlier choice: once the text after it has matched at its
      earliest place, the next star may start there without losing a match. */
  lemma NextStar(pattern: string, value: string, star: nat, mark: nat, p: nat, v: nat)
    requires star < p < |pattern| && mark <= v <= |value|
    requires pattern[star] == '*' && pattern[p] == '*'
    requires '*' !in pattern[star + 1..p] && pattern[star + 1..p] == value[mark..v]
    ensures Splits(pattern[star..], value[mark..]) <==> Splits(pattern[p..], value[v..])
  {
    var literal, rest := pattern[star + 1..p], pattern[p..];
    assert pattern[star..][1..] == literal + rest;
    if Splits(pattern[star..], value[mark..]) {
      var k :| 0 <= k <= |value[mark..]| && Splits(literal + rest, value[mark..][k..]);
      SplitsLiteral(literal, rest, value[mark..][k..]);
      assert value[mark..][k..][|literal|..] == value[v + k..];
      StarAbsorbs(rest, value, v, v + k);
    }
    if Splits(rest, value[v..]) {
      AfterStar(pattern, value, star, mark, p, v);
    }
  }

  /** If the rest matches here, the star matches from `mark`. */
  lemma AfterStar(pattern: string, value: string, star: nat, mark: nat, p: nat, v: nat)
    requires star < p <= |pattern| && mark <= v <= |value| && pattern[star] == '*'
    requires '*' !in pattern[star + 1..p] && pattern[star + 1..p] == value[mark..v]
    requires Splits(pattern[p..], value[v..])
    ensures Splits(pattern[star..], value[mark..])
  {
    var literal, rest := pattern[star + 1..p], pattern[p..];
    assert pattern[star..][1..] == literal + rest;
    assert value[mark..] == literal + value[v..];
    SplitsLiteral(literal, rest, value[mark..]);
    assert value[mark..][0..] == value[mark..] && value[mark..][|literal|..] == value[v..];
  }

  lemma NoMatchHere(pattern: string, value: string, p: nat, v: nat)
    requires p <= |pattern| && v < |value|
    requires p == |pattern| || (pattern[p] != '*' && pattern[p] != value[v])
    ensures !Splits(pattern[p..], value[v..])
  {
    assert value[v..] != [] && value[v..][0] == value[v];
    assert p < |pattern| ==> pattern[p..][0] == pattern[p];
  }

  /** When the rest cannot match here, the star has to take one more character. */
  lemma Backtrack(pattern: string, value: string, star: nat, mark: nat, p: nat, v: nat)
    requires star < p <= |pattern| && mark <= v < |value| && pattern[star] == '*'
    requires '*' !in pattern[star + 1..p] && pattern[star + 1..p] == value[mark..v]
    requires p == |pattern| || (pattern[p] != '*' && pattern[p] != value[v])
    ensures Splits(pattern[star..], value[mark..]) <==> Splits(pattern[star..], value[mark + 1..])
  {
    var literal, rest := pattern[star + 1..p], pattern[p..];
    assert pattern[star..][1..] == literal + rest;
    assert value[mark..][|literal|..] == value[v..] && value[mark..][0..] == value[mark..];
    SplitsLiteral(literal, rest, value[mark..]);
    NoMatchHere(pattern, value, p, v);
    if Splits(pattern[star..], value[mark..]) {
      var k :| 0 <= k <= |value[mark..]| && Splits(literal + rest, value[mark..][k..]);
      assert value[mark..][k..] == value[mark + 1..][k - 1..];
    }
    if Splits(pattern[star..], value[mark + 1..]) {
      StarAbsorbs(pattern[star..], value, mark, mark + 1);
    }
  }

  /** At the end of the value only the place right behind the star is left. */
  lemma AtEnd(pattern: string, value: string, star: nat, mark: nat, p: nat)
    requires star < p <= |pattern| && mark <= |value| && pattern[star] == '*'
    requires '*' !in pattern[star + 1..p] && pattern[star + 1..p] == value[mark..]
    ensures Splits(pattern[star..], value[mark..]) <==> Splits(pattern[p..], [])
  {
    var literal, rest := pattern[star + 1..p], pattern[p..];
    assert pattern[star..][1..] == literal + rest;
    if Splits(pattern[star..], value[mark..]) {
      var k :| 0 <= k <= |value[mark..]| && Splits(literal + rest, value[mark..][k..]);
      SplitsLiteral(literal, rest, value[mark..][k..]);
      assert value[mark..][k..][|literal|..] == [];
    }
    if Splits(rest, []) {
      assert value[|value|..] == [] && value[mark..|value|] == value[mark..];
      AfterStar(pattern, value, star, mark, p, |value|);
    }
  }

  lemma {:induction false} EmptyValue(pattern: string)
    ensures Splits(pattern, []) <==> forall i :: 0 <= i < |pattern| ==> pattern[i] == '*'
  {
    if pattern != [] {
      EmptyValue(pattern[1..]);
      assert forall i :: 0 < i < |pattern| ==> pattern[i] == pattern[1..][i - 1];
      var nothing: string := [];
      assert nothing[0..] == nothing;
    }
  }

  /** The loop state: what is left to match, from the last star if there is one. */
  ghost predicate Holds(pattern: string, value: string, p: nat, v: nat, star: int, mark: nat) {
    && p <= |pattern| && v <= |value| && mark <= v && -1 <= star < p
    && (star == -1 ==> mark == 0 && (Splits(pattern, value) <==> Splits(pattern[p..], value[v..])))
    && (star != -1 ==>
          && pattern[star] == '*'
          && '*' !in pattern[star + 1..p] && pattern[star + 1..p] == value[mark..v]
          && (Splits(pattern, value) <==> Splits(pattern[star..], value[mark..])))
  }

  lemma HoldsAtStart(pattern: string, value: string)
    ensures Holds(pattern, value, 0, 0, -1, 0)
  {
    assert pattern[0..] == pattern && value[0..] == value;
  }

  lemma HoldsLiteral(pattern: string, value: string, p: nat, v: nat, star: int, mark: nat)
    requires Holds(pattern, value, p, v, star, mark) && v < |value|
    requires p < |pattern| && pattern[p] != '*' && pattern[p] == value[v]
    ensures Holds(pattern, value, p + 1, v + 1, star, mark)
  {
    if star == -1 {
      assert pattern[p..][1..] == pattern[p + 1..] && value[v..][1..] == value[v + 1..];
    } else {
      assert pattern[star + 1..p + 1] == pattern[star + 1..p] + [pattern[p]];
      assert value[mark..v + 1] == value[mark..v] + [value[v]];
    }
  }

  lemma HoldsStar(pattern: string, value: string, p: nat, v: nat, star: int, mark: nat)
    requires Holds(pattern, value, p, v, star, mark) && v < |value|
    requires p < |pattern| && pattern[p] == '*'
    ensures Holds(pattern, value, p + 1, v, p, v)
  {
    if star != -1 {
      NextStar(pattern, value, star, mark, p, v);
    }
    assert pattern[p + 1..p + 1] == value[v..v] == [];
  }

  lemma HoldsBack(pattern: string, value: string, p: nat, v: nat, star: int, mark: nat)
    requires Holds(pattern, value, p, v, star, mark) && v < |value| && star != -1
    requires p == |pattern| || (pattern[p] != '*' && pattern[p] != value[v])
    ensures Holds(pattern, value, star + 1, mark + 1, star, mark + 1)
  {
    Backtrack(pattern, value, star, mark, p, v);
    assert pattern[star + 1..star + 1] == value[mark + 1..mark + 1] == [];
  }

  lemma HoldsNoStar(pattern: string, value: string, p: nat, v: nat, mark: nat)
    requires Holds(pattern, value, p, v, -1, mark) && v < |value|
    requires p == |pattern| || (pattern[p] != '*' && pattern[p] != value[v])
    ensures !Splits(pattern, value)
  {
  }

  lemma HoldsAtEnd(pattern: string, value: string, p: nat, star: int, mark: nat)
    requires Holds(pattern, value, p, |value|, star, mark)
    ensures Splits(pattern, value) <==> forall i :: p <= i < |pattern| ==> pattern[i] == '*'
  {
    assert value[|value|..] == [] && value[mark..|value|] == value[mark..];
    if star != -1 {
      AtEnd(pattern, value, star, mark, p);
    }
    EmptyValue(pattern[p..]);
    assert forall i :: p <= i < |pattern| ==> pattern[i] == pattern[p..][i - p];
  }

  method GlobMatch(pattern: string, value: string) returns (matched: bool)
    ensures matched <==> Matches(pattern, value)
  {
    hide *;
    var p: nat, v: nat, star: int, mark: nat := 0, 0, -1, 0;
    SplitsIsMatches(pattern, value);
    HoldsAtStart(pattern, value);
    while v < |value|
      invariant p <= |pattern| && mark <= v <= |value| && -1 <= star < p
      invariant Holds(pattern, value, p, v, star, mark)
      decreases |value| - mark, |pattern| - p
    {
      if p < |pattern| && pattern[p] != '*' && pattern[p] == value[v] {
        HoldsLiteral(pattern, value, p, v, star, mark);
        p := p + 1;
        v := v + 1;
      } else if p < |pattern| && pattern[p] == '*' {
        HoldsStar(pattern, value, p, v, star, mark);
        star, p := p, p + 1;
        mark := v;
      } else if star != -1 {
        HoldsBack(pattern, value, p, v, star, mark);
        p := star + 1;
        mark := mark + 1;
        v := mark;
      } else {
        HoldsNoStar(pattern, value, p, v, mark);
        return false;
      }
    }
    HoldsAtEnd(pattern, value, p, star, mark);
    ghost var rest := p;
    while p < |pattern| && pattern[p] == '*'
      invariant rest <= p <= |pattern|
      invariant forall i :: rest <= i < p ==> pattern[i] == '*'
    {
      p := p + 1;
    }
    return p == |pattern|;
  }
}
