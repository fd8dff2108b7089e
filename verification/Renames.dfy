/** Renames of release assets, apart from any server: the plan of a swap, and undoing it. */
module Renames {
  import opened Wrappers

  type Names = map<nat, string>

  datatype Rename = Rename(id: nat, from: string, target: string)

  /** A prepared file: its public name, its staged name, and the asset it was uploaded as. */
  datatype Staged = Staged(name: string, id: nat)

  predicate Unique(names: Names) {
    forall a, b :: a in names && b in names && names[a] == names[b] ==> a == b
  }

  /** The server accepts the rename: the asset has the old name and nobody else has the new one. */
  predicate Accepts(names: Names, r: Rename) {
    && r.id in names && names[r.id] == r.from
    && forall other :: other in names && names[other] == r.target ==> other == r.id
  }

  function Do(names: Names, r: Rename): Names {
    names[r.id := r.target]
  }

  function DoAll(names: Names, renames: seq<Rename>): Names {
    if renames == [] then names else Do(DoAll(names, renames[..|renames| - 1]), renames[|renames| - 1])
  }

  /** Every rename of the list is accepted when its turn comes. */
  ghost predicate Runs(names: Names, renames: seq<Rename>) {
    forall i :: 0 <= i < |renames| ==> Accepts(DoAll(names, renames[..i]), renames[i])
  }

  function Inverse(r: Rename): Rename {
    Rename(r.id, r.target, r.from)
  }

  /** The log in reverse, each rename turned round. */
  function Undo(renames: seq<Rename>): seq<Rename> {
    if renames == [] then [] else [Inverse(renames[|renames| - 1])] + Undo(renames[..|renames| - 1])
  }

  lemma UniqueStep(names: Names, r: Rename)
    requires Unique(names) && Accepts(names, r)
    ensures Unique(Do(names, r))
    ensures Accepts(Do(names, r), Inverse(r)) && Do(Do(names, r), Inverse(r)) == names
  {
  }

  lemma DoAllSnoc(names: Names, renames: seq<Rename>, r: Rename)
    ensures DoAll(names, renames + [r]) == Do(DoAll(names, renames), r)
  {
    assert (renames + [r])[..|renames|] == renames;
  }

  lemma RunsPrefix(names: Names, renames: seq<Rename>, n: nat)
    requires Runs(names, renames) && n <= |renames|
    ensures Runs(names, renames[..n])
  {
    forall i | 0 <= i < n
      ensures Accepts(DoAll(names, renames[..n][..i]), renames[..n][i])
    {
      assert renames[..n][..i] == renames[..i];
    }
  }

  lemma {:induction false} UniqueAfter(names: Names, renames: seq<Rename>)
    requires Unique(names) && Runs(names, renames)
    ensures Unique(DoAll(names, renames))
  {
    if renames != [] {
      var n := |renames| - 1;
      RunsPrefix(names, renames, n);
      UniqueAfter(names, renames[..n]);
      UniqueStep(DoAll(names, renames[..n]), renames[n]);
    }
  }

  lemma {:induction false} DoAllJoin(names: Names, first: seq<Rename>, second: seq<Rename>)
    ensures DoAll(names, first + second) == DoAll(DoAll(names, first), second)
  {
    if second == [] {
      assert first + second == first;
    } else {
      var n := |second| - 1;
      DoAllJoin(names, first, second[..n]);
      assert (first + second)[..|first + second| - 1] == first + second[..n];
    }
  }

  lemma {:induction false} RunsJoin(names: Names, first: seq<Rename>, second: seq<Rename>)
    requires Runs(names, first) && Runs(DoAll(names, first), second)
    ensures Runs(names, first + second)
  {
    hide Accepts, DoAll, Runs;
    forall i | 0 <= i < |first + second|
      ensures AcceptedAtPlace(names, first + second, i)
    {
      if i < |first| {
        AcceptedBefore(names, first, second, i);
      } else {
        AcceptedBehind(names, first, second, i - |first|);
      }
    }
    RunsFrom(names, first + second);
  }

  ghost predicate AcceptedAtPlace(names: Names, renames: seq<Rename>, i: nat)
    requires i < |renames|
  {
    Accepts(DoAll(names, renames[..i]), renames[i])
  }

  lemma RunsFrom(names: Names, renames: seq<Rename>)
    requires forall i :: 0 <= i < |renames| ==> AcceptedAtPlace(names, renames, i)
    ensures Runs(names, renames)
  {
    hide Accepts, DoAll;
    forall i | 0 <= i < |renames|
      ensures Accepts(DoAll(names, renames[..i]), renames[i])
    {
      assert AcceptedAtPlace(names, renames, i);
    }
  }

  lemma AcceptedBefore(names: Names, first: seq<Rename>, second: seq<Rename>, i: nat)
    requires Runs(names, first) && i < |first|
    ensures AcceptedAtPlace(names, first + second, i)
  {
    hide Accepts, DoAll;
    assert (first + second)[..i] == first[..i];
  }

  lemma {:induction false} AcceptedBehind(names: Names, first: seq<Rename>, second: seq<Rename>, j: nat)
    requires Runs(DoAll(names, first), second) && j < |second|
    ensures AcceptedAtPlace(names, first + second, |first| + j)
  {
    hide Accepts, DoAll;
    assert (first + second)[..|first| + j] == first + second[..j];
    DoAllJoin(names, first, second[..j]);
  }

  /** Undoing the renames that happened never meets an occupied name and restores every name. */
  lemma {:induction false} UndoIsExact(names: Names, renames: seq<Rename>)
    requires Unique(names) && Runs(names, renames)
    ensures Runs(DoAll(names, renames), Undo(renames))
    ensures DoAll(DoAll(names, renames), Undo(renames)) == names
  {
    if renames != [] {
      var n := |renames| - 1;
      var before, r := DoAll(names, renames[..n]), renames[n];
      var rest := Undo(renames[..n]);
      RunsPrefix(names, renames, n);
      UniqueAfter(names, renames[..n]);
      UniqueStep(before, r);
      UndoIsExact(names, renames[..n]);
      var back := [Inverse(r)];
      assert DoAll(Do(before, r), []) == Do(before, r);
      assert back[..0] == [];
      assert DoAll(Do(before, r), back) == before;
      assert Runs(Do(before, r), back);
      RunsJoin(Do(before, r), back, rest);
      DoAllJoin(Do(before, r), back, rest);
    }
  }

  // ---- the plan of a swap -------------------------------------------------------------

  const CHECKSUMS := "-checksums.txt"

  function StagedName(run: string, name: string): string {
    "staged-" + run + "-" + name
  }

  function PriorName(run: string, name: string): string {
    "prior-" + run + "-" + name
  }

  predicate IsChecksums(name: string) {
    |CHECKSUMS| <= |name| && name[|name| - |CHECKSUMS|..] == CHECKSUMS
  }

  /** Anything, then the ending of a checksums file. */
  ghost predicate EndsInChecksums(name: string) {
    exists stem :: name == stem + "-checksums.txt"
  }

  lemma {:induction false} ChecksumsAre(name: string)
    ensures IsChecksums(name) <==> EndsInChecksums(name)
  {
    if IsChecksums(name) {
      assert name == name[..|name| - |CHECKSUMS|] + "-checksums.txt";
    }
    if stem :| name == stem + "-checksums.txt" {
      assert |name| - |CHECKSUMS| == |stem|;
    }
  }

  /** `toSorted` on whether the name ends in the checksums suffix: stable, checksums last. */
  function Order(staged: seq<Staged>): seq<Staged> {
    Plain(staged) + Sums(staged)
  }

  function Plain(staged: seq<Staged>): seq<Staged> {
    if staged == [] then []
    else Plain(staged[..|staged| - 1])
         + (if IsChecksums(staged[|staged| - 1].name) then [] else [staged[|staged| - 1]])
  }

  function Sums(staged: seq<Staged>): seq<Staged> {
    if staged == [] then []
    else Sums(staged[..|staged| - 1])
         + (if IsChecksums(staged[|staged| - 1].name) then [staged[|staged| - 1]] else [])
  }

  /** An asset that was there before, as `find` would see it. */
  datatype Original = Original(id: nat, name: string)

  function Find(before: seq<Original>, name: string): Option<Original> {
    if before == [] then None
    else if before[0].name == name then Some(before[0])
    else Find(before[1..], name)
  }

  /** The one or two renames for a prepared file. */
  function Steps(before: seq<Original>, run: string, e: Staged): seq<Rename> {
    var publish := [Rename(e.id, StagedName(run, e.name), e.name)];
    match Find(before, e.name)
    case Some(prior) => [Rename(prior.id, e.name, PriorName(run, e.name))] + publish
    case None => publish
  }

  function Plan(before: seq<Original>, run: string, order: seq<Staged>): seq<Rename> {
    if order == [] then []
    else Plan(before, run, order[..|order| - 1]) + Steps(before, run, order[|order| - 1])
  }

  lemma {:induction false} PlanJoin(before: seq<Original>, run: string, a: seq<Staged>, b: seq<Staged>)
    ensures Plan(before, run, a + b) == Plan(before, run, a) + Plan(before, run, b)
  {
    hide Steps;
    if b == [] {
      assert a + b == a;
    } else {
      PlanJoin(before, run, a, b[..|b| - 1]);
      assert (a + b)[..|a + b| - 1] == a + b[..|b| - 1];
    }
  }

  predicate Reserved(name: string) {
    "staged-" <= name || "prior-" <= name
  }

  lemma {:induction false} ReservedAre(name: string)
    ensures Reserved(name) <==> exists rest :: name == "staged-" + rest || name == "prior-" + rest
  {
    if "staged-" <= name {
      assert name == "staged-" + name[7..];
    } else if "prior-" <= name {
      assert name == "prior-" + name[6..];
    }
  }

  /** What the release looks like when staging is done: each original under its own name, each
      prepared file uploaded under its staged name, and nothing else. */
  ghost predicate Prepared(names: Names, before: seq<Original>, run: string, order: seq<Staged>) {
    && Unique(names)
    && (forall o :: o in before ==> o.id in names && names[o.id] == o.name && !Reserved(o.name))
    && (forall e :: e in order ==> e.id in names && names[e.id] == StagedName(run, e.name) && !Reserved(e.name))
    && (forall id :: id in names ==> (exists o :: o in before && o.id == id) || (exists e :: e in order && e.id == id))
    && (forall e, o :: e in order && o in before ==> e.id != o.id)
    && Distinct(order)
  }

  lemma ReservedNames(run: string, name: string)
    ensures "staged-" <= StagedName(run, name) && "prior-" <= PriorName(run, name)
    ensures Reserved(StagedName(run, name)) && Reserved(PriorName(run, name))
    ensures forall other :: StagedName(run, name) != PriorName(run, other)
  {
    assert StagedName(run, name)[..7] == "staged-" && PriorName(run, name)[..6] == "prior-";
    assert StagedName(run, name)[0] == 's';
    assert forall other :: PriorName(run, other)[0] == 'p';
  }

  lemma PriorNamesDiffer(run: string, a: string, b: string)
    ensures PriorName(run, a) == PriorName(run, b) ==> a == b
  {
    var k := |"prior-" + run + "-"|;
    assert PriorName(run, a)[k..] == a && PriorName(run, b)[k..] == b;
  }

  lemma {:induction false} FindFinds(before: seq<Original>, name: string)
    ensures match Find(before, name)
            case Some(o) => o in before && o.name == name
            case None => forall o :: o in before ==> o.name != name
  {
    if before != [] {
      FindFinds(before[1..], name);
    }
  }

  /** The public names of the files in `done`, by asset. */
  function ById(done: seq<Staged>): map<nat, string> {
    if done == [] then map[] else ById(done[..|done| - 1])[done[|done| - 1].id := done[|done| - 1].name]
  }

  function NamesOf(done: seq<Staged>): set<string> {
    set e | e in done :: e.name
  }

  /** Where asset `id` is once the files in `done` are swapped in: a prepared file under its
      public name, an original it replaces under its prior name, everything else untouched. */
  function NameAfter(names: Names, run: string, done: seq<Staged>, id: nat): string
    requires id in names
  {
    if id in ById(done) then ById(done)[id]
    else if names[id] in NamesOf(done) then PriorName(run, names[id])
    else names[id]
  }

  function Swapped(names: Names, run: string, done: seq<Staged>): Names {
    map id | id in names :: NameAfter(names, run, done, id)
  }

  lemma {:induction false} ByIdHas(done: seq<Staged>, id: nat)
    ensures id in ById(done) <==> exists e :: e in done && e.id == id
    ensures id in ById(done) ==> ById(done)[id] in NamesOf(done)
  {
    if done != [] {
      var front, e := done[..|done| - 1], done[|done| - 1];
      ByIdHas(front, id);
      assert done == front + [e];
      assert e in done;
      assert forall x :: x in front ==> x in done;
      assert forall x :: x in done ==> x in front || x == e;
    }
  }

  lemma DoneGrows(order: seq<Staged>, k: nat)
    requires k < |order|
    ensures NamesOf(order[..k + 1]) == NamesOf(order[..k]) + {order[k].name}
    ensures ById(order[..k + 1]) == ById(order[..k])[order[k].id := order[k].name]
  {
    assert order[..k + 1] == order[..k] + [order[k]] && order[..k + 1][..k] == order[..k];
  }

  lemma DoneAreUnreserved(names: Names, before: seq<Original>, run: string, order: seq<Staged>, k: nat)
    requires Prepared(names, before, run, order) && k <= |order|
    ensures forall name :: name in NamesOf(order[..k]) ==> !Reserved(name)
    ensures forall o :: o in before ==> o.id !in ById(order[..k])
  {
    hide Reserved;
    assert forall e :: e in order[..k] ==> e in order;
    forall o | o in before
      ensures o.id !in ById(order[..k])
    {
      ByIdHas(order[..k], o.id);
    }
  }

  /** What the next file finds when the files before it are in place. */
  lemma NextFile(names: Names, before: seq<Original>, run: string, order: seq<Staged>, k: nat)
    requires Prepared(names, before, run, order) && k < |order|
    ensures order[k].id !in ById(order[..k]) && order[k].name !in NamesOf(order[..k])
    ensures forall o :: o in before ==> o.id !in ById(order[..k])
    ensures forall name :: name in NamesOf(order[..k]) ==> !Reserved(name)
  {
    DoneAreUnreserved(names, before, run, order, k);
    ByIdHas(order[..k], order[k].id);
    hide Reserved, Unique, StagedName, ById;
    assert forall e :: e in order[..k] ==> exists i :: 0 <= i < k && order[i] == e;
  }

  lemma NamesAreKnown(names: Names, before: seq<Original>, run: string, order: seq<Staged>, id: nat)
    requires Prepared(names, before, run, order) && id in names
    ensures Reserved(names[id]) ==> exists name :: names[id] == StagedName(run, name)
    ensures !Reserved(names[id]) ==> exists o :: o in before && o.id == id && o.name == names[id]
  {
    if e :| e in order && e.id == id {
      ReservedNames(run, e.name);
      assert names[id] == StagedName(run, e.name);
    } else {
      var o :| o in before && o.id == id;
    }
  }

  /** Nobody is called `PriorName(run, name)` before the file of that name is reached. */
  lemma PriorNameIsFree(names: Names, before: seq<Original>, run: string, order: seq<Staged>, k: nat, id: nat)
    requires Prepared(names, before, run, order) && k < |order| && id in names
    ensures NameAfter(names, run, order[..k], id) != PriorName(run, order[k].name)
  {
    NextFile(names, before, run, order, k);
    ReservedNames(run, order[k].name);
    ByIdHas(order[..k], id);
    PriorNamesDiffer(run, names[id], order[k].name);
    NamesAreKnown(names, before, run, order, id);
    if Reserved(names[id]) {
      var name :| names[id] == StagedName(run, name);
      ReservedNames(run, name);
    }
  }

  /** Only the original of that name is called like the file that is reached. */
  lemma PublicNameHolder(names: Names, before: seq<Original>, run: string, order: seq<Staged>, k: nat, id: nat)
    requires Prepared(names, before, run, order) && k < |order| && id in names
    requires NameAfter(names, run, order[..k], id) == order[k].name
    ensures names[id] == order[k].name
    ensures exists o :: o in before && o.id == id && o.name == order[k].name
  {
    NextFile(names, before, run, order, k);
    ByIdHas(order[..k], id);
    ReservedNames(run, names[id]);
    assert order[k] in order;
    NamesAreKnown(names, before, run, order, id);
  }

  lemma PriorStep(names: Names, before: seq<Original>, run: string, order: seq<Staged>, k: nat, o: Original)
    requires Prepared(names, before, run, order) && k < |order| && o in before && o.name == order[k].name
    ensures Accepts(Swapped(names, run, order[..k]), Rename(o.id, order[k].name, PriorName(run, order[k].name)))
  {
    NextFile(names, before, run, order, k);
    forall id | id in names
      ensures NameAfter(names, run, order[..k], id) != PriorName(run, order[k].name)
    {
      PriorNameIsFree(names, before, run, order, k, id);
    }
  }

  /** The names between the two steps of a file. */
  function Between(names: Names, before: seq<Original>, run: string, order: seq<Staged>, k: nat): Names
    requires k < |order|
  {
    var now, e := Swapped(names, run, order[..k]), order[k];
    match Find(before, e.name)
    case Some(o) => now[o.id := PriorName(run, e.name)]
    case None => now
  }

  lemma PublishStep(names: Names, before: seq<Original>, run: string, order: seq<Staged>, k: nat)
    requires Prepared(names, before, run, order) && k < |order|
    ensures var e := order[k];
            Accepts(Between(names, before, run, order, k), Rename(e.id, StagedName(run, e.name), e.name))
  {
    var e, now := order[k], Between(names, before, run, order, k);
    assert e in order;
    NextFile(names, before, run, order, k);
    FindFinds(before, e.name);
    ReservedNames(run, e.name);
    assert now[e.id] == StagedName(run, e.name);
    forall other | other in names
      ensures other in now && now[other] != e.name
    {
      PublicNameHolderBetween(names, before, run, order, k, other);
    }
    BetweenKeys(names, before, run, order, k);
  }

  lemma PublicNameHolderBetween(names: Names, before: seq<Original>, run: string, order: seq<Staged>, k: nat, id: nat)
    requires Prepared(names, before, run, order) && k < |order| && id in names
    ensures id in Between(names, before, run, order, k)
    ensures Between(names, before, run, order, k)[id] != order[k].name
  {
    var e := order[k];
    assert e in order;
    FindFinds(before, e.name);
    ReservedNames(run, e.name);
    if NameAfter(names, run, order[..k], id) == e.name {
      PublicNameHolder(names, before, run, order, k, id);
      var o :| o in before && o.id == id && o.name == e.name;
      assert Find(before, e.name).Some?;
      assert names[Find(before, e.name).value.id] == names[id];
    }
  }

  lemma BetweenKeys(names: Names, before: seq<Original>, run: string, order: seq<Staged>, k: nat)
    requires Prepared(names, before, run, order) && k < |order|
    ensures Between(names, before, run, order, k).Keys == names.Keys
  {
    FindFinds(before, order[k].name);
  }

  lemma FilePresent(names: Names, before: seq<Original>, run: string, order: seq<Staged>, k: nat)
    requires Prepared(names, before, run, order) && k < |order|
    ensures order[k].id in names
  {
    assert order[k] in order;
  }

  /** Both steps together put the file in its place. */
  lemma FileSwapped(names: Names, before: seq<Original>, run: string, order: seq<Staged>, k: nat)
    requires Prepared(names, before, run, order) && k < |order|
    ensures Between(names, before, run, order, k)[order[k].id := order[k].name] == Swapped(names, run, order[..k + 1])
  {
    hide NameAfter, Between, Prepared;
    var e, now := order[k], Between(names, before, run, order, k);
    FilePresent(names, before, run, order, k);
    BetweenKeys(names, before, run, order, k);
    forall id | id in names
      ensures now[e.id := e.name][id] == NameAfter(names, run, order[..k + 1], id)
    {
      NameAfterNext(names, before, run, order, k, id);
    }
  }

  /** An asset that has the public name of the next file is the original `find` returns. */
  lemma OnlyHolder(names: Names, before: seq<Original>, run: string, order: seq<Staged>, k: nat, id: nat)
    requires Prepared(names, before, run, order) && k < |order| && id in names && names[id] == order[k].name
    ensures Find(before, order[k].name).Some? && Find(before, order[k].name).value.id == id
  {
    var e := order[k];
    assert e in order && !Reserved(e.name);
    NamesAreKnown(names, before, run, order, id);
    var o :| o in before && o.id == id && o.name == names[id];
    FindFinds(before, e.name);
    assert names[Find(before, e.name).value.id] == names[id];
  }

  lemma NameAfterNext(names: Names, before: seq<Original>, run: string, order: seq<Staged>, k: nat, id: nat)
    requires Prepared(names, before, run, order) && k < |order| && id in names
    ensures id in Between(names, before, run, order, k)
    ensures NameAfter(names, run, order[..k + 1], id)
            == if id == order[k].id then order[k].name else Between(names, before, run, order, k)[id]
  {
    hide Prepared, ById, NamesOf, PriorName, Find, Reserved, StagedName;
    DoneGrows(order, k);
    NextFile(names, before, run, order, k);
    OriginalKept(names, before, run, order, order[k].name);
    if names[id] == order[k].name {
      OnlyHolder(names, before, run, order, k, id);
    }
  }

  lemma OriginalKept(names: Names, before: seq<Original>, run: string, order: seq<Staged>, name: string)
    requires Prepared(names, before, run, order)
    ensures match Find(before, name)
            case Some(o) => o in before && o.id in names && names[o.id] == name
            case None => true
  {
    FindFinds(before, name);
  }

  lemma StepsRun(names: Names, before: seq<Original>, run: string, order: seq<Staged>, k: nat)
    requires Prepared(names, before, run, order) && k < |order|
    ensures var now := Swapped(names, run, order[..k]);
            && Runs(now, Steps(before, run, order[k]))
            && DoAll(now, Steps(before, run, order[k])) == Swapped(names, run, order[..k + 1])
  {
    var now, e := Swapped(names, run, order[..k]), order[k];
    FindFinds(before, e.name);
    PublishStep(names, before, run, order, k);
    FileSwapped(names, before, run, order, k);
    hide Accepts, Prepared, Swapped;
    var publish := Rename(e.id, StagedName(run, e.name), e.name);
    match Find(before, e.name)
    case Some(o) =>
      assert Prepared(names, before, run, order);
      PriorStep(names, before, run, order, k, o);
      TwoSteps(now, Rename(o.id, e.name, PriorName(run, e.name)), publish);
    case None =>
      OneStep(now, publish);
  }

  lemma OneStep(names: Names, r: Rename)
    requires Accepts(names, r)
    ensures Runs(names, [r]) && DoAll(names, [r]) == Do(names, r)
  {
    assert [r][..0] == [];
    assert DoAll(names, []) == names;
  }

  lemma TwoSteps(names: Names, first: Rename, second: Rename)
    requires Accepts(names, first) && Accepts(Do(names, first), second)
    ensures Runs(names, [first] + [second]) && DoAll(names, [first] + [second]) == Do(Do(names, first), second)
  {
    OneStep(names, first);
    OneStep(Do(names, first), second);
    RunsJoin(names, [first], [second]);
    DoAllJoin(names, [first], [second]);
  }

  /** The whole plan is accepted, step by step, and ends with every file in place. */
  lemma {:induction false} PlanRuns(names: Names, before: seq<Original>, run: string, order: seq<Staged>, k: nat)
    requires Prepared(names, before, run, order) && k <= |order|
    ensures Runs(names, Plan(before, run, order[..k]))
    ensures DoAll(names, Plan(before, run, order[..k])) == Swapped(names, run, order[..k])
  {
    hide *;
    if k == 0 {
      NoPlanRuns(names, before, run, order);
    } else {
      PlanRuns(names, before, run, order, k - 1);
      StepsRun(names, before, run, order, k - 1);
      PlanNext(before, run, order, k - 1);
      var first, steps := Plan(before, run, order[..k - 1]), Steps(before, run, order[k - 1]);
      RunsJoin(names, first, steps);
      DoAllJoin(names, first, steps);
    }
  }

  lemma NoPlanRuns(names: Names, before: seq<Original>, run: string, order: seq<Staged>)
    ensures Runs(names, Plan(before, run, order[..0]))
    ensures DoAll(names, Plan(before, run, order[..0])) == Swapped(names, run, order[..0])
  {
    assert order[..0] == [];
    assert Swapped(names, run, []) == names;
  }

  lemma PlanNext(before: seq<Original>, run: string, order: seq<Staged>, k: nat)
    requires k < |order|
    ensures Plan(before, run, order[..k + 1]) == Plan(before, run, order[..k]) + Steps(before, run, order[k])
  {
    hide Steps;
    assert order[..k + 1][..k] == order[..k] && order[..k + 1][k] == order[k];
  }

  /** However far a swap gets, undoing what happened is accepted and restores every name. */
  lemma AnyPrefixUndoes(names: Names, before: seq<Original>, run: string, order: seq<Staged>, n: nat)
    requires Prepared(names, before, run, order) && n <= |Plan(before, run, order)|
    ensures var done := Plan(before, run, order)[..n];
            && Runs(names, done)
            && Runs(DoAll(names, done), Undo(done))
            && DoAll(DoAll(names, done), Undo(done)) == names
  {
    PlanRuns(names, before, run, order, |order|);
    assert order[..|order|] == order;
    RunsPrefix(names, Plan(before, run, order), n);
    UndoIsExact(names, Plan(before, run, order)[..n]);
  }

  // ---- checksums last -------------------------------------------------------------------

  predicate Distinct(staged: seq<Staged>) {
    forall i, j :: 0 <= i < j < |staged| ==> staged[i].id != staged[j].id && staged[i].name != staged[j].name
  }

  lemma {:induction false} OrderHas(staged: seq<Staged>, e: Staged)
    ensures e in Plain(staged) <==> e in staged && !IsChecksums(e.name)
    ensures e in Sums(staged) <==> e in staged && IsChecksums(e.name)
  {
    if staged != [] {
      var front, last := staged[..|staged| - 1], staged[|staged| - 1];
      OrderHas(front, e);
      hide IsChecksums;
      assert staged == front + [last];
    }
  }

  lemma DistinctInsert(a: seq<Staged>, b: seq<Staged>, e: Staged)
    requires Distinct(a + b) && forall x :: x in a + b ==> x.id != e.id && x.name != e.name
    ensures Distinct(a + [e] + b)
  {
    var s, t := a + b, a + [e] + b;
    forall i, j | 0 <= i < j < |t|
      ensures t[i].id != t[j].id && t[i].name != t[j].name
    {
      var i', j' := if i <= |a| then i else i - 1, if j <= |a| then j else j - 1;
      if i != |a| {
        assert t[i] == s[i'] && s[i'] in s;
      }
      if j != |a| {
        assert t[j] == s[j'] && s[j'] in s;
      }
    }
  }

  lemma DistinctEither(a: seq<Staged>, b: seq<Staged>, e: Staged)
    requires Distinct(a + b) && forall x :: x in a + b ==> x.id != e.id && x.name != e.name
    ensures Distinct((a + [e]) + b) && Distinct(a + (b + [e])) && a + [] == a && b + [] == b
  {
    hide Distinct;
    DistinctInsert(a, b, e);
    assert a + b + [] == a + b;
    DistinctInsert(a + b, [], e);
    assert a + b + [e] + [] == a + (b + [e]);
  }

  lemma {:induction false} OrderDistinct(staged: seq<Staged>)
    requires Distinct(staged)
    ensures Distinct(Order(staged))
  {
    if staged != [] {
      var front, e := staged[..|staged| - 1], staged[|staged| - 1];
      OrderDistinct(front);
      forall x | x in Plain(front) + Sums(front)
        ensures x.id != e.id && x.name != e.name
      {
        OrderHas(front, x);
        var i :| 0 <= i < |front| && front[i] == x;
      }
      DistinctEither(Plain(front), Sums(front), e);
      hide Distinct;
    }
  }

  /** The sorted list describes the same release. */
  lemma OrderPrepared(names: Names, before: seq<Original>, run: string, staged: seq<Staged>)
    requires Prepared(names, before, run, staged)
    ensures Prepared(names, before, run, Order(staged))
  {
    OrderDistinct(staged);
    hide Reserved, Unique, Order, StagedName, Distinct;
    forall e
      ensures e in Order(staged) <==> e in staged
    {
      OrderIs(staged, e);
    }
    forall id | id in names
      ensures (exists o :: o in before && o.id == id) || (exists e :: e in Order(staged) && e.id == id)
    {
      if e :| e in staged && e.id == id {
        assert e in Order(staged);
      }
    }
  }

  lemma OrderIs(staged: seq<Staged>, e: Staged)
    ensures e in Order(staged) <==> e in staged
  {
    OrderHas(staged, e);
  }

  lemma {:induction false} Untouched(names: Names, renames: seq<Rename>, id: nat)
    requires id in names && forall r :: r in renames ==> r.id != id
    ensures id in DoAll(names, renames) && DoAll(names, renames)[id] == names[id]
  {
    if renames != [] {
      Untouched(names, renames[..|renames| - 1], id);
    }
  }

  lemma {:induction false} PlanTouches(before: seq<Original>, run: string, order: seq<Staged>, r: Rename)
    requires r in Plan(before, run, order)
    ensures (exists e :: e in order && e.id == r.id) || (exists o :: o in before && o.id == r.id)
  {
    if order != [] {
      var front, last := order[..|order| - 1], order[|order| - 1];
      if r in Plan(before, run, front) {
        PlanTouches(before, run, front, r);
      } else {
        FindFinds(before, last.name);
        assert r in Steps(before, run, last);
        assert last in order;
      }
    }
  }

  /** The new checksums are public only when every other new file is. */
  ghost predicate ChecksumsLast(now: Names, staged: seq<Staged>) {
    (exists sum :: sum in staged && IsChecksums(sum.name) && Public(now, sum))
    ==> forall plain :: plain in staged && !IsChecksums(plain.name) ==> Public(now, plain)
  }

  predicate Public(now: Names, e: Staged) {
    e.id in now && now[e.id] == e.name
  }

  lemma StagedIsLonger(run: string, name: string)
    ensures StagedName(run, name) != name
  {
    assert |StagedName(run, name)| > |name|;
  }

  lemma NotInPart(names: Names, before: seq<Original>, run: string, part: seq<Staged>, whole: seq<Staged>, e: Staged,
                  n: nat)
    requires Prepared(names, before, run, whole) && e in whole
    requires forall x :: x in part ==> x in whole && x.id != e.id
    requires n <= |Plan(before, run, part)|
    ensures forall r :: r in Plan(before, run, part)[..n] ==> r.id != e.id
  {
    forall r | r in Plan(before, run, part)[..n]
      ensures r.id != e.id
    {
      PlanTouches(before, run, part, r);
    }
  }

  lemma SameIdSameFile(names: Names, before: seq<Original>, run: string, staged: seq<Staged>, a: Staged, b: Staged)
    requires Prepared(names, before, run, staged) && a in staged && b in staged && a.id == b.id
    ensures a == b
  {
    var i :| 0 <= i < |staged| && staged[i] == a;
    var j :| 0 <= j < |staged| && staged[j] == b;
  }

  /** At every point of a swap, and so at every point of undoing it, the checksums are last in
      and first out. */
  lemma ChecksumsLastThroughout(names: Names, before: seq<Original>, run: string, staged: seq<Staged>, n: nat)
    requires Prepared(names, before, run, staged) && n <= |Plan(before, run, Order(staged))|
    ensures ChecksumsLast(DoAll(names, Plan(before, run, Order(staged))[..n]), staged)
  {
    var plain, sums := Plain(staged), Sums(staged);
    var first, second := Plan(before, run, plain), Plan(before, run, sums);
    PlanJoin(before, run, plain, sums);
    hide Prepared, Plan, DoAll, IsChecksums, Public;
    if n <= |first| {
      assert (first + second)[..n] == first[..n];
      forall sum | sum in staged && IsChecksums(sum.name)
        ensures !Public(DoAll(names, first[..n]), sum)
      {
        SumStaysStaged(names, before, run, staged, sum, n);
      }
    } else {
      assert (first + second)[..n] == first + second[..n - |first|];
      forall e | e in staged && !IsChecksums(e.name)
        ensures Public(DoAll(names, first + second[..n - |first|]), e)
      {
        PlainStaysPublic(names, before, run, staged, e, n - |first|);
      }
    }
  }

  lemma SumStaysStaged(names: Names, before: seq<Original>, run: string, staged: seq<Staged>, sum: Staged, n: nat)
    requires Prepared(names, before, run, staged) && sum in staged && IsChecksums(sum.name)
    requires n <= |Plan(before, run, Plain(staged))|
    ensures !Public(DoAll(names, Plan(before, run, Plain(staged))[..n]), sum)
  {
    forall x | x in Plain(staged)
      ensures x in staged && x.id != sum.id
    {
      OrderHas(staged, x);
      if x.id == sum.id {
        SameIdSameFile(names, before, run, staged, x, sum);
      }
    }
    NotInPart(names, before, run, Plain(staged), staged, sum, n);
    Untouched(names, Plan(before, run, Plain(staged))[..n], sum.id);
    StagedIsLonger(run, sum.name);
  }

  lemma PlainStaysPublic(names: Names, before: seq<Original>, run: string, staged: seq<Staged>, e: Staged, m: nat)
    requires Prepared(names, before, run, staged) && e in staged && !IsChecksums(e.name)
    requires m <= |Plan(before, run, Sums(staged))|
    ensures Public(DoAll(names, Plan(before, run, Plain(staged)) + Plan(before, run, Sums(staged))[..m]), e)
  {
    var first, rest := Plan(before, run, Plain(staged)), Plan(before, run, Sums(staged))[..m];
    PublicAfterPlain(names, before, run, staged, e);
    SumsTouchNoPlain(names, before, run, staged, e, m);
    hide Prepared, Plan, Plain, Sums, IsChecksums;
    Untouched(DoAll(names, first), rest, e.id);
    DoAllJoin(names, first, rest);
  }

  lemma SumsTouchNoPlain(names: Names, before: seq<Original>, run: string, staged: seq<Staged>, e: Staged, m: nat)
    requires Prepared(names, before, run, staged) && e in staged && !IsChecksums(e.name)
    requires m <= |Plan(before, run, Sums(staged))|
    ensures forall r :: r in Plan(before, run, Sums(staged))[..m] ==> r.id != e.id
  {
    forall x | x in Sums(staged)
      ensures x in staged && x.id != e.id
    {
      OrderHas(staged, x);
      if x.id == e.id {
        SameIdSameFile(names, before, run, staged, x, e);
      }
    }
    NotInPart(names, before, run, Sums(staged), staged, e, m);
  }

  lemma PublicAfterPlain(names: Names, before: seq<Original>, run: string, staged: seq<Staged>, e: Staged)
    requires Prepared(names, before, run, staged) && e in staged && !IsChecksums(e.name)
    ensures Public(DoAll(names, Plan(before, run, Plain(staged))), e)
  {
    var plain := Plain(staged);
    OrderPrepared(names, before, run, staged);
    PlanRuns(names, before, run, Order(staged), |plain|);
    assert Order(staged)[..|plain|] == plain;
    forall x | x in plain
      ensures x in staged
    {
      OrderHas(staged, x);
    }
    OrderHas(staged, e);
    PublicByPlan(names, before, run, staged, plain, e);
  }

  lemma PublicByPlan(names: Names, before: seq<Original>, run: string, staged: seq<Staged>, done: seq<Staged>,
                     e: Staged)
    requires Prepared(names, before, run, staged) && e in staged && e in done
    requires forall x :: x in done ==> x in staged
    ensures e.id in Swapped(names, run, done) && Swapped(names, run, done)[e.id] == e.name
  {
    ByIdHas(done, e.id);
    ByIdOf(done, e.id);
    var x :| x in done && x.id == e.id && ById(done)[e.id] == x.name;
    SameIdSameFile(names, before, run, staged, x, e);
  }

  lemma {:induction false} ByIdOf(done: seq<Staged>, id: nat)
    requires id in ById(done)
    ensures exists x :: x in done && x.id == id && ById(done)[id] == x.name
  {
    var front, last := done[..|done| - 1], done[|done| - 1];
    assert last in done;
    if last.id != id {
      ByIdOf(front, id);
      var x :| x in front && x.id == id && ById(front)[id] == x.name;
      assert x in done;
    }
  }
}
