/** The manifest of a publication, apart from the calls that fill it in: which upload belongs to
    which prepared file, and where the names stand on the plan of the swap. */
module Staging {
  import opened Wrappers
  import opened Renames
  import opened Remote

  datatype LocalFile = LocalFile(name: string, content: Bytes)

  /** A manifest entry for a prepared file; `id` once its upload is identified. */
  datatype StagedFile = StagedFile(name: string, staged: string, content: Bytes, id: Option<nat>)

  // ---- helpers of the program -----------------------------------------------------

  function FindNamed(entries: seq<Entry>, name: string): (found: Option<Entry>)
    ensures found.Some? ==> found.value in entries && found.value.asset.name == name
    ensures found.None? ==> forall e :: e in entries ==> e.asset.name != name
  {
    if entries == [] then None
    else if entries[0].asset.name == name then Some(entries[0])
    else FindNamed(entries[1..], name)
  }

  function FindId(entries: seq<Entry>, id: nat): (found: Option<Entry>)
    ensures found.Some? ==> found.value in entries && found.value.id == id
    ensures found.None? ==> forall e :: e in entries ==> e.id != id
  {
    if entries == [] then None
    else if entries[0].id == id then Some(entries[0])
    else FindId(entries[1..], id)
  }

  function FindStaged(staged: seq<StagedFile>, name: string): (i: nat)
    ensures i <= |staged|
    ensures i < |staged| ==> staged[i].name == name
    ensures forall j :: 0 <= j < i ==> staged[j].name != name
  {
    if staged == [] || staged[0].name == name then 0 else 1 + FindStaged(staged[1..], name)
  }

  function Prepare(local: seq<LocalFile>, run: string): (staged: seq<StagedFile>)
    ensures |staged| == |local|
    ensures forall i :: 0 <= i < |local| ==>
              staged[i] == StagedFile(local[i].name, StagedName(run, local[i].name), local[i].content, None)
  {
    seq(|local|, i requires 0 <= i < |local| =>
      StagedFile(local[i].name, StagedName(run, local[i].name), local[i].content, None))
  }

  function Originals(entries: seq<Entry>): (before: seq<Original>)
    ensures |before| == |entries|
    ensures forall i :: 0 <= i < |entries| ==> before[i] == Original(entries[i].id, entries[i].asset.name)
  {
    seq(|entries|, i requires 0 <= i < |entries| => Original(entries[i].id, entries[i].asset.name))
  }

  predicate Identified(staged: seq<StagedFile>) {
    forall i :: 0 <= i < |staged| ==> staged[i].id.Some?
  }

  function Files(staged: seq<StagedFile>): (files: seq<Staged>)
    requires Identified(staged)
    ensures |files| == |staged|
    ensures forall i :: 0 <= i < |staged| ==> files[i] == Staged(staged[i].name, staged[i].id.value)
  {
    seq(|staged|, i requires 0 <= i < |staged| => Staged(staged[i].name, staged[i].id.value))
  }

  // ---- what is kept throughout ----------------------------------------------------

  /** The originals are still there, as they were but for their names. */
  ghost predicate Kept(before: Assets, now: Assets, intact: bool) {
    forall id :: id in before ==>
      && id in now
      && now[id].uploaded == before[id].uploaded
      && now[id].reported == before[id].reported
      && (intact ==> now[id].content == before[id].content)
  }

  /** While staging, the originals are exactly as they were. */
  ghost predicate AsTheyWere(before: Assets, now: Assets) {
    forall id :: id in before ==> id in now && now[id] == before[id]
  }

  /** The manifest entries are the prepared files, and an identified entry is a new asset. */
  ghost predicate Manifest(staged: seq<StagedFile>, local: seq<LocalFile>, run: string, before: Assets) {
    && |staged| == |local|
    && forall i :: 0 <= i < |staged| ==>
         && staged[i] == StagedFile(local[i].name, StagedName(run, local[i].name), local[i].content, staged[i].id)
         && (staged[i].id.Some? ==> staged[i].id.value !in before)
  }

  ghost predicate IsUpload(staged: seq<StagedFile>, id: nat) {
    exists i :: 0 <= i < |staged| && staged[i].id == Some(id)
  }

  /** While staging: identified entries are uploads under their staged names, each for the
      first file of its name, and there is nothing else besides the originals. */
  ghost predicate Uploads(staged: seq<StagedFile>, before: Assets, now: Assets) {
    && Named(staged, now)
    && (forall id :: id in now ==> id in before || IsUpload(staged, id))
  }

  ghost predicate Named(staged: seq<StagedFile>, now: Assets) {
    forall i :: 0 <= i < |staged| && staged[i].id.Some? ==>
      && staged[i].id.value in now && now[staged[i].id.value].name == staged[i].staged
      && FindStaged(staged, staged[i].name) == i
  }

  /** No original has a name this publication gives out. */
  ghost predicate Unreserved(before: Assets) {
    forall id :: id in before ==> !Reserved(before[id].name)
  }

  /** The upload is the prepared file, under its staged name. */
  ghost predicate Checked(file: StagedFile, now: Assets) {
    Matches(file, now) && now[file.id.value].name == file.staged
  }

  lemma AllChecked(staged: seq<StagedFile>, now: Assets)
    requires forall i :: 0 <= i < |staged| ==> Checked(staged[i], now)
    ensures forall i :: 0 <= i < |staged| ==> Matches(staged[i], now)
  {
  }

  /** The staged upload is the prepared file. */
  ghost predicate Matches(file: StagedFile, now: Assets) {
    && file.id.Some? && file.id.value in now
    && now[file.id.value].uploaded
    && now[file.id.value].content == file.content
  }

  /** The names after the first `n` renames of the plan. */
  ghost predicate At(now: Names, first: Names, plan: seq<Rename>, n: nat) {
    n <= |plan| && now == DoAll(first, plan[..n])
  }

  ghost predicate Traced(history: seq<Names>, first: Names, plan: seq<Rename>) {
    forall j :: 0 <= j < |history| ==> OnPlan(history[j], first, plan)
  }

  ghost predicate OnPlan(now: Names, first: Names, plan: seq<Rename>) {
    exists n :: At(now, first, plan, n)
  }

  lemma AtStart(first: Names, plan: seq<Rename>)
    ensures At(first, first, plan, 0) && Traced([], first, plan)
  {
    assert plan[..0] == [];
  }

  lemma AtNext(now: Names, first: Names, plan: seq<Rename>, n: nat)
    requires At(now, first, plan, n) && n < |plan|
    ensures At(Do(now, plan[n]), first, plan, n + 1)
  {
    assert plan[..n + 1] == plan[..n] + [plan[n]];
    DoAllSnoc(first, plan[..n], plan[n]);
  }

  lemma TracedSnoc(history: seq<Names>, start: nat, now: Names, first: Names, plan: seq<Rename>, n: nat)
    requires start <= |history| && Traced(history[start..], first, plan)
    requires At(now, first, plan, n) || At(now, first, plan, n + 1)
    ensures Traced((history + [now])[start..], first, plan)
  {
    hide At;
    assert (history + [now])[start..] == history[start..] + [now];
    assert OnPlan(now, first, plan);
  }

  lemma RelabeledSame(assets: Assets, intact: bool)
    ensures Relabeled(assets, assets, intact)
  {
  }

  lemma RelabeledTwice(a: Assets, b: Assets, c: Assets, intact: bool)
    requires Relabeled(a, b, intact) && Relabeled(b, c, intact)
    ensures Relabeled(a, c, intact)
  {
  }

  lemma PlanEnds(before: seq<Original>, run: string, order: seq<Staged>)
    ensures Plan(before, run, order[..0]) == [] && order[..|order|] == order
  {
  }

  ghost predicate Stands(steps: seq<Rename>, plan: seq<Rename>, n: nat) {
    n + |steps| <= |plan| && plan[n..n + |steps|] == steps
  }

  /** File `k`'s steps stand in the plan right behind those of the files before it. */
  lemma PlanHas(before: seq<Original>, run: string, order: seq<Staged>, k: nat)
    requires k < |order|
    ensures var n, steps := |Plan(before, run, order[..k])|, Steps(before, run, order[k]);
            && Stands(steps, Plan(before, run, order), n)
            && |Plan(before, run, order[..k + 1])| == n + |steps|
  {
    var next := order[..k + 1];
    assert next[..k] == order[..k] && next[k] == order[k];
    assert order == next + order[k + 1..];
    PlanJoin(before, run, next, order[k + 1..]);
    hide Steps;
    assert Plan(before, run, next) == Plan(before, run, order[..k]) + Steps(before, run, order[k]);
  }

  /** Same assets, same files; only names may differ. */
  ghost predicate Relabeled(before: Assets, now: Assets, intact: bool) {
    && now.Keys == before.Keys
    && Kept(before, now, intact)
  }

  lemma RenameOutcome(before: Assets, now: Assets, r: Rename, intact: bool)
    requires Unique(AssetNames(before))
    requires now == before || Patched(before, now, r.id, r.target, intact)
    ensures Relabeled(before, now, intact)
    ensures AssetNames(now) == AssetNames(before) || AssetNames(now) == Do(AssetNames(before), r)
    ensures Patched(before, now, r.id, r.target, intact) ==> AssetNames(now) == Do(AssetNames(before), r)
  {
    if Patched(before, now, r.id, r.target, intact) {
      PatchedNames(before, now, r.id, r.target, intact);
    }
  }

  lemma NothingUploaded(staged: seq<StagedFile>, before: Assets)
    requires forall i :: 0 <= i < |staged| ==> staged[i].id.None?
    ensures Uploads(staged, before, before) && Named(staged, before) && AsTheyWere(before, before)
    ensures Correct(staged, before) && forall local :: Through(staged, local, 0)
  {
  }

  lemma EntryOf(staged: seq<StagedFile>, local: seq<LocalFile>, run: string, before: Assets, file: LocalFile)
    requires Manifest(staged, local, run, before) && file in local
    ensures var i := FindStaged(staged, file.name);
            i < |staged| && staged[i].name == file.name && staged[i].staged == StagedName(run, file.name)
  {
    var k :| 0 <= k < |local| && local[k] == file;
    assert staged[k].name == file.name;
  }

  lemma UploadKeeps(before: Assets, was: Assets, now: Assets, name: string)
    requires AsTheyWere(before, was) && (now == was || Created(was, now, name))
    ensures AsTheyWere(before, now)
  {
  }

  lemma StagedIsNew(before: Assets, now: Assets, run: string, name: string, id: nat)
    requires AsTheyWere(before, now) && Unreserved(before)
    requires id in now && now[id].name == StagedName(run, name)
    ensures id !in before
  {
    ReservedNames(run, name);
  }

  lemma {:induction false} FindStagedByName(a: seq<StagedFile>, b: seq<StagedFile>, name: string)
    requires |a| == |b| && forall i :: 0 <= i < |a| ==> a[i].name == b[i].name
    ensures FindStaged(a, name) == FindStaged(b, name)
  {
    if a != [] && a[0].name != name {
      FindStagedByName(a[1..], b[1..], name);
    }
  }

  /** Unique names let only one asset be the upload of an entry. */
  lemma UploadIs(now: Assets, a: nat, b: nat)
    requires Unique(AssetNames(now)) && a in now && b in now && now[a].name == now[b].name
    ensures a == b
  {
    assert AssetNames(now)[a] == AssetNames(now)[b];
  }

  lemma EntryIdentified(staged: seq<StagedFile>, local: seq<LocalFile>, run: string, before: Assets, was: Assets,
                        now: Assets, name: string, i: nat, id: nat)
    requires Manifest(staged, local, run, before) && Uploads(staged, before, was)
    requires i < |staged| && i == FindStaged(staged, name)
    requires now == was || Created(was, now, staged[i].staged)
    requires Unique(AssetNames(now)) && id in now && now[id].name == staged[i].staged && id !in before
    ensures var next := staged[i := staged[i].(id := Some(id))];
            Manifest(next, local, run, before) && Uploads(next, before, now)
  {
    hide Manifest, AssetNames, Unique, Created, StagedName, IsUpload, FindStaged;
    ManifestIdentified(staged, local, run, before, i, id);
    NamedStays(staged, before, was, now, staged[i].staged);
    assert forall k :: 0 <= k < |staged| && staged[k].id.Some? ==> FindStaged(staged, staged[k].name) == k;
    hide Uploads;
    var next := staged[i := staged[i].(id := Some(id))];
    forall k | 0 <= k < |next| && next[k].id.Some?
      ensures next[k].id.value in now && now[next[k].id.value].name == next[k].staged
      ensures FindStaged(next, next[k].name) == k
    {
      FindStagedByName(next, staged, next[k].name);
      if k == i {
        assert next[k].name == staged[i].name == name;
      } else {
        assert next[k] == staged[k];
      }
    }
    forall other | other in now && other !in before
      ensures IsUpload(next, other)
    {
      UploadCovered(staged, before, was, now, i, id, other);
    }
    UploadsFrom(next, before, now);
  }

  lemma UploadsNamed(staged: seq<StagedFile>, before: Assets, now: Assets)
    requires Uploads(staged, before, now)
    ensures Named(staged, now)
  {
    hide FindStaged, IsUpload, Named;
  }

  lemma UploadsFrom(staged: seq<StagedFile>, before: Assets, now: Assets)
    requires forall k :: 0 <= k < |staged| && staged[k].id.Some? ==>
               && staged[k].id.value in now && now[staged[k].id.value].name == staged[k].staged
               && FindStaged(staged, staged[k].name) == k
    requires forall id :: id in now && id !in before ==> IsUpload(staged, id)
    ensures Uploads(staged, before, now)
  {
    hide FindStaged, IsUpload;
  }

  lemma ManifestIdentified(staged: seq<StagedFile>, local: seq<LocalFile>, run: string, before: Assets, i: nat, id: nat)
    requires Manifest(staged, local, run, before) && i < |staged| && id !in before
    ensures Manifest(staged[i := staged[i].(id := Some(id))], local, run, before)
  {
    hide StagedName;
  }

  lemma NamedStays(staged: seq<StagedFile>, before: Assets, was: Assets, now: Assets, name: string)
    requires Uploads(staged, before, was) && (now == was || Created(was, now, name))
    ensures Named(staged, now)
  {
    hide FindStaged, IsUpload;
  }

  lemma UploadCovered(staged: seq<StagedFile>, before: Assets, was: Assets, now: Assets, i: nat, id: nat, other: nat)
    requires Uploads(staged, before, was) && i < |staged|
    requires now == was || Created(was, now, staged[i].staged)
    requires Unique(AssetNames(now)) && id in now && now[id].name == staged[i].staged
    requires other in now && other !in before
    ensures IsUpload(staged[i := staged[i].(id := Some(id))], other)
  {
    var next := staged[i := staged[i].(id := Some(id))];
    assert next[i].id == Some(id);
    if other in was {
      var k :| 0 <= k < |staged| && staged[k].id == Some(other);
      if k == i {
        UploadIs(now, id, other);
      } else {
        assert next[k].id == Some(other);
      }
    } else {
      UploadIs(now, id, other);
    }
  }

  // ---- when nothing goes wrong ------------------------------------------------------

  predicate DistinctNames(local: seq<LocalFile>) {
    forall i, j :: 0 <= i < j < |local| ==> local[i].name != local[j].name
  }

  /** No file has a name this publication gives out itself. */
  predicate PublicNames(local: seq<LocalFile>) {
    forall file :: file in local ==> !Reserved(file.name)
  }

  ghost predicate Correct(staged: seq<StagedFile>, now: Assets) {
    forall i :: 0 <= i < |staged| && staged[i].id.Some? ==> Matches(staged[i], now)
  }

  /** The first `k` files are uploaded, one for each name. */
  ghost predicate Through(staged: seq<StagedFile>, local: seq<LocalFile>, k: nat)
    requires k <= |local|
  {
    forall j :: 0 <= j < k ==> Has(staged, local[j].name)
  }

  predicate Has(staged: seq<StagedFile>, name: string) {
    var i := FindStaged(staged, name);
    i < |staged| && staged[i].id.Some?
  }

  predicate Taken(now: Assets, name: string) {
    exists id :: id in now && now[id].name == name
  }

  /** A name that is taken is found in the listing. */
  lemma {:induction false} Listed(entries: seq<Entry>, now: Assets, name: string, found: Option<Entry>)
    requires Lists(entries, now) && found == FindNamed(entries, name)
    ensures found.Some? ==>
              found.value.id in now && found.value.asset == now[found.value.id] && found.value.asset.name == name
    ensures Taken(now, name) ==> found.Some?
  {
    if id :| id in now && now[id].name == name {
      var e :| e in entries && e.id == id;
    }
  }

  /** Whoever has a staged name is the upload of the entry with that name. */
  lemma {:induction false} UploadedOnce(staged: seq<StagedFile>, local: seq<LocalFile>, run: string, before: Assets,
                                        now: Assets, i: nat, id: nat)
    requires Manifest(staged, local, run, before) && Uploads(staged, before, now) && Correct(staged, now)
    requires i < |staged| && i == FindStaged(staged, staged[i].name)
    requires id in now && id !in before && now[id].name == staged[i].staged
    ensures staged[i].id == Some(id) && Matches(staged[i], now)
  {
    hide Matches, FindStaged, StagedName;
    assert IsUpload(staged, id);
    var m :| 0 <= m < |staged| && staged[m].id == Some(id);
    StagedNamesDiffer(run, staged[m].name, staged[i].name);
    assert FindStaged(staged, staged[m].name) == m;
  }

  lemma {:induction false} FirstEntry(staged: seq<StagedFile>, local: seq<LocalFile>, run: string, before: Assets,
                                      k: nat)
    requires Manifest(staged, local, run, before) && k < |local|
    ensures FindStaged(staged, local[k].name) <= k
  {
    var i := FindStaged(staged, local[k].name);
    assert staged[k].name == local[k].name;
  }

  /** The next upload either finds its name free and carries the entry's content, or was made
      for an earlier file of that name. */
  lemma {:induction false} UploadOrThere(staged: seq<StagedFile>, local: seq<LocalFile>, run: string, before: Assets,
                                         now: Assets, k: nat, i: nat)
    requires Manifest(staged, local, run, before) && Uploads(staged, before, now) && Correct(staged, now)
    requires k < |local| && Through(staged, local, k) && i == FindStaged(staged, local[k].name)
    ensures i < |staged|
    ensures Taken(now, staged[i].staged) || (i == k && staged[i].content == local[k].content)
  {
    FirstEntry(staged, local, run, before, k);
    if i < k {
      assert Has(staged, local[i].name);
      hide FindStaged;
      assert local[i].name == local[k].name;
      assert now[staged[i].id.value].name == staged[i].staged;
    }
  }

  /** The entry is identified with an upload of its content. */
  lemma {:induction false} CorrectNext(staged: seq<StagedFile>, local: seq<LocalFile>, run: string, before: Assets,
                                       was: Assets, now: Assets,
                    k: nat, i: nat, id: nat)
    requires Manifest(staged, local, run, before) && Uploads(staged, before, was) && Correct(staged, was)
    requires k < |local| && Through(staged, local, k) && i == FindStaged(staged, local[k].name) && i < |staged|
    requires now == was || Created(was, now, staged[i].staged)
    requires id in now && id !in before && now[id].name == staged[i].staged
    requires now == was || (now[id].uploaded && now[id].content == staged[i].content)
    ensures now[id].uploaded
    ensures var next := staged[i := staged[i].(id := Some(id))];
            Correct(next, now) && Through(next, local, k + 1)
  {
    var next := staged[i := staged[i].(id := Some(id))];
    CorrectStays(staged, was, now, staged[i].staged);
    assert staged[i].name == local[k].name;
    if now == was {
      UploadedOnce(staged, local, run, before, now, i, id);
    }
    hide Manifest, Uploads, Through, FindStaged, Created, StagedName;
    assert Matches(next[i], now);
    assert Correct(next, now);
    ThroughNext(staged, local, k, i, id);
  }

  lemma {:induction false} CorrectStays(staged: seq<StagedFile>, was: Assets, now: Assets, name: string)
    requires Correct(staged, was) && (now == was || Created(was, now, name))
    ensures Correct(staged, now)
  {
    hide FindStaged;
    forall i | 0 <= i < |staged| && staged[i].id.Some?
      ensures Matches(staged[i], now)
    {
      assert Matches(staged[i], was);
    }
  }

  lemma {:induction false} ThroughNext(staged: seq<StagedFile>, local: seq<LocalFile>, k: nat, i: nat, id: nat)
    requires k < |local| && Through(staged, local, k) && i < |staged| && i == FindStaged(staged, local[k].name)
    ensures Through(staged[i := staged[i].(id := Some(id))], local, k + 1)
  {
    var next := staged[i := staged[i].(id := Some(id))];
    hide FindStaged;
    forall j | 0 <= j < k + 1
      ensures Has(next, local[j].name)
    {
      FindStagedByName(staged, next, local[j].name);
      if j < k {
        assert Has(staged, local[j].name);
      }
    }
  }

  /** With every file uploaded, an entry is left over exactly when its name came up before. */
  lemma {:induction false} AllThrough(staged: seq<StagedFile>, local: seq<LocalFile>, run: string, before: Assets,
                                      now: Assets)
    requires Manifest(staged, local, run, before) && Named(staged, now) && Through(staged, local, |local|)
    ensures Identified(staged) <==> DistinctNames(local)
  {
    hide FindStaged, StagedName;
    if DistinctNames(local) {
      forall i | 0 <= i < |staged|
        ensures staged[i].id.Some?
      {
        assert Has(staged, local[i].name);
        FindsItself(staged, local, run, before, i);
      }
    } else {
      var i, j :| 0 <= i < j < |local| && local[i].name == local[j].name;
      FirstEntry(staged, local, run, before, i);
      assert FindStaged(staged, staged[j].name) <= i;
    }
  }

  lemma {:induction false} FindsItself(staged: seq<StagedFile>, local: seq<LocalFile>, run: string, before: Assets,
                                       i: nat)
    requires Manifest(staged, local, run, before) && DistinctNames(local) && i < |staged|
    ensures FindStaged(staged, local[i].name) == i
  {
    FirstEntry(staged, local, run, before, i);
    var j := FindStaged(staged, local[i].name);
    assert local[j].name == local[i].name;
  }

  lemma {:induction false} NamedMeans(staged: seq<StagedFile>, now: Assets)
    ensures Named(staged, now) && Correct(staged, now) ==>
              forall i :: 0 <= i < |staged| && staged[i].id.Some? ==>
                Matches(staged[i], now) && now[staged[i].id.value].name == staged[i].staged
  {
    hide FindStaged;
  }

  // ---- after the swap ---------------------------------------------------------------

  function OrEmpty(text: Option<string>): string {
    match text
    case Some(value) => value
    case None => ""
  }

  /** There are a title and notes to put back. */
  predicate Restorable(original: Meta) {
    original.name.Some? && original.body.Some?
  }

  /** What an edit can put back: a title or body that was absent comes back empty, and then
      does not read as the original. */
  function Filled(original: Meta): (meta: Meta)
    ensures meta == original <==> Restorable(original)
    ensures meta.name == original.name && meta.body == original.body <==> Restorable(original)
    ensures meta.draft == original.draft && meta.prerelease == original.prerelease
  {
    Meta(Some(OrEmpty(original.name)), Some(OrEmpty(original.body)), original.draft, original.prerelease)
  }

  /** The public name stands for the upload, and a digest the server states is the file's. */
  ghost predicate InPlace(file: StagedFile, now: Assets) {
    && file.id.Some? && file.id.value in now
    && now[file.id.value].name == file.name
    && (now[file.id.value].reported ==> now[file.id.value].content == file.content)
  }

  lemma PlaceSeen(file: StagedFile, entries: seq<Entry>, now: Assets, found: Entry)
    requires Lists(entries, now) && found in entries && found.asset.name == file.name && Some(found.id) == file.id
    requires found.asset.reported ==> found.asset.content == file.content
    ensures InPlace(file, now)
  {
  }

  /** How a publication stood when it was attempted: the assets before it, the assets when the
      swap began, the plan, and where in the history it started. */
  datatype Attempt = Attempt(before: Assets, origin: Assets, plan: seq<Rename>, start: nat, clean: bool)

  ghost predicate Undoable(first: Names, plan: seq<Rename>) {
    Unique(first) && Runs(first, plan)
  }

  /** The same of a manifest some of whose uploads may not be identified yet. */
  ghost predicate SumsLast(now: Names, staged: seq<StagedFile>) {
    (exists i :: 0 <= i < |staged| && IsChecksums(staged[i].name) && Shown(now, staged[i]))
    ==> forall i :: 0 <= i < |staged| && !IsChecksums(staged[i].name) ==> Shown(now, staged[i])
  }

  predicate Shown(now: Names, file: StagedFile) {
    file.id.Some? && Public(now, Staged(file.name, file.id.value))
  }

  /** As long as one upload is not public, no checksums are: said of the names themselves. */
  ghost predicate ChecksumsBehind(now: Names, staged: seq<StagedFile>) {
    forall i, k :: 0 <= i < |staged| && 0 <= k < |staged| && Shown(now, staged[i]) && !Shown(now, staged[k]) ==>
      EndsInChecksums(staged[i].name) ==> EndsInChecksums(staged[k].name)
  }

  ghost predicate AllChecksumsBehind(history: seq<Names>, staged: seq<StagedFile>) {
    forall j :: 0 <= j < |history| ==> ChecksumsBehind(history[j], staged)
  }

  lemma {:induction false} SumsLastMeans(now: Names, staged: seq<StagedFile>)
    requires SumsLast(now, staged)
    ensures ChecksumsBehind(now, staged)
  {
    hide Shown, IsChecksums, EndsInChecksums;
    forall i | 0 <= i < |staged|
      ensures IsChecksums(staged[i].name) <==> EndsInChecksums(staged[i].name)
    {
      ChecksumsAre(staged[i].name);
    }
  }

  lemma {:induction false} AllSumsLastMeans(history: seq<Names>, staged: seq<StagedFile>)
    requires AllSumsLast(history, staged)
    ensures AllChecksumsBehind(history, staged)
  {
    hide SumsLast, ChecksumsBehind;
    forall j | 0 <= j < |history|
      ensures ChecksumsBehind(history[j], staged)
    {
      SumsLastMeans(history[j], staged);
    }
  }

  ghost predicate AllSumsLast(history: seq<Names>, staged: seq<StagedFile>) {
    forall j :: 0 <= j < |history| ==> SumsLast(history[j], staged)
  }

  ghost predicate PlanSumsLast(first: Names, plan: seq<Rename>, staged: seq<StagedFile>) {
    forall now :: OnPlan(now, first, plan) ==> SumsLast(now, staged)
  }

  /** No upload is under a public name. */
  ghost predicate Veiled(staged: seq<StagedFile>, now: Names) {
    forall i :: 0 <= i < |staged| ==> !Shown(now, staged[i])
  }

  ghost predicate Gone(staged: seq<StagedFile>, now: Assets) {
    forall i :: 0 <= i < |staged| && staged[i].id.Some? ==> staged[i].id.value !in now
  }

  /** Every original is there under its own name. */
  ghost predicate Back(before: Assets, now: Assets) {
    forall id :: id in before ==> id in now && now[id].name == before[id].name
  }

  ghost predicate StillNamed(entries: seq<Entry>, now: Assets) {
    forall e :: e in entries ==> e.id in now && now[e.id].name == e.asset.name
  }

  lemma {:induction false} BackByNames(before: Assets, origin: Assets, now: Assets)
    requires AsTheyWere(before, origin) && AssetNames(now) == AssetNames(origin)
    ensures Back(before, now)
  {
    forall id | id in before
      ensures id in now && now[id].name == before[id].name
    {
      assert id in AssetNames(origin) && AssetNames(now)[id] == AssetNames(origin)[id];
    }
  }

  /** An attempt that can be taken back. */
  ghost predicate Fallible(run: Attempt, staged: seq<StagedFile>, renames: seq<Rename>) {
    && AsTheyWere(run.before, run.origin)
    && Named(staged, run.origin)
    && New(staged, run.before)
    && (forall i :: 0 <= i < |staged| ==> staged[i].staged != staged[i].name)
    && renames <= run.plan
    && (run.clean ==>
          && Undoable(AssetNames(run.origin), run.plan)
          && PlanSumsLast(AssetNames(run.origin), run.plan, staged))
  }

  ghost predicate New(staged: seq<StagedFile>, before: Assets) {
    forall i :: 0 <= i < |staged| && staged[i].id.Some? ==> staged[i].id.value !in before
  }

  lemma FallibleMeans(run: Attempt, staged: seq<StagedFile>, renames: seq<Rename>)
    requires Fallible(run, staged, renames)
    ensures renames <= run.plan && (run.clean ==> Undoable(AssetNames(run.origin), run.plan))
    ensures forall i :: 0 <= i < |staged| && staged[i].id.Some? ==> staged[i].id.value !in run.before
  {
  }

  lemma AtPrevious(now: Names, first: Names, plan: seq<Rename>, i: nat)
    requires Undoable(first, plan) && i < |plan| && At(now, first, plan, i + 1)
    ensures At(Do(now, Inverse(plan[i])), first, plan, i) && Accepts(now, Inverse(plan[i]))
  {
    assert plan[..i + 1] == plan[..i] + [plan[i]];
    DoAllSnoc(first, plan[..i], plan[i]);
    RunsPrefix(first, plan, i);
    UniqueAfter(first, plan[..i]);
    UniqueStep(DoAll(first, plan[..i]), plan[i]);
  }

  lemma {:induction false} AcceptsIsFree(now: Assets, r: Rename)
    ensures Accepts(AssetNames(now), r) ==> r.id in now && Free(now, r.id, r.target)
  {
    assert forall id :: id in now ==> AssetNames(now)[id] == now[id].name;
  }

  lemma {:induction false} AcceptedAt(now: Names, first: Names, plan: seq<Rename>, n: nat)
    requires At(now, first, plan, n) && n < |plan|
    ensures Undoable(first, plan) ==> Accepts(now, plan[n])
  {
    hide Accepts;
  }

  /** A published file is found under its name. */
  lemma {:induction false} DeliveredIsFound(file: StagedFile, entries: seq<Entry>, now: Assets, found: Option<Entry>)
    requires Lists(entries, now) && found == FindNamed(entries, file.name) && Unique(AssetNames(now))
    ensures Delivered(file, now, true) ==>
              found.Some? && Some(found.value.id) == file.id && found.value.asset.content == file.content
  {
    if Delivered(file, now, true) {
      NameIsFound(Entry(file.id.value, now[file.id.value]), entries, now, found);
    }
  }

  /** Names are unique, so a listing finds the asset that has the name. */
  lemma {:induction false} NameIsFound(wanted: Entry, entries: seq<Entry>, now: Assets, found: Option<Entry>)
    requires Lists(entries, now) && found == FindNamed(entries, wanted.asset.name) && Unique(AssetNames(now))
    ensures wanted.id in now && now[wanted.id].name == wanted.asset.name ==> found.Some? && found.value.id == wanted.id
  {
    if wanted.id in now && now[wanted.id].name == wanted.asset.name {
      var e :| e in entries && e.id == wanted.id;
      assert e.asset.name == wanted.asset.name;
      UploadIs(now, found.value.id, wanted.id);
    }
  }

  lemma AtEnd(now: Names, first: Names, plan: seq<Rename>)
    requires At(now, first, plan, |plan|)
    ensures now == DoAll(first, plan)
  {
    assert plan[..|plan|] == plan;
  }

  lemma AtFirst(first: Names, plan: seq<Rename>)
    ensures forall now :: At(now, first, plan, 0) ==> now == first
  {
    assert plan[..0] == [];
  }

  lemma RemovalKeeps(before: Assets, was: Assets, now: Assets, id: nat, intact: bool)
    requires Kept(before, was, intact) && id !in before && (now == was || now == was - {id})
    ensures Kept(before, now, intact) && now.Keys <= was.Keys
    ensures Back(before, was) ==> Back(before, now)
  {
  }

  lemma VeiledStays(staged: seq<StagedFile>, was: Assets, now: Assets, id: nat)
    requires Veiled(staged, AssetNames(was)) && (now == was || now == was - {id})
    ensures Veiled(staged, AssetNames(now))
  {
    forall i | 0 <= i < |staged|
      ensures !Shown(AssetNames(now), staged[i])
    {
      assert !Shown(AssetNames(was), staged[i]);
    }
  }

  lemma VeiledSumsLast(staged: seq<StagedFile>, now: Names)
    requires Veiled(staged, now)
    ensures SumsLast(now, staged)
  {
    hide Shown;
  }

  lemma AllSumsLastSnoc(history: seq<Names>, start: nat, now: Names, staged: seq<StagedFile>)
    requires start <= |history| && AllSumsLast(history[start..], staged) && Veiled(staged, now)
    ensures AllSumsLast((history + [now])[start..], staged)
  {
    VeiledSumsLast(staged, now);
    hide SumsLast;
    assert (history + [now])[start..] == history[start..] + [now];
  }

  lemma OriginKept(before: Assets, origin: Assets, now: Assets, intact: bool)
    requires AsTheyWere(before, origin) && Relabeled(origin, now, intact)
    ensures Kept(before, now, intact)
  {
  }

  lemma TracedSumsLast(history: seq<Names>, first: Names, plan: seq<Rename>, staged: seq<StagedFile>)
    requires Traced(history, first, plan) && PlanSumsLast(first, plan, staged)
    ensures AllSumsLast(history, staged)
  {
    hide OnPlan, SumsLast;
  }

  lemma NamedVeiled(staged: seq<StagedFile>, now: Assets)
    requires Named(staged, now) && forall i :: 0 <= i < |staged| ==> staged[i].staged != staged[i].name
    ensures Veiled(staged, AssetNames(now))
  {
    hide FindStaged;
  }

  lemma BackFrom(entries: seq<Entry>, before: Assets, now: Assets)
    requires Lists(entries, before)
    requires StillNamed(entries, now)
    ensures Back(before, now)
  {
    forall id | id in before
      ensures id in now && now[id].name == before[id].name
    {
      var e :| e in entries && e.id == id;
    }
  }

  // ---- from the manifest to the plan ----------------------------------------------------

  /** The file can be had under its public name. */
  ghost predicate Delivered(file: StagedFile, now: Assets, intact: bool) {
    && file.id.Some? && file.id.value in now
    && now[file.id.value].name == file.name && now[file.id.value].uploaded
    && (intact || now[file.id.value].reported ==> now[file.id.value].content == file.content)
  }

  /** Each prepared file can be had, as it is, under its own name. */
  ghost predicate AllPublic(local: seq<LocalFile>, staged: seq<StagedFile>, now: Assets, intact: bool) {
    && |staged| == |local|
    && forall i :: 0 <= i < |local| ==>
         && staged[i].id.Some? && staged[i].id.value in now
         && var asset := now[staged[i].id.value];
            && asset.name == local[i].name && asset.uploaded
            && (intact || asset.reported ==> asset.content == local[i].content)
  }

  ghost predicate AllDelivered(staged: seq<StagedFile>, now: Assets, intact: bool) {
    forall i :: 0 <= i < |staged| ==> Delivered(staged[i], now, intact)
  }

  lemma {:induction false} AllShownDelivered(staged: seq<StagedFile>, origin: Assets, now: Assets, intact: bool)
    requires forall i :: 0 <= i < |staged| ==> Matches(staged[i], origin) && Shown(AssetNames(now), staged[i])
    requires Relabeled(origin, now, intact)
    ensures intact ==> AllDelivered(staged, now, true)
  {
    forall i | 0 <= i < |staged|
      ensures intact ==> Delivered(staged[i], now, true)
    {
      assert Matches(staged[i], origin) && Shown(AssetNames(now), staged[i]);
    }
  }

  /** At the end of the plan every file is under its public name. */
  lemma {:induction false} PublishedByPlan(first: Names, originals: seq<Original>, run: string, staged: seq<StagedFile>)
    requires Identified(staged) && Prepared(first, originals, run, Files(staged))
    ensures var now := DoAll(first, Plan(originals, run, Order(Files(staged))));
            forall i :: 0 <= i < |staged| ==> Shown(now, staged[i])
  {
    var files := Files(staged);
    var order := Order(files);
    OrderPrepared(first, originals, run, files);
    PlanRuns(first, originals, run, order, |order|);
    assert order[..|order|] == order;
    hide Prepared, Plan, Order, DoAll, Runs, Swapped;
    forall x
      ensures x in order <==> x in files
    {
      OrderIs(files, x);
    }
    forall i | 0 <= i < |staged|
      ensures Shown(DoAll(first, Plan(originals, run, order)), staged[i])
    {
      assert files[i] in files;
      PublicByPlan(first, originals, run, files, order, files[i]);
    }
  }

  lemma DeliveredFrom(file: StagedFile, origin: Assets, now: Assets, intact: bool)
    requires Matches(file, origin) && Relabeled(origin, now, intact) && InPlace(file, now)
    ensures Delivered(file, now, intact)
  {
  }

  lemma StagedNamesDiffer(run: string, a: string, b: string)
    ensures StagedName(run, a) == StagedName(run, b) ==> a == b
  {
    var k := |"staged-" + run + "-"|;
    assert StagedName(run, a)[k..] == a && StagedName(run, b)[k..] == b;
  }

  lemma FilesDiffer(staged: seq<StagedFile>, run: string, now: Assets, i: nat, j: nat)
    requires Identified(staged) && Named(staged, now) && i < j < |staged|
    requires forall k :: 0 <= k < |staged| ==> staged[k].staged == StagedName(run, staged[k].name)
    ensures staged[i].name != staged[j].name && staged[i].id != staged[j].id
  {
    assert FindStaged(staged, staged[i].name) == i && FindStaged(staged, staged[j].name) == j;
    StagedNamesDiffer(run, staged[i].name, staged[j].name);
  }

  /** Staging leaves the release prepared for the swap. */
  lemma StagedIsPrepared(entries: seq<Entry>, before: Assets, origin: Assets, local: seq<LocalFile>, run: string,
                         staged: seq<StagedFile>)
    requires Lists(entries, before) && AsTheyWere(before, origin) && Unreserved(before) && Unique(AssetNames(origin))
    requires Manifest(staged, local, run, before) && Uploads(staged, before, origin) && Identified(staged)
    requires PublicNames(local)
    ensures Prepared(AssetNames(origin), Originals(entries), run, Files(staged))
  {
    FilesStaged(before, origin, local, run, staged);
    OriginalsKept(entries, before, origin);
    NothingElse(entries, before, origin, staged);
    FilesDistinct(before, origin, local, run, staged);
    hide *;
    PreparedFrom(AssetNames(origin), Originals(entries), run, Files(staged), before.Keys);
  }

  lemma PreparedFrom(names: Names, originals: seq<Original>, run: string, files: seq<Staged>, ids: set<nat>)
    requires Unique(names) && Distinct(files)
    requires forall o :: o in originals ==> o.id in ids && o.id in names && names[o.id] == o.name && !Reserved(o.name)
    requires forall e :: e in files ==>
               e.id in names && names[e.id] == StagedName(run, e.name) && !Reserved(e.name) && e.id !in ids
    requires forall id :: id in names ==>
               (exists o :: o in originals && o.id == id) || (exists e :: e in files && e.id == id)
    ensures Prepared(names, originals, run, files)
  {
    hide Unique, Distinct, Reserved, StagedName;
  }

  lemma FilesStaged(before: Assets, origin: Assets, local: seq<LocalFile>, run: string, staged: seq<StagedFile>)
    requires Manifest(staged, local, run, before) && Named(staged, origin) && Identified(staged)
    requires PublicNames(local)
    ensures forall e :: e in Files(staged) ==>
              && e.id in AssetNames(origin) && AssetNames(origin)[e.id] == StagedName(run, e.name)
              && !Reserved(e.name) && e.id !in before
  {
    hide Reserved, StagedName, Manifest, Named, Files;
    forall e | e in Files(staged)
      ensures e.id in AssetNames(origin) && AssetNames(origin)[e.id] == StagedName(run, e.name)
      ensures !Reserved(e.name) && e.id !in before
    {
      FileFacts(before, origin, local, run, staged, e);
    }
  }

  lemma OriginalsKept(entries: seq<Entry>, before: Assets, origin: Assets)
    requires Lists(entries, before) && AsTheyWere(before, origin) && Unreserved(before)
    ensures forall o :: o in Originals(entries) ==>
              o.id in before && o.id in AssetNames(origin) && AssetNames(origin)[o.id] == o.name && !Reserved(o.name)
  {
    hide Reserved, Lists, AsTheyWere, Unreserved, Originals;
    forall o | o in Originals(entries)
      ensures o.id in before && o.id in AssetNames(origin) && AssetNames(origin)[o.id] == o.name && !Reserved(o.name)
    {
      OriginalFacts(entries, before, origin, o);
    }
  }

  lemma NothingElse(entries: seq<Entry>, before: Assets, origin: Assets, staged: seq<StagedFile>)
    requires Lists(entries, before) && Uploads(staged, before, origin) && Identified(staged)
    ensures forall id :: id in AssetNames(origin) ==>
              (exists o :: o in Originals(entries) && o.id == id) || (exists e :: e in Files(staged) && e.id == id)
  {
    hide Lists, Uploads, Files, Originals;
    forall id | id in AssetNames(origin)
      ensures (exists o :: o in Originals(entries) && o.id == id) || (exists e :: e in Files(staged) && e.id == id)
    {
      NameFacts(entries, before, origin, staged, id);
    }
  }

  lemma FilesDistinct(before: Assets, origin: Assets, local: seq<LocalFile>, run: string, staged: seq<StagedFile>)
    requires Manifest(staged, local, run, before) && Named(staged, origin) && Identified(staged)
    ensures Distinct(Files(staged))
  {
    hide Named, FindStaged;
    var files := Files(staged);
    forall i, j | 0 <= i < j < |files|
      ensures files[i].id != files[j].id && files[i].name != files[j].name
    {
      FilesDiffer(staged, run, origin, i, j);
    }
  }

  lemma FileFacts(before: Assets, origin: Assets, local: seq<LocalFile>, run: string, staged: seq<StagedFile>,
                  e: Staged)
    requires Manifest(staged, local, run, before) && Named(staged, origin) && Identified(staged) && e in Files(staged)
    requires PublicNames(local)
    ensures e.id in origin && origin[e.id].name == StagedName(run, e.name) && !Reserved(e.name) && e.id !in before
  {
    hide Reserved, StagedName, FindStaged;
    var i :| 0 <= i < |staged| && Files(staged)[i] == e;
    assert local[i] in local;
  }

  lemma OriginalFacts(entries: seq<Entry>, before: Assets, origin: Assets, o: Original)
    requires Lists(entries, before) && AsTheyWere(before, origin) && Unreserved(before) && o in Originals(entries)
    ensures o.id in before && o.id in origin && origin[o.id].name == o.name && !Reserved(o.name)
  {
    hide Reserved;
    var i :| 0 <= i < |entries| && Originals(entries)[i] == o;
    assert entries[i] in entries;
  }

  lemma NameFacts(entries: seq<Entry>, before: Assets, origin: Assets, staged: seq<StagedFile>, id: nat)
    requires Lists(entries, before) && Uploads(staged, before, origin) && Identified(staged) && id in origin
    ensures (exists o :: o in Originals(entries) && o.id == id) || (exists e :: e in Files(staged) && e.id == id)
  {
    if id in before {
      var e :| e in entries && e.id == id;
      var i :| 0 <= i < |entries| && entries[i] == e;
      assert Originals(entries)[i].id == id && Originals(entries)[i] in Originals(entries);
    } else {
      var i :| 0 <= i < |staged| && staged[i].id == Some(id);
      assert Files(staged)[i].id == id && Files(staged)[i] in Files(staged);
    }
  }

  /** The plan for a prepared release can be undone from anywhere, with the checksums last. */
  lemma PlanIsSafe(first: Names, originals: seq<Original>, run: string, staged: seq<StagedFile>)
    requires Identified(staged) && Prepared(first, originals, run, Files(staged))
    ensures var plan := Plan(originals, run, Order(Files(staged)));
            Undoable(first, plan) && PlanSumsLast(first, plan, staged)
  {
    var files := Files(staged);
    var plan := Plan(originals, run, Order(files));
    OrderPrepared(first, originals, run, files);
    PlanRuns(first, originals, run, Order(files), |Order(files)|);
    assert Order(files)[..|Order(files)|] == Order(files);
    assert Unique(first);
    hide Prepared, Plan, Order, DoAll, Runs, IsChecksums, Unique, ChecksumsLast;
    forall now | OnPlan(now, first, plan)
      ensures SumsLast(now, staged)
    {
      var n :| At(now, first, plan, n);
      ChecksumsLastThroughout(first, originals, run, files, n);
      SumsLastFrom(now, staged);
    }
  }

  lemma SumsLastFrom(now: Names, staged: seq<StagedFile>)
    requires Identified(staged) && ChecksumsLast(now, Files(staged))
    ensures SumsLast(now, staged)
  {
    hide IsChecksums;
    var files := Files(staged);
    if i :| 0 <= i < |staged| && IsChecksums(staged[i].name) && Shown(now, staged[i]) {
      assert files[i] in files && Public(now, files[i]);
      forall k | 0 <= k < |staged| && !IsChecksums(staged[k].name)
        ensures Shown(now, staged[k])
      {
        assert files[k] in files;
      }
    }
  }

  /** Before the swap nothing is on the plan but the state it starts from. */
  lemma NoPlanIsSafe(staged: seq<StagedFile>, origin: Assets)
    requires Unique(AssetNames(origin)) && Named(staged, origin)
    requires forall i :: 0 <= i < |staged| ==> staged[i].staged != staged[i].name
    ensures Undoable(AssetNames(origin), []) && PlanSumsLast(AssetNames(origin), [], staged)
  {
    NamedVeiled(staged, origin);
    VeiledSumsLast(staged, AssetNames(origin));
    hide AssetNames, SumsLast, Veiled, Named;
  }

  lemma ManifestMeans(staged: seq<StagedFile>, local: seq<LocalFile>, run: string, before: Assets)
    requires Manifest(staged, local, run, before)
    ensures New(staged, before) && forall i :: 0 <= i < |staged| ==> staged[i].staged != staged[i].name
    ensures |staged| == |local|
    ensures forall i :: 0 <= i < |staged| ==> staged[i].name == local[i].name && staged[i].content == local[i].content
  {
    forall i | 0 <= i < |staged|
      ensures staged[i].staged != staged[i].name
    {
      StagedIsLonger(run, staged[i].name);
    }
  }

  lemma PreparedManifest(local: seq<LocalFile>, run: string, before: Assets)
    ensures Manifest(Prepare(local, run), local, run, before)
    ensures forall i :: 0 <= i < |Prepare(local, run)| ==> Prepare(local, run)[i].id.None?
  {
  }

  function Leftovers(entries: seq<Entry>): (left: seq<Entry>)
    ensures left == [] <==> forall e :: e in entries ==> !Reserved(e.asset.name)
  {
    if entries == [] then []
    else (if Reserved(entries[0].asset.name) then [entries[0]] else []) + Leftovers(entries[1..])
  }

  lemma NoLeftovers(entries: seq<Entry>, before: Assets)
    requires Lists(entries, before)
    ensures Leftovers(entries) == [] <==> Unreserved(before)
  {
    hide Reserved;
    if Leftovers(entries) == [] {
      forall id | id in before
        ensures !Reserved(before[id].name)
      {
        var e :| e in entries && e.id == id;
      }
    }
  }
}
