/** `publish`: stage, swap by renames, verify, and put everything back when any of it fails. */
module Publish {
  import opened Wrappers
  import opened Renames
  import opened Remote
  import opened Staging

  datatype Status = Running | Published | Restored | Unrestored | Refused

  class Publisher {
    const remote: Remote
    /** The manifest can always be written. */
    const recording: bool
    var status: Status
    var staged: seq<StagedFile>
    var renames: seq<Rename>
    var final: seq<Entry>
    /** The latest release as it was read at the start, when it could be. */
    var known: Option<nat>

    constructor (remote: Remote, recording: bool)
      ensures this.remote == remote && this.recording == recording && status == Running && staged == [] && renames == []
    {
      this.remote, this.recording := remote, recording;
      status, staged, renames, final, known := Running, [], [], [], None;
    }

    /** Nothing outside this program goes wrong. */
    predicate Smooth() {
      recording && remote.willing && remote.exact && remote.intact
    }

    /** Writing the manifest file may fail. */
    method Save() returns (ok: bool)
      ensures recording ==> ok
    {
      var written: bool := *;
      return written || recording;
    }

    /** One upload, found in the release when its reply is lost. */
    method StageOne(local: seq<LocalFile>, k: nat, ghost run: string, ghost before: Assets) returns (ok: bool)
      requires remote.Valid() && k < |local|
      requires Manifest(staged, local, run, before) && Unreserved(before)
      requires AsTheyWere(before, remote.assets) && Uploads(staged, before, remote.assets)
      requires Smooth() ==> Correct(staged, remote.assets) && Through(staged, local, k)
      modifies this`staged, remote`assets
      ensures remote.Valid()
      ensures Manifest(staged, local, run, before) && AsTheyWere(before, remote.assets)
      ensures Named(staged, remote.assets) && (ok ==> Uploads(staged, before, remote.assets))
      ensures Smooth() ==> ok && Correct(staged, remote.assets) && Through(staged, local, k + 1)
      ensures ok ==> Complete(staged, remote.assets, local[k].name)
    {
      hide Manifest, Uploads, Named, AsTheyWere, Unreserved, Created, Correct, Through, Matches;
      var file := local[k];
      ghost var was, entries := remote.assets, staged;
      var i := FindStaged(staged, file.name);
      EntryOf(staged, local, run, before, file);
      if Smooth() {
        UploadOrThere(entries, local, run, before, was, k, i);
      }
      var reply := remote.Upload(staged[i].staged, file.content);
      UploadKeeps(before, was, remote.assets, staged[i].staged);
      NamedStays(staged, before, was, remote.assets, staged[i].staged);
      if reply.None? {
        var current := remote.List();
        if current.None? {
          return false;
        }
        reply := FindNamed(current.value, staged[i].staged);
        Listed(current.value, remote.assets, staged[i].staged, reply);
      }
      if reply.None? {
        return false;
      }
      var asset := reply.value;
      StagedIsNew(before, remote.assets, run, file.name, asset.id);
      EntryIdentified(staged, local, run, before, was, remote.assets, file.name, i, asset.id);
      if Smooth() {
        CorrectNext(entries, local, run, before, was, remote.assets, k, i, asset.id);
      }
      staged := staged[i := staged[i].(id := Some(asset.id))];
      var saved := Save();
      UploadsNamed(staged, before, remote.assets);
      IsComplete(i, file.name, asset);
      return saved && asset.asset.uploaded;
    }

    /** The upload for this file is known, there, and marked as uploaded. */
    ghost predicate Complete(staged: seq<StagedFile>, assets: Assets, name: string) {
      exists i :: 0 <= i < |staged| && staged[i].name == name && staged[i].id.Some?
                  && staged[i].id.value in assets && assets[staged[i].id.value].uploaded
    }

    lemma IsComplete(i: nat, name: string, asset: Entry)
      requires i < |staged| && staged[i].name == name && staged[i].id == Some(asset.id)
      requires asset.id in remote.assets && asset.asset == remote.assets[asset.id]
      ensures asset.asset.uploaded ==> Complete(staged, remote.assets, name)
    {
    }

    /** The second half of `stage`: every upload is there, complete, and is the prepared file. */
    method Check() returns (ok: bool)
      ensures ok ==> Identified(staged) && forall i :: 0 <= i < |staged| ==> Checked(staged[i], remote.assets)
      ensures Smooth() && Named(staged, remote.assets) && Correct(staged, remote.assets) ==>
                (ok <==> Identified(staged))
    {
      NamedMeans(staged, remote.assets);
      hide Matches, Named, Correct, Checked;
      var current := remote.List();
      if current.None? {
        return false;
      }
      for i := 0 to |staged|
        invariant forall j :: 0 <= j < i ==> staged[j].id.Some? && Checked(staged[j], remote.assets)
      {
        ok := CheckOne(staged[i], current.value);
        if !ok {
          return;
        }
      }
      return true;
    }

    method CheckOne(file: StagedFile, current: seq<Entry>) returns (ok: bool)
      requires Lists(current, remote.assets)
      ensures ok ==> file.id.Some? && Checked(file, remote.assets)
      ensures Smooth() && Matches(file, remote.assets) && remote.assets[file.id.value].name == file.staged ==> ok
    {
      if file.id.None? {
        return false;
      }
      var found := FindId(current, file.id.value);
      if found.None? {
        return false;
      }
      var asset := found.value.asset;
      if asset.name != file.staged || !asset.uploaded || |asset.content| != |file.content| {
        return false;
      }
      var digest := Some(asset.content);
      if !asset.reported {
        digest := remote.Download(file.id.value);
      }
      return digest == Some(file.content);
    }

    /** When nothing else goes wrong, staging fails exactly for two files of the same name. */
    method Stage(local: seq<LocalFile>, ghost run: string, ghost before: Assets) returns (ok: bool)
      requires remote.Valid() && remote.assets == before && Unreserved(before)
      requires Manifest(staged, local, run, before)
      requires forall i :: 0 <= i < |staged| ==> staged[i].id.None?
      modifies this`staged, remote`assets
      ensures remote.Valid()
      ensures Manifest(staged, local, run, before) && AsTheyWere(before, remote.assets) && Named(staged, remote.assets)
      ensures ok ==> Uploads(staged, before, remote.assets) && Identified(staged)
      ensures ok ==> forall i :: 0 <= i < |staged| ==> Checked(staged[i], remote.assets)
      ensures Smooth() ==> (ok <==> DistinctNames(local))
    {
      NothingUploaded(staged, before);
      hide Manifest, Uploads, Named, AsTheyWere, Unreserved, Matches, Checked, Correct, Identified,
           DistinctNames, Smooth;
      for k := 0 to |local|
        invariant remote.Valid()
        invariant Manifest(staged, local, run, before) && AsTheyWere(before, remote.assets)
        invariant Named(staged, remote.assets) && Uploads(staged, before, remote.assets)
        invariant Smooth() ==> Correct(staged, remote.assets) && Through(staged, local, k)
      {
        ok := StageOne(local, k, run, before);
        if !ok {
          return;
        }
      }
      ok := Check();
      if Smooth() {
        AllThrough(staged, local, run, before, remote.assets);
      }
    }

    /** A rename that succeeds is logged; one that throws is not. */
    method Step(r: Rename) returns (ok: bool)
      requires remote.Valid()
      modifies this`renames, remote`assets, remote`history
      ensures remote.Valid()
      ensures ok ==> renames == old(renames) + [r]
      ensures renames == old(renames) || renames == old(renames) + [r]
      ensures Relabeled(old(remote.assets), remote.assets, remote.intact)
      ensures renames != old(renames) ==> AssetNames(remote.assets) == Do(old(AssetNames(remote.assets)), r)
      ensures AssetNames(remote.assets) in {old(AssetNames(remote.assets)), Do(old(AssetNames(remote.assets)), r)}
      ensures remote.exact && renames == old(renames) ==> AssetNames(remote.assets) == old(AssetNames(remote.assets))
      ensures Smooth() && Accepts(old(AssetNames(remote.assets)), r) ==> ok
      ensures remote.history == old(remote.history) + [AssetNames(remote.assets)]
    {
      AcceptsIsFree(remote.assets, r);
      ok := remote.Rename(r.id, r.target);
      RenameOutcome(old(remote.assets), remote.assets, r, remote.intact);
      hide Patched, AssetNames, Relabeled, Free;
      if ok {
        renames := renames + [r];
        ok := Save();
      }
    }

    /** One rename of the plan. */
    method PlanStep(r: Rename, ghost plan: seq<Rename>, ghost start: nat, ghost origin: Assets) returns (ok: bool)
      requires Swapping(plan, start, origin) && |renames| < |plan| && plan[|renames|] == r
      requires At(AssetNames(remote.assets), AssetNames(origin), plan, |renames|)
      modifies this`renames, remote`assets, remote`history
      ensures Swapping(plan, start, origin)
      ensures ok ==> |renames| == |old(renames)| + 1
      ensures ok || remote.exact ==> At(AssetNames(remote.assets), AssetNames(origin), plan, |renames|)
      ensures Smooth() && Undoable(AssetNames(origin), plan) ==> ok
      ensures old(remote.history) <= remote.history
    {
      ghost var n, first, was, history := |renames|, AssetNames(origin), remote.assets, remote.history;
      AtNext(AssetNames(was), first, plan, n);
      AcceptedAt(AssetNames(was), first, plan, n);
      assert plan[..n + 1] == plan[..n] + [r];
      hide At, Relabeled, AssetNames, Do, Traced, Accepts, Undoable, Smooth;
      ok := Step(r);
      RelabeledTwice(origin, was, remote.assets, remote.intact);
      TracedSnoc(history, start, AssetNames(remote.assets), first, plan, n);
    }

    /** What holds throughout a swap that began at `origin`, with `start` states behind it. */
    ghost predicate Swapping(plan: seq<Rename>, start: nat, origin: Assets)
      reads this`renames, remote`assets, remote`history
    {
      && remote.Valid() && Relabeled(origin, remote.assets, remote.intact)
      && renames <= plan
      && start <= |remote.history| && Traced(remote.history[start..], AssetNames(origin), plan)
    }

    method Swap(before: seq<Original>, run: string) returns (ok: bool)
      requires remote.Valid() && Identified(staged) && renames == []
      modifies this`renames, remote`assets, remote`history
      ensures var plan := Plan(before, run, old(Order(Files(staged))));
              && Swapping(plan, |old(remote.history)|, old(remote.assets))
              && (ok ==> renames == plan)
              && (ok || remote.exact ==> At(AssetNames(remote.assets), old(AssetNames(remote.assets)), plan, |renames|))
      ensures Smooth() && Undoable(old(AssetNames(remote.assets)), Plan(before, run, old(Order(Files(staged))))) ==> ok
      ensures old(remote.history) <= remote.history
    {
      var order := Order(Files(staged));
      ghost var plan, origin, start := Plan(before, run, order), remote.assets, |remote.history|;
      StartSwapping(plan);
      PlanEnds(before, run, order);
      hide *;
      for k := 0 to |order|
        invariant Swapping(plan, start, origin)
        invariant |renames| == |Plan(before, run, order[..k])|
        invariant At(AssetNames(remote.assets), AssetNames(origin), plan, |renames|)
        invariant old(remote.history) <= remote.history
      {
        ok := SwapNext(order, k, before, run, start, origin);
        if !ok {
          return;
        }
      }
      SwappedAll(plan, start, origin);
      return true;
    }

    /** File `k` of the swap. */
    method SwapNext(order: seq<Staged>, k: nat, before: seq<Original>, run: string, ghost start: nat,
                    ghost origin: Assets)
      returns (ok: bool)
      requires k < |order| && Swapping(Plan(before, run, order), start, origin)
      requires |renames| == |Plan(before, run, order[..k])|
      requires At(AssetNames(remote.assets), AssetNames(origin), Plan(before, run, order), |renames|)
      modifies this`renames, remote`assets, remote`history
      ensures Swapping(Plan(before, run, order), start, origin)
      ensures ok ==> |renames| == |Plan(before, run, order[..k + 1])|
      ensures ok || remote.exact ==>
                At(AssetNames(remote.assets), AssetNames(origin), Plan(before, run, order), |renames|)
      ensures Smooth() && Undoable(AssetNames(origin), Plan(before, run, order)) ==> ok
      ensures old(remote.history) <= remote.history
    {
      PlanHas(before, run, order, k);
      hide *;
      ok := SwapOne(order[k], before, run, Plan(before, run, order), start, origin);
    }

    lemma StartSwapping(plan: seq<Rename>)
      requires remote.Valid() && renames == []
      ensures Swapping(plan, |remote.history|, remote.assets)
      ensures At(AssetNames(remote.assets), AssetNames(remote.assets), plan, 0)
    {
      AtStart(AssetNames(remote.assets), plan);
      RelabeledSame(remote.assets, remote.intact);
    }

    lemma SwappedAll(plan: seq<Rename>, start: nat, origin: Assets)
      requires Swapping(plan, start, origin) && |renames| == |plan|
      ensures renames == plan
    {
    }

    /** The one or two renames for one file. */
    method SwapOne(e: Staged, before: seq<Original>, run: string, ghost plan: seq<Rename>, ghost start: nat,
                   ghost origin: Assets)
      returns (ok: bool)
      requires Swapping(plan, start, origin)
      requires At(AssetNames(remote.assets), AssetNames(origin), plan, |renames|)
      requires Stands(Steps(before, run, e), plan, |renames|)
      modifies this`renames, remote`assets, remote`history
      ensures Swapping(plan, start, origin)
      ensures ok ==> |renames| == |old(renames)| + |Steps(before, run, e)|
      ensures ok || remote.exact ==> At(AssetNames(remote.assets), AssetNames(origin), plan, |renames|)
      ensures Smooth() && Undoable(AssetNames(origin), plan) ==> ok
      ensures old(remote.history) <= remote.history
    {
      ghost var steps := Steps(before, run, e);
      hide At, Relabeled, AssetNames, Swapping, Undoable, Smooth;
      assert plan[|renames|] == plan[|renames|..|renames| + |steps|][0] == steps[0];
      assert |steps| == 2 ==> plan[|renames| + 1] == plan[|renames|..|renames| + |steps|][1] == steps[1];
      var prior := Find(before, e.name);
      hide Steps;
      if prior.Some? {
        ok := PlanStep(Rename(prior.value.id, e.name, PriorName(run, e.name)), plan, start, origin);
        if !ok {
          return;
        }
      }
      ok := PlanStep(Rename(e.id, StagedName(run, e.name), e.name), plan, start, origin);
    }

    /** An edit whose reply is lost counts when the release reads as wanted. */
    method Announce(wanted: Meta) returns (ok: bool)
      modifies remote`meta, remote`latest
      ensures ok ==> remote.meta == wanted
      ensures remote.legible && !ok ==> remote.meta != wanted
      ensures remote.willing ==> ok && remote.latest == Some(remote.releaseID)
    {
      ok := remote.Edit(wanted, true);
      if !ok {
        var current := remote.Release();
        ok := current == Some(wanted);
      }
    }

    method Verify(wanted: Meta) returns (ok: bool)
      requires remote.Valid()
      ensures remote.willing && remote.meta == wanted && remote.latest == Some(remote.releaseID)
              && AllDelivered(staged, remote.assets, true)
              ==> ok
      ensures ok ==> remote.meta == wanted && remote.latest == Some(remote.releaseID)
      ensures ok ==> forall i :: 0 <= i < |staged| ==> InPlace(staged[i], remote.assets)
    {
      hide InPlace, Delivered, Free;
      var release := remote.Release();
      if release != Some(wanted) {
        return false;
      }
      var current := remote.List();
      if current.None? {
        return false;
      }
      for i := 0 to |staged|
        invariant forall j :: 0 <= j < i ==> InPlace(staged[j], remote.assets)
      {
        var found := FindNamed(current.value, staged[i].name);
        DeliveredIsFound(staged[i], current.value, remote.assets, found);
        if found.None? || Some(found.value.id) != staged[i].id {
          return false;
        }
        if found.value.asset.reported && found.value.asset.content != staged[i].content {
          return false;
        }
        PlaceSeen(staged[i], current.value, remote.assets, found.value);
      }
      var latest := remote.LatestID();
      return latest == Some(remote.releaseID);
    }

    // ---- putting everything back -----------------------------------------------------

    /** What holds while renames are undone; `clean` when a rename that throws did not happen
        and no local name is one this program gives out itself. */
    ghost predicate Undoing(plan: seq<Rename>, start: nat, origin: Assets, clean: bool)
      reads remote`assets, remote`history
    {
      && remote.Valid() && Relabeled(origin, remote.assets, remote.intact)
      && start <= |remote.history|
      && (clean ==> Traced(remote.history[start..], AssetNames(origin), plan))
    }

    method UndoOne(i: nat, ghost plan: seq<Rename>, ghost start: nat, ghost origin: Assets, ghost clean: bool)
      returns (ok: bool)
      requires Undoing(plan, start, origin, clean)
      requires i < |renames| && renames <= plan && (clean ==> remote.exact && Undoable(AssetNames(origin), plan))
      requires clean ==> At(AssetNames(remote.assets), AssetNames(origin), plan, i + 1)
      modifies remote`assets, remote`history
      ensures Undoing(plan, start, origin, clean)
      ensures ok && clean ==> At(AssetNames(remote.assets), AssetNames(origin), plan, i)
      ensures remote.willing && clean ==> ok
      ensures old(remote.history) <= remote.history
    {
      ghost var first, was, history := AssetNames(origin), remote.assets, remote.history;
      var back := Inverse(renames[i]);
      if clean {
        AtPrevious(AssetNames(was), first, plan, i);
        AcceptsIsFree(was, back);
      }
      hide At, Relabeled, AssetNames, Do, Traced, Undoable, Patched, Free, Accepts;
      ok := remote.Rename(back.id, back.target);
      RenameOutcome(was, remote.assets, back, remote.intact);
      RelabeledTwice(origin, was, remote.assets, remote.intact);
      if clean {
        TracedSnoc(history, start, AssetNames(remote.assets), first, plan, i);
      }
    }

    /** The log, backwards, as far as it goes. */
    method UndoRenames(ghost plan: seq<Rename>, ghost start: nat, ghost origin: Assets, ghost clean: bool)
      returns (ok: bool)
      requires Undoing(plan, start, origin, clean)
      requires renames <= plan && (clean ==> remote.exact && Undoable(AssetNames(origin), plan))
      requires clean ==> At(AssetNames(remote.assets), AssetNames(origin), plan, |renames|)
      modifies remote`assets, remote`history
      ensures Undoing(plan, start, origin, clean)
      ensures ok && clean ==> AssetNames(remote.assets) == AssetNames(origin)
      ensures remote.willing && clean ==> ok
      ensures old(remote.history) <= remote.history
    {
      AtFirst(AssetNames(origin), plan);
      hide Undoing, At, AssetNames, Undoable;
      for i := |renames| downto 0
        invariant Undoing(plan, start, origin, clean)
        invariant clean ==> At(AssetNames(remote.assets), AssetNames(origin), plan, i)
        invariant old(remote.history) <= remote.history
      {
        ok := UndoOne(i, plan, start, origin, clean);
        if !ok {
          return;
        }
      }
      return true;
    }

    /** Title, notes and marks, where they differ. */
    method RestoreMeta(original: Meta) returns (ok: bool)
      modifies remote`meta, remote`latest
      ensures ok ==> remote.meta == original || remote.meta == Filled(original)
      ensures remote.willing ==>
                && ok && remote.meta == (if old(remote.meta) == original then original else Filled(original))
                && (old(remote.meta) == original ==> remote.latest == old(remote.latest))
    {
      var current := remote.Release();
      if current.None? {
        return false;
      }
      ok := true;
      if current.value != original {
        ok := remote.Edit(Filled(original), false);
      }
    }

    method RestoreLatest(latest: Option<nat>) returns (ok: bool)
      modifies remote`latest
      ensures ok && latest.Some? ==> remote.latest == latest
      ensures remote.willing ==> ok
    {
      ok := true;
      if latest.Some? {
        var current := remote.LatestID();
        if current != latest {
          ok := remote.MakeLatest(latest.value);
        }
      }
    }

    /** What holds while uploads are removed. */
    ghost predicate Clearing(before: Assets, start: nat, clean: bool)
      reads this`staged, remote`assets, remote`history
    {
      && remote.Valid() && Kept(before, remote.assets, remote.intact)
      && start <= |remote.history|
      && (clean ==> AllSumsLast(remote.history[start..], staged) && Veiled(staged, AssetNames(remote.assets)))
      && (clean ==> Back(before, remote.assets))
    }

    method Clear(ghost before: Assets, ghost start: nat, ghost clean: bool) returns (ok: bool)
      requires Clearing(before, start, clean)
      requires forall i :: 0 <= i < |staged| && staged[i].id.Some? ==> staged[i].id.value !in before
      modifies remote`assets, remote`history
      ensures Clearing(before, start, clean)
      ensures ok ==> Gone(staged, remote.assets)
      ensures remote.willing ==> ok
      ensures old(remote.history) <= remote.history
    {
      hide Clearing;
      for i := 0 to |staged|
        invariant Clearing(before, start, clean)
        invariant Gone(staged[..i], remote.assets)
        invariant old(remote.history) <= remote.history
      {
        if staged[i].id.Some? {
          ok := ClearOne(staged[i].id.value, before, start, clean);
          if !ok {
            return;
          }
        }
        assert staged[..i + 1] == staged[..i] + [staged[i]];
      }
      assert staged[..|staged|] == staged;
      return true;
    }

    method ClearOne(id: nat, ghost before: Assets, ghost start: nat, ghost clean: bool) returns (ok: bool)
      requires Clearing(before, start, clean) && id !in before
      modifies remote`assets, remote`history
      ensures Clearing(before, start, clean)
      ensures remote.assets.Keys <= old(remote.assets).Keys
      ensures ok ==> id !in remote.assets
      ensures remote.willing ==> ok
      ensures old(remote.history) <= remote.history
    {
      ghost var was, history := remote.assets, remote.history;
      hide Kept, AllSumsLast, Veiled, AssetNames;
      ok := remote.Remove(id);
      RemovalKeeps(before, was, remote.assets, id, remote.intact);
      if clean {
        VeiledStays(staged, was, remote.assets, id);
        AllSumsLastSnoc(history, start, AssetNames(remote.assets), staged);
      }
    }

    /** The look at the release that ends a restoration. */
    method Inspect(before: seq<Entry>, original: Meta) returns (ok: bool)
      requires remote.Valid()
      ensures remote.willing && remote.meta == original && StillNamed(before, remote.assets) ==> ok
      ensures ok ==> StillNamed(before, remote.assets)
      ensures ok ==> remote.meta.name == original.name && remote.meta.body == original.body
    {
      var current := remote.List();
      if current.None? {
        return false;
      }
      for i := 0 to |before|
        invariant forall j :: 0 <= j < i ==>
                    before[j].id in remote.assets && remote.assets[before[j].id].name == before[j].asset.name
      {
        var found := FindNamed(current.value, before[i].asset.name);
        NameIsFound(before[i], current.value, remote.assets, found);
        if found.None? || found.value.id != before[i].id {
          return false;
        }
      }
      var after := remote.Release();
      return after.Some? && after.value.name == original.name && after.value.body == original.body;
    }

    /** What the release went through and what is left of it, whatever became of the publication. */
    ghost predicate Traces(before: Assets, start: nat, clean: bool)
      reads this`staged, remote`assets, remote`history
    {
      && remote.Valid() && Kept(before, remote.assets, remote.intact)
      && start <= |remote.history|
      && (clean ==> AllSumsLast(remote.history[start..], staged))
    }

    /** With a willing server the release is put back exactly when its metadata was not touched,
        or had a title and notes to put back. */
    method Restore(before: seq<Entry>, original: Meta, latest: Option<nat>, ghost run: Attempt) returns (ok: bool)
      requires Lists(before, run.before) && Undoing(run.plan, run.start, run.origin, run.clean)
      requires Fallible(run, staged, renames) && (run.clean ==> remote.exact)
      requires run.clean ==> At(AssetNames(remote.assets), AssetNames(run.origin), run.plan, |renames|)
      modifies remote`assets, remote`history, remote`meta, remote`latest
      ensures Traces(run.before, run.start, run.clean)
      ensures ok ==> Back(run.before, remote.assets) && Gone(staged, remote.assets)
      ensures ok ==> remote.meta == original && (latest.Some? ==> remote.latest == latest)
      ensures remote.willing && run.clean ==> (ok <==> old(remote.meta) == original || Restorable(original))
      ensures old(remote.history) <= remote.history
    {
      FallibleMeans(run, staged, renames);
      hide Undoing, At, AssetNames, Undoable, Lists, Back, Gone, Clearing, Traces, Fallible;
      ok := UndoRenames(run.plan, run.start, run.origin, run.clean);
      UndoneTraces(run);
      if !ok {
        return;
      }
      UndoneClears(run);
      ok := RestoreMeta(original);
      ClearingTraces(run);
      if !ok {
        return;
      }
      ok := RestoreLatest(latest);
      if !ok {
        return;
      }
      ok := Clear(run.before, run.start, run.clean);
      ClearingTraces(run);
      ClearingBack(run, before);
      if !ok {
        return;
      }
      ok := Inspect(before, original);
      if ok {
        BackFrom(before, run.before, remote.assets);
      }
    }

    lemma UndoneTraces(run: Attempt)
      requires Undoing(run.plan, run.start, run.origin, run.clean) && Fallible(run, staged, renames)
      ensures Traces(run.before, run.start, run.clean)
    {
      hide AssetNames, Traced, Relabeled, Kept, AllSumsLast;
      OriginKept(run.before, run.origin, remote.assets, remote.intact);
      if run.clean {
        TracedSumsLast(remote.history[run.start..], AssetNames(run.origin), run.plan, staged);
      }
    }

    lemma UndoneClears(run: Attempt)
      requires Undoing(run.plan, run.start, run.origin, run.clean) && Fallible(run, staged, renames)
      requires run.clean ==> AssetNames(remote.assets) == AssetNames(run.origin)
      ensures Clearing(run.before, run.start, run.clean)
    {
      UndoneTraces(run);
      if run.clean {
        NamedVeiled(staged, run.origin);
        BackByNames(run.before, run.origin, remote.assets);
      }
    }

    lemma ClearingBack(run: Attempt, entries: seq<Entry>)
      requires Clearing(run.before, run.start, run.clean) && Lists(entries, run.before)
      ensures remote.Valid() && (run.clean ==> StillNamed(entries, remote.assets))
    {
    }

    lemma ClearingTraces(run: Attempt)
      requires Clearing(run.before, run.start, run.clean)
      ensures Traces(run.before, run.start, run.clean)
    {
    }

    // ---- the publication ---------------------------------------------------------------

    /** What an attempt leaves: a state it can be taken back from. */
    ghost predicate Attempted(run: Attempt)
      reads this`staged, this`renames, remote`assets, remote`history
    {
      && Undoing(run.plan, run.start, run.origin, run.clean) && Fallible(run, staged, renames)
      && (run.clean ==> At(AssetNames(remote.assets), AssetNames(run.origin), run.plan, |renames|))
    }

    /** Stage, swap, announce, verify, each only after the one before it.  When nothing else goes
        wrong, that fails exactly for two files of the same name, and then in staging. */
    method Try(local: seq<LocalFile>, entries: seq<Entry>, run: string, wanted: Meta, ghost clean: bool)
      returns (ok: bool, ghost attempt: Attempt)
      requires remote.Valid() && Lists(entries, remote.assets) && Unreserved(remote.assets)
      requires Manifest(staged, local, run, remote.assets) && renames == []
      requires forall i :: 0 <= i < |staged| ==> staged[i].id.None?
      requires clean ==> remote.exact && PublicNames(local)
      modifies this`staged, this`renames, remote`assets, remote`history, remote`meta, remote`latest
      ensures attempt.before == old(remote.assets) && attempt.clean == clean && attempt.start == |old(remote.history)|
      ensures remote.Valid() && Attempted(attempt) && Manifest(staged, local, run, old(remote.assets))
      ensures old(remote.history) <= remote.history
      ensures ok ==> remote.meta == wanted && remote.latest == Some(remote.releaseID)
      ensures ok ==> AllDelivered(staged, remote.assets, remote.intact)
      ensures Smooth() && clean ==> (ok <==> DistinctNames(local))
      ensures Smooth() && clean && !ok ==> remote.meta == old(remote.meta) && remote.latest == old(remote.latest)
    {
      ghost var before, start := remote.assets, |remote.history|;
      hide *;
      ok := Stage(local, run, before);
      if !ok {
        attempt := Attempt(before, remote.assets, [], start, clean);
        StagedAttempt(attempt, local, run);
        return;
      }
      ghost var origin, plan := remote.assets, Plan(Originals(entries), run, Order(Files(staged)));
      attempt := Attempt(before, origin, plan, start, clean);
      AllChecked(staged, origin);
      ok := Swap(Originals(entries), run);
      SwappedAttempt(attempt, entries, local, run);
      AttemptUndoable(attempt);
      if ok {
        if clean {
          SwapDelivers(attempt, entries, local, run);
        }
        ok := Finish(wanted, attempt);
      }
    }

    method Finish(wanted: Meta, ghost attempt: Attempt) returns (ok: bool)
      requires remote.Valid() && Attempted(attempt)
      requires forall i :: 0 <= i < |staged| ==> Matches(staged[i], attempt.origin)
      modifies remote`meta, remote`latest
      ensures ok ==> remote.meta == wanted && remote.latest == Some(remote.releaseID)
      ensures ok ==> AllDelivered(staged, remote.assets, remote.intact)
      ensures remote.willing && AllDelivered(staged, remote.assets, true) ==> ok
    {
      hide *;
      ok := Announce(wanted);
      if ok {
        ok := Verify(wanted);
      }
      if ok {
        Deliver(attempt);
      }
    }

    /** A swap that went through put every upload under its public name. */
    lemma {:induction false} SwapDelivers(attempt: Attempt, entries: seq<Entry>, local: seq<LocalFile>, run: string)
      requires Identified(staged) && attempt.plan == Plan(Originals(entries), run, Order(Files(staged)))
      requires Swapping(attempt.plan, attempt.start, attempt.origin) && renames == attempt.plan
      requires At(AssetNames(remote.assets), AssetNames(attempt.origin), attempt.plan, |renames|)
      requires Lists(entries, attempt.before) && AsTheyWere(attempt.before, attempt.origin)
      requires Unreserved(attempt.before) && Unique(AssetNames(attempt.origin))
      requires Manifest(staged, local, run, attempt.before) && Uploads(staged, attempt.before, attempt.origin)
      requires PublicNames(local)
      requires forall i :: 0 <= i < |staged| ==> Matches(staged[i], attempt.origin)
      ensures remote.intact ==> AllDelivered(staged, remote.assets, true)
    {
      SwappedMeans(attempt.plan, attempt.start, attempt.origin);
      AtEnd(AssetNames(remote.assets), AssetNames(attempt.origin), attempt.plan);
      hide *;
      StagedIsPrepared(entries, attempt.before, attempt.origin, local, run, staged);
      PublishedByPlan(AssetNames(attempt.origin), Originals(entries), run, staged);
      AllShownDelivered(staged, attempt.origin, remote.assets, remote.intact);
    }

    lemma SwappedMeans(plan: seq<Rename>, start: nat, origin: Assets)
      requires Swapping(plan, start, origin)
      ensures Relabeled(origin, remote.assets, remote.intact)
    {
    }

    lemma AttemptUndoable(run: Attempt)
      requires Attempted(run)
      ensures run.clean ==> Undoable(AssetNames(run.origin), run.plan)
    {
      hide Undoing, At, Undoable, PlanSumsLast, AssetNames;
    }

    lemma StagedAttempt(attempt: Attempt, local: seq<LocalFile>, run: string)
      requires remote.Valid() && renames == [] && attempt.plan == [] && attempt.origin == remote.assets
      requires Manifest(staged, local, run, attempt.before) && AsTheyWere(attempt.before, attempt.origin)
      requires Named(staged, attempt.origin) && attempt.start == |remote.history|
      ensures remote.Valid() && Attempted(attempt)
    {
      ManifestMeans(staged, local, run, attempt.before);
      NoPlanIsSafe(staged, attempt.origin);
      AtStart(AssetNames(attempt.origin), []);
      RelabeledSame(attempt.origin, remote.intact);
      hide Manifest, AsTheyWere, Named, At, AssetNames, Traced, Undoable, PlanSumsLast, New, Relabeled;
    }

    lemma SwappedAttempt(attempt: Attempt, entries: seq<Entry>, local: seq<LocalFile>, run: string)
      requires Identified(staged) && attempt.plan == Plan(Originals(entries), run, Order(Files(staged)))
      requires Swapping(attempt.plan, attempt.start, attempt.origin)
      requires attempt.clean ==> At(AssetNames(remote.assets), AssetNames(attempt.origin), attempt.plan, |renames|)
      requires Lists(entries, attempt.before) && AsTheyWere(attempt.before, attempt.origin)
      requires Unreserved(attempt.before) && Unique(AssetNames(attempt.origin))
      requires Manifest(staged, local, run, attempt.before) && Uploads(staged, attempt.before, attempt.origin)
      requires attempt.clean ==> PublicNames(local)
      ensures remote.Valid() && Attempted(attempt)
    {
      ManifestMeans(staged, local, run, attempt.before);
      UploadsNamed(staged, attempt.before, attempt.origin);
      if attempt.clean {
        StagedIsPrepared(entries, attempt.before, attempt.origin, local, run, staged);
        PlanIsSafe(AssetNames(attempt.origin), Originals(entries), run, staged);
      }
      hide Manifest, AsTheyWere, Named, At, AssetNames, Traced, Undoable, PlanSumsLast, New, Relabeled, Uploads, Plan,
           Order;
    }

    lemma {:induction false} Deliver(attempt: Attempt)
      requires Attempted(attempt)
      requires forall i :: 0 <= i < |staged| ==> Matches(staged[i], attempt.origin)
      requires forall i :: 0 <= i < |staged| ==> InPlace(staged[i], remote.assets)
      ensures AllDelivered(staged, remote.assets, remote.intact)
    {
      hide Fallible, At, Relabeled, Matches, InPlace, Delivered, Traced, AssetNames;
      forall i | 0 <= i < |staged|
        ensures Delivered(staged[i], remote.assets, remote.intact)
      {
        DeliveredFrom(staged[i], attempt.origin, remote.assets, remote.intact);
      }
    }

    /** `publish`: what each outcome promises, whichever replies were lost on the way.  When
        nothing goes wrong outside, the outcome is decided by the names alone. */
    method Publish(local: seq<LocalFile>, run: string, title: string, notes: string) returns (threw: bool)
      requires remote.Valid() && status == Running && staged == [] && renames == []
      modifies this, remote`assets, remote`history, remote`meta, remote`latest
      ensures Kept(old(remote.assets), remote.assets, remote.intact)
      ensures old(remote.history) <= remote.history
      ensures remote.exact && PublicNames(local) ==>
                AllChecksumsBehind(remote.history[|old(remote.history)|..], staged)
      ensures status == Published ==>
                && remote.meta == Meta(Some(title), Some(notes), false, false)
                && remote.latest == Some(remote.releaseID)
                && AllPublic(local, staged, remote.assets, remote.intact)
                && (!threw ==> Lists(final, remote.assets))
      ensures status == Restored ==>
                && Back(old(remote.assets), remote.assets) && Gone(staged, remote.assets)
                && remote.meta == old(remote.meta)
                && (known.Some? ==> known == old(remote.latest) && remote.latest == known)
      ensures status in {Restored, Unrestored} ==>
                (final == [] || Lists(final, remote.assets)) && (remote.willing ==> Lists(final, remote.assets))
      ensures !Unreserved(old(remote.assets)) ==>
                && status in {Running, Refused}
                && remote.assets == old(remote.assets) && remote.meta == old(remote.meta)
                && remote.latest == old(remote.latest) && remote.history == old(remote.history)
      ensures status == Refused ==> !Unreserved(old(remote.assets)) && Lists(final, remote.assets)
      ensures !threw ==> status != Running
      ensures recording && status == Running ==>
                threw && Untouched(old(remote.assets), old(remote.meta), old(remote.latest), old(remote.history))
      ensures Smooth() && !Unreserved(old(remote.assets)) ==> !threw && status == Refused
      ensures Smooth() && Unreserved(old(remote.assets)) && PublicNames(local) ==>
                !threw && status == if DistinctNames(local) then Published else Restored
      ensures recording && remote.willing && remote.exact && Unreserved(old(remote.assets)) && PublicNames(local) ==>
                && !threw && status in {Published, Restored, Unrestored}
                && (status == Unrestored ==> !Restorable(old(remote.meta)))
    {
      SmoothMeans();
      NothingTraced(|remote.history|, remote.assets);
      StillUntouched();
      hide *;
      var original := remote.Release();
      if original.None? {
        return true;
      }
      known := remote.LatestID();
      var before := remote.List();
      if before.None? {
        return true;
      }
      NoLeftovers(before.value, remote.assets);
      if Leftovers(before.value) != [] {
        status, final := Refused, before.value;
        var saved := Save();
        return !saved;
      }
      threw := Replace(local, run, Meta(Some(title), Some(notes), false, false), before.value, original.value);
    }

    /** Two files called `app.zip`: nothing goes wrong outside, and still the release is put back. */
    method PublishTwoOfOneName(run: string, title: string, notes: string) returns (threw: bool)
      requires remote.Valid() && status == Running && staged == [] && renames == []
      requires Smooth() && Unreserved(remote.assets)
      modifies this, remote`assets, remote`history, remote`meta, remote`latest
      ensures !threw && status == Restored && Back(old(remote.assets), remote.assets) && remote.meta == old(remote.meta)
    {
      var local := [LocalFile("app.zip", [1]), LocalFile("app.zip", [2])];
      assert PublicNames(local) by {
        assert "app.zip"[0] == 'a' && "staged-"[0] == 's' && "prior-"[0] == 'p';
      }
      assert local[0].name == local[1].name;
      threw := Publish(local, run, title, notes);
    }

    /** The publication proper: prepared, attempted, and concluded or taken back. */
    method Replace(local: seq<LocalFile>, run: string, wanted: Meta, before: seq<Entry>,
                   original: Meta) returns (threw: bool)
      requires remote.Valid() && status == Running && renames == []
      requires Lists(before, remote.assets) && Unreserved(remote.assets) && original == remote.meta
      modifies this`staged, this`renames, this`status, this`final
      modifies remote`assets, remote`history, remote`meta, remote`latest
      ensures Kept(old(remote.assets), remote.assets, remote.intact)
      ensures old(remote.history) <= remote.history
      ensures remote.exact && PublicNames(local) ==>
                AllChecksumsBehind(remote.history[|old(remote.history)|..], staged)
      ensures status in {Running, Published, Restored, Unrestored} && (!threw ==> status != Running)
      ensures status == Published ==>
                && remote.meta == wanted && remote.latest == Some(remote.releaseID)
                && AllPublic(local, staged, remote.assets, remote.intact)
                && (!threw ==> Lists(final, remote.assets))
      ensures status == Restored ==>
                && Back(old(remote.assets), remote.assets) && Gone(staged, remote.assets)
                && remote.meta == original && (known.Some? ==> remote.latest == known)
      ensures status in {Restored, Unrestored} ==> ListedAtLast()
      ensures Smooth() && PublicNames(local) ==>
                !threw && status == if DistinctNames(local) then Published else Restored
      ensures recording ==> status != Running
      ensures recording && remote.willing && remote.exact && PublicNames(local) ==>
                && !threw && status in {Published, Restored, Unrestored}
                && (status == Unrestored ==> !Restorable(original))
    {
      SmoothMeans();
      hide *;
      ghost var start, clean := |remote.history|, remote.exact && PublicNames(local);
      staged := Prepare(local, run);
      PreparedManifest(local, run, remote.assets);
      NothingTraced(start, remote.assets);
      var saved := Save();
      if !saved {
        return true;
      }
      var ok, attempt := Try(local, before, run, wanted, clean);
      if ok {
        AttemptTraces(attempt);
        TracesMean(attempt.before, start, clean);
        DeliveredAll(attempt, local, run);
        status := Published;
        threw := Conclude();
      } else {
        ghost var written;
        threw, written := TakeBack(before, original, attempt);
        TracesMean(attempt.before, start, clean);
      }
    }

    lemma SmoothMeans()
      ensures Smooth() ==> recording && remote.willing && remote.exact && remote.intact
    {
    }

    /** The last listing and the last write of the manifest. */
    method Conclude() returns (threw: bool)
      modifies this`final
      ensures !threw ==> Lists(final, remote.assets)
      ensures recording && remote.willing ==> !threw
    {
      var current := remote.List();
      if current.None? {
        return true;
      }
      final := current.value;
      var saved := Save();
      return !saved;
    }

    /** After a failure: it is noted in the manifest, and the release is put back.  When the note
        cannot be written, and only then, the release stays as the failure left it. */
    method TakeBack(before: seq<Entry>, original: Meta, ghost attempt: Attempt)
      returns (threw: bool, ghost written: bool)
      requires Lists(before, attempt.before) && Attempted(attempt) && (attempt.clean ==> remote.exact)
      requires status == Running
      modifies this`status, this`final, remote`assets, remote`history, remote`meta, remote`latest
      ensures Traces(attempt.before, attempt.start, attempt.clean)
      ensures recording ==> written && !threw
      ensures status in {Running, Restored, Unrestored} && (status == Running <==> !written)
      ensures !written ==>
                threw && Untouched(old(remote.assets), old(remote.meta), old(remote.latest), old(remote.history))
      ensures status == Restored ==> Back(attempt.before, remote.assets) && Gone(staged, remote.assets)
      ensures status == Restored ==> remote.meta == original && (known.Some? ==> remote.latest == known)
      ensures written ==> ListedAtLast()
      ensures written && remote.willing && attempt.clean ==>
                status == if old(remote.meta) == original || Restorable(original) then Restored else Unrestored
      ensures old(remote.history) <= remote.history
    {
      hide *;
      var saved := Save();
      written := saved;
      threw := PutBack(saved, before, original, attempt);
    }

    /** The rest of it, after an answer of the file system. */
    method PutBack(noted: bool, before: seq<Entry>, original: Meta, ghost attempt: Attempt) returns (threw: bool)
      requires Lists(before, attempt.before) && Attempted(attempt) && (attempt.clean ==> remote.exact)
      requires status == Running
      modifies this`status, this`final, remote`assets, remote`history, remote`meta, remote`latest
      ensures Traces(attempt.before, attempt.start, attempt.clean)
      ensures noted && recording ==> !threw
      ensures status in {Running, Restored, Unrestored} && (status == Running <==> !noted)
      ensures !noted ==>
                threw && Untouched(old(remote.assets), old(remote.meta), old(remote.latest), old(remote.history))
      ensures status == Restored ==> Back(attempt.before, remote.assets) && Gone(staged, remote.assets)
      ensures status == Restored ==> remote.meta == original && (known.Some? ==> remote.latest == known)
      ensures noted ==> ListedAtLast()
      ensures noted && remote.willing && attempt.clean ==>
                status == if old(remote.meta) == original || Restorable(original) then Restored else Unrestored
      ensures old(remote.history) <= remote.history
    {
      AttemptTraces(attempt);
      AttemptMeans(attempt);
      StillUntouched();
      hide *;
      if !noted {
        return true;
      }
      var ok := Restore(before, original, known, attempt);
      var current := remote.List();
      final := if current.Some? then current.value else [];
      LastListed(current);
      status := if ok then Restored else Unrestored;
      var saved := Save();
      return !saved;
    }

    /** The manifest ends with the assets as they are, or with none when they could not be listed. */
    ghost predicate ListedAtLast()
      reads this`final, remote`assets
    {
      (final == [] || Lists(final, remote.assets)) && (remote.willing ==> Lists(final, remote.assets))
    }

    /** The release is as it was. */
    ghost predicate Untouched(assets: Assets, meta: Meta, latest: Option<nat>, history: seq<Names>)
      reads this, remote
    {
      remote.assets == assets && remote.meta == meta && remote.latest == latest && remote.history == history
    }

    lemma LastListed(current: Option<seq<Entry>>)
      requires current.Some? ==> Lists(current.value, remote.assets)
      requires remote.willing ==> current.Some?
      requires final == if current.Some? then current.value else []
      ensures ListedAtLast()
    {
      hide Lists;
    }

    lemma StillUntouched()
      ensures Untouched(remote.assets, remote.meta, remote.latest, remote.history)
    {
    }

    /** A release that had no notes, once the new ones are announced, cannot be put back, however
        willing the server is. */
    method TakeBackWithoutNotes(before: seq<Entry>, ghost attempt: Attempt) returns (threw: bool)
      requires Lists(before, attempt.before) && Attempted(attempt) && attempt.clean && remote.exact && status == Running
      requires recording && remote.willing && remote.meta == Meta(Some("v2"), Some("New notes"), false, false)
      modifies this`status, this`final, remote`assets, remote`history, remote`meta, remote`latest
      ensures !threw && status == Unrestored
    {
      ghost var written;
      threw, written := TakeBack(before, Meta(Some("v1"), None, false, false), attempt);
    }

    /** An attempt that failed between the two renames of `app.zip`, when the failure cannot be
        noted: the old file keeps its second name, however willing the server is. */
    method TakeBackUnwritten(before: seq<Entry>, original: Meta, id: nat, ghost attempt: Attempt) returns (threw: bool)
      requires Lists(before, attempt.before) && Attempted(attempt) && (attempt.clean ==> remote.exact)
      requires status == Running
      requires id in attempt.before && attempt.before[id].name == "app.zip"
      requires id in remote.assets && remote.assets[id].name == "prior-1-app.zip"
      modifies this`status, this`final, remote`assets, remote`history, remote`meta, remote`latest
      ensures threw && status == Running
      ensures id in remote.assets && remote.assets[id].name == "prior-1-app.zip" && !Back(attempt.before, remote.assets)
    {
      threw := PutBack(false, before, original, attempt);
    }

    lemma AttemptMeans(run: Attempt)
      requires Attempted(run)
      ensures Undoing(run.plan, run.start, run.origin, run.clean) && Fallible(run, staged, renames)
      ensures run.clean ==> At(AssetNames(remote.assets), AssetNames(run.origin), run.plan, |renames|)
    {
    }

    lemma AttemptTraces(run: Attempt)
      requires Attempted(run)
      ensures Traces(run.before, run.start, run.clean)
    {
      AttemptMeans(run);
      hide Attempted, Undoing, Fallible, Traces;
      UndoneTraces(run);
    }

    lemma TracesMean(before: Assets, start: nat, clean: bool)
      requires Traces(before, start, clean)
      ensures Kept(before, remote.assets, remote.intact)
      ensures start <= |remote.history| && (clean ==> AllChecksumsBehind(remote.history[start..], staged))
    {
      hide Kept, AllSumsLast, AllChecksumsBehind;
      if clean {
        AllSumsLastMeans(remote.history[start..], staged);
      }
    }

    lemma NothingTraced(start: nat, before: Assets)
      requires start == |remote.history| && before == remote.assets
      ensures Kept(before, remote.assets, remote.intact) && AllChecksumsBehind(remote.history[start..], staged)
    {
    }

    lemma DeliveredAll(run: Attempt, local: seq<LocalFile>, name: string)
      requires Manifest(staged, local, name, run.before)
      requires AllDelivered(staged, remote.assets, remote.intact)
      ensures AllPublic(local, staged, remote.assets, remote.intact)
    {
      ManifestMeans(staged, local, name, run.before);
      hide Manifest, New;
    }
  }
}
