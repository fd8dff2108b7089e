/** The release as the server keeps it, with every reply allowed to get lost.

    A changing call may be applied or not, and answers "ok" only when it was applied; a read may
    fail, and otherwise tells the truth.  Nobody else writes to the release. */
module Remote {
  import opened Wrappers
  import opened Renames

  type Bytes = seq<nat>

  /** `reported`: the server states the asset's digest.  A digest is the content it belongs to. */
  datatype Asset = Asset(name: string, uploaded: bool, content: Bytes, reported: bool)

  datatype Entry = Entry(id: nat, asset: Asset)

  datatype Meta = Meta(name: Option<string>, body: Option<string>, draft: bool, prerelease: bool)

  datatype Reading = Failed | Missing | Found(asset: Asset)

  type Assets = map<nat, Asset>

  function AssetNames(assets: Assets): Names {
    map id | id in assets :: assets[id].name
  }

  /** The asset has its new name, its old one is free, and nobody else lost theirs. */
  ghost predicate Patched(before: Assets, after: Assets, id: nat, target: string, intact: bool) {
    && id in before && id in after
    && Free(before, id, target)
    && after == before[id := before[id].(name := target, content := after[id].content)]
    && (intact ==> after[id].content == before[id].content)
  }

  /** Nobody but the asset itself has the name. */
  predicate Free(assets: Assets, id: nat, target: string) {
    forall other :: other in assets && assets[other].name == target ==> other == id
  }

  ghost predicate Lists(entries: seq<Entry>, assets: Assets) {
    && (forall e :: e in entries ==> e.id in assets && e.asset == assets[e.id])
    && (forall id :: id in assets ==> exists e :: e in entries && e.id == id)
  }

  lemma PatchedNames(before: Assets, after: Assets, id: nat, target: string, intact: bool)
    requires Patched(before, after, id, target, intact) && Unique(AssetNames(before))
    ensures AssetNames(after) == AssetNames(before)[id := target]
    ensures Unique(AssetNames(after))
  {
    assert forall other :: other in before ==> AssetNames(before)[other] == before[other].name;
  }

  class Remote {
    /** An asset can always be read, so a rename that fails did not happen. */
    const exact: bool
    /** The release itself can always be read. */
    const legible: bool
    /** Renaming leaves an asset's content alone. */
    const intact: bool
    /** Whatever the server can do it does, and says so. */
    const willing: bool
    const releaseID: nat
    var assets: Assets
    var meta: Meta
    var latest: Option<nat>

    /** The names after every attempt to rename or remove. */
    ghost var history: seq<Names>

    ghost predicate Valid()
      reads this`assets
    {
      Unique(AssetNames(assets))
    }

    method Patch(id: nat, target: string) returns (ok: bool)
      requires Valid()
      modifies this`assets, this`history
      ensures Valid()
      ensures assets == old(assets) || Patched(old(assets), assets, id, target, intact)
      ensures ok ==> Patched(old(assets), assets, id, target, intact)
      ensures willing && id in old(assets) && Free(old(assets), id, target) ==> ok
      ensures history == old(history) + [AssetNames(assets)]
    {
      ok := false;
      var happens: bool := *;
      if (happens || willing) && id in assets && Free(assets, id, target) {
        var content: Bytes := *;
        if intact {
          content := assets[id].content;
        }
        assets := assets[id := assets[id].(name := target, content := content)];
        assert Patched(old(assets), assets, id, target, intact);
        PatchedNames(old(assets), assets, id, target, intact);
        var answered: bool := *;
        ok := answered || willing;
      }
      history := history + [AssetNames(assets)];
    }

    method Read(id: nat) returns (reading: Reading)
      ensures exact || willing ==> !reading.Failed?
      ensures reading.Found? ==> id in assets && reading.asset == assets[id]
      ensures reading.Missing? ==> id !in assets
    {
      var fails: bool := *;
      if fails && !exact && !willing {
        return Failed;
      }
      return if id in assets then Found(assets[id]) else Missing;
    }

    method Upload(name: string, content: Bytes) returns (reply: Option<Entry>)
      requires Valid()
      modifies this`assets
      ensures Valid()
      ensures assets == old(assets) || Created(old(assets), assets, name)
      ensures reply.Some? ==>
                && Created(old(assets), assets, name)
                && reply.value.id !in old(assets) && reply.value.id in assets
                && reply.value.asset == assets[reply.value.id] && reply.value.asset.name == name
      ensures willing && (forall other :: other in old(assets) ==> old(assets)[other].name != name) ==>
                reply.Some? && reply.value.asset.uploaded && reply.value.asset.content == content
      ensures (exists other :: other in old(assets) && old(assets)[other].name == name) ==> assets == old(assets)
    {
      reply := None;
      var happens: bool := *;
      if (happens || willing) && forall other :: other in assets ==> assets[other].name != name {
        var uploaded: bool := *;
        var reported: bool := *;
        var answered: bool := *;
        var stored: Bytes := *;
        if willing {
          uploaded, answered, stored := true, true, content;
        }
        var id := NewId(assets.Keys);
        var asset := Asset(name, uploaded, stored, reported);
        assets := assets[id := asset];
        assert CreatedAs(old(assets), assets, name, id);
        assert forall other :: other in old(assets) ==> AssetNames(old(assets))[other] == assets[other].name;
        if answered {
          reply := Some(Entry(id, asset));
        }
      }
    }

    method List() returns (entries: Option<seq<Entry>>)
      ensures entries.Some? ==> Lists(entries.value, assets)
      ensures willing ==> entries.Some?
    {
      var fails: bool := *;
      if fails && !willing {
        return None;
      }
      var rest := assets.Keys;
      var found: seq<Entry> := [];
      while rest != {}
        invariant rest <= assets.Keys
        invariant forall e :: e in found ==> e.id in assets && e.asset == assets[e.id]
        invariant forall id :: id in assets ==> id in rest || exists e :: e in found && e.id == id
        decreases rest
      {
        var id :| id in rest;
        var added := Entry(id, assets[id]);
        var more := found + [added];
        assert added in more && forall e :: e in found ==> e in more;
        found, rest := more, rest - {id};
      }
      return Some(found);
    }

    method Download(id: nat) returns (content: Option<Bytes>)
      ensures content.Some? ==> id in assets && content.value == assets[id].content
      ensures willing && id in assets ==> content.Some?
    {
      var fails: bool := *;
      return if (fails && !willing) || id !in assets then None else Some(assets[id].content);
    }

    method Delete(id: nat) returns (ok: bool)
      requires Valid()
      modifies this`assets, this`history
      ensures Valid()
      ensures assets == old(assets) || assets == old(assets) - {id}
      ensures ok ==> id !in assets
      ensures willing ==> ok
      ensures history == old(history) + [AssetNames(assets)]
    {
      var happens: bool := *;
      var answered: bool := *;
      if willing {
        happens, answered := true, true;
      }
      if happens {
        assets := assets - {id};
        assert forall other :: other in assets ==> AssetNames(assets)[other] == AssetNames(old(assets))[other];
      }
      history := history + [AssetNames(assets)];
      ok := answered && id !in assets;
    }

    method Release() returns (reading: Option<Meta>)
      ensures reading.Some? ==> reading.value == meta
      ensures legible || willing ==> reading.Some?
    {
      var fails: bool := *;
      return if fails && !legible && !willing then None else Some(meta);
    }

    method LatestID() returns (reading: Option<nat>)
      ensures reading.Some? ==> reading == latest
      ensures willing ==> reading == latest
    {
      var fails: bool := *;
      return if fails && !willing then None else latest;
    }

    /** Without `makeLatest` the server is free to move "latest" when a draft or prerelease
        mark changes. */
    method Edit(next: Meta, makeLatest: bool) returns (ok: bool)
      modifies this`meta, this`latest
      ensures ok ==> meta == next && (makeLatest ==> latest == Some(releaseID))
      ensures meta == next || meta == old(meta)
      ensures willing ==> ok
    {
      ok := false;
      var happens: bool := *;
      if happens || willing {
        meta := next;
        if makeLatest {
          latest := Some(releaseID);
        } else {
          latest := *;
        }
        var answered: bool := *;
        ok := answered || willing;
      }
    }

    method MakeLatest(id: nat) returns (ok: bool)
      modifies this`latest
      ensures ok ==> latest == Some(id)
      ensures willing ==> ok
    {
      ok := false;
      var happens: bool := *;
      if happens || willing {
        latest := Some(id);
        var answered: bool := *;
        ok := answered || willing;
      }
    }

    /** `client.rename`: an unanswered rename is settled by looking at the asset. */
    method Rename(id: nat, target: string) returns (ok: bool)
      requires Valid()
      modifies this`assets, this`history
      ensures Valid()
      ensures assets == old(assets) || Patched(old(assets), assets, id, target, intact)
      ensures ok ==> Patched(old(assets), assets, id, target, intact)
      ensures !ok && exact ==> assets == old(assets)
      ensures willing && id in old(assets) && Free(old(assets), id, target) ==> ok
      ensures history == old(history) + [AssetNames(assets)]
    {
      ok := Patch(id, target);
      if ok {
        return;
      }
      var current := Read(id);
      if current.Found? && current.asset.name == target {
        if assets == old(assets) {
          AlreadyNamed(assets, id, intact);
        }
        return true;
      }
    }

    /** `client.remove`. */
    method Remove(id: nat) returns (ok: bool)
      requires Valid()
      modifies this`assets, this`history
      ensures Valid()
      ensures assets == old(assets) || assets == old(assets) - {id}
      ensures ok ==> id !in assets
      ensures exact && !ok ==> id in assets
      ensures willing ==> ok
      ensures history == old(history) + [AssetNames(assets)]
    {
      ok := Delete(id);
      if !ok {
        var current := Read(id);
        ok := current.Missing?;
      }
    }
  }

  lemma AlreadyNamed(assets: Assets, id: nat, intact: bool)
    requires Unique(AssetNames(assets)) && id in assets
    ensures Patched(assets, assets, id, assets[id].name, intact)
  {
    assert assets == assets[id := assets[id]];
    assert forall other :: other in assets ==> AssetNames(assets)[other] == assets[other].name;
  }

  ghost predicate CreatedAs(before: Assets, after: Assets, name: string, id: nat) {
    && id !in before && id in after
    && after == before[id := after[id]]
    && after[id].name == name
    && (forall other :: other in before ==> before[other].name != name)
  }

  ghost predicate Created(before: Assets, after: Assets, name: string) {
    exists id :: CreatedAs(before, after, name, id)
  }

  method NewId(used: set<nat>) returns (id: nat)
    ensures id !in used
  {
    id := 0;
    var rest := used;
    while rest != {}
      invariant rest <= used
      invariant forall other :: other in used ==> other in rest || other < id
      decreases rest
    {
      var one :| one in rest;
      if one >= id {
        id := one + 1;
      }
      rest := rest - {one};
    }
  }
}
