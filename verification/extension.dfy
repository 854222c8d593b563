/**
 * The module-level state of the extension: the two cache maps, the pending
 * queues of changes seen while a build runs, and the built flag, with the
 * operations that update them in place.
 *
 * Every operation is one sequential, atomic step: the file system is a
 * parameter `files` (a path to its text, or None when it cannot be read)
 * that stays fixed for the duration of the step.
 */
module Extension {
  import opened Helpers
  import opened CacheModel

  /** `[...set]`: the elements of a set as an array, each once. */
  method Spread(s: set<PrefabPath>) returns (r: seq<PrefabPath>)
    ensures Elems(r) == s
    ensures NoDup(r)
  {
    r := [];
    var rest := s;
    while rest != {}
      invariant Elems(r) + rest == s
      invariant Elems(r) !! rest
      invariant NoDup(r)
      decreases rest
    {
      var x :| x in rest;
      r := r + [x];
      rest := rest - {x};
    }
  }

  class PrefabCache {
    /** `ScriptWithinPrefabs`, used to answer "which files use this script". */
    var scriptWithinPrefabs: ForwardIndex
    /** `PrefabDependOnScripts`, used to update the cache when one file changes. */
    var prefabDependOnScripts: ReverseIndex
    /** Files created or changed while the cache was being built. */
    var changedWhenBuilding: set<PrefabPath>
    /** Files deleted while the cache was being built. */
    var deletedWhenBuilding: set<PrefabPath>
    /** Whether the cache is built (false while it is being built). */
    var cacheIsBuilt: bool
    /** The configured export-name pattern: the tokens it captures in a text. */
    const matchExportNames: string -> seq<string>

    /** The two maps are inverses of each other and hold no empty set. */
    ghost predicate Valid()
      reads this`scriptWithinPrefabs, this`prefabDependOnScripts
    {
      CacheModel.Valid(scriptWithinPrefabs, prefabDependOnScripts)
    }

    /** Nothing waits in the queues once the cache is built. */
    ghost predicate QueuesDrained()
      reads this`cacheIsBuilt, this`changedWhenBuilding, this`deletedWhenBuilding
    {
      cacheIsBuilt ==> changedWhenBuilding == {} && deletedWhenBuilding == {}
    }

    /** The state at activation: empty maps and queues, not built. */
    constructor (matchExportNames: string -> seq<string>)
      ensures Valid() && QueuesDrained()
      ensures scriptWithinPrefabs == map[] && prefabDependOnScripts == map[]
      ensures changedWhenBuilding == {} && deletedWhenBuilding == {} && !cacheIsBuilt
      ensures this.matchExportNames == matchExportNames
    {
      scriptWithinPrefabs := map[];
      prefabDependOnScripts := map[];
      changedWhenBuilding := {};
      deletedWhenBuilding := {};
      cacheIsBuilt := false;
      this.matchExportNames := matchExportNames;
    }

    method SetAsBuildingCache()
      modifies this`cacheIsBuilt
      ensures !cacheIsBuilt
    {
      cacheIsBuilt := false;
    }

    /** Empties both maps and marks the cache as not built; the queues are kept. */
    method Reset()
      modifies this`scriptWithinPrefabs, this`prefabDependOnScripts, this`cacheIsBuilt
      ensures scriptWithinPrefabs == map[] && prefabDependOnScripts == map[] && !cacheIsBuilt
      ensures Valid() && QueuesDrained()
    {
      scriptWithinPrefabs := map[];
      prefabDependOnScripts := map[];
      SetAsBuildingCache();
    }

    method AddPrefabToScript(script: Script, filePath: PrefabPath)
      modifies this`scriptWithinPrefabs
      ensures scriptWithinPrefabs == WithPrefab(old(scriptWithinPrefabs), script, filePath)
    {
      if script in scriptWithinPrefabs {
        scriptWithinPrefabs := scriptWithinPrefabs[script := scriptWithinPrefabs[script] + {filePath}];
      } else {
        scriptWithinPrefabs := scriptWithinPrefabs[script := {filePath}];
      }
    }

    method DeletePrefabWithinScript(script: Script, filePath: PrefabPath)
      modifies this`scriptWithinPrefabs
      ensures scriptWithinPrefabs == WithoutPrefab(old(scriptWithinPrefabs), script, filePath)
    {
      if script !in scriptWithinPrefabs {
        return;
      }
      var prefabs := scriptWithinPrefabs[script] - {filePath};
      if |prefabs| == 0 {
        scriptWithinPrefabs := scriptWithinPrefabs - {script};
      } else {
        scriptWithinPrefabs := scriptWithinPrefabs[script := prefabs];
      }
    }

    /** `scripts.forEach((script) => deletePrefabWithinScript(script, path))`. */
    method DeletePrefabWithinScripts(scripts: seq<Script>, path: PrefabPath)
      modifies this`scriptWithinPrefabs
      ensures NoEmptySets(old(scriptWithinPrefabs)) ==> NoEmptySets(scriptWithinPrefabs)
      ensures forall t :: Lookup(scriptWithinPrefabs, t)
                       == if t in scripts then Lookup(old(scriptWithinPrefabs), t) - {path}
                          else Lookup(old(scriptWithinPrefabs), t)
    {
      for i := 0 to |scripts|
        invariant NoEmptySets(old(scriptWithinPrefabs)) ==> NoEmptySets(scriptWithinPrefabs)
        invariant forall t :: Lookup(scriptWithinPrefabs, t)
                           == if t in scripts[..i] then Lookup(old(scriptWithinPrefabs), t) - {path}
                              else Lookup(old(scriptWithinPrefabs), t)
      {
        ghost var before := scriptWithinPrefabs;
        DeletePrefabWithinScript(scripts[i], path);
        assert scripts[..i + 1] == scripts[..i] + [scripts[i]];
        forall t ensures Lookup(scriptWithinPrefabs, t)
                      == if t in scripts[..i + 1] then Lookup(old(scriptWithinPrefabs), t) - {path}
                         else Lookup(old(scriptWithinPrefabs), t)
        {
          assert Lookup(scriptWithinPrefabs, t)
              == if t == scripts[i] then Lookup(before, t) - {path} else Lookup(before, t);
        }
      }
      assert scripts[..|scripts|] == scripts;
    }

    /** `scripts.forEach((script) => addPrefabToScript(script, path))`. */
    method AddPrefabToScripts(scripts: seq<Script>, path: PrefabPath)
      modifies this`scriptWithinPrefabs
      ensures NoEmptySets(old(scriptWithinPrefabs)) ==> NoEmptySets(scriptWithinPrefabs)
      ensures forall t :: Lookup(scriptWithinPrefabs, t)
                       == if t in scripts then Lookup(old(scriptWithinPrefabs), t) + {path}
                          else Lookup(old(scriptWithinPrefabs), t)
    {
      for i := 0 to |scripts|
        invariant NoEmptySets(old(scriptWithinPrefabs)) ==> NoEmptySets(scriptWithinPrefabs)
        invariant forall t :: Lookup(scriptWithinPrefabs, t)
                           == if t in scripts[..i] then Lookup(old(scriptWithinPrefabs), t) + {path}
                              else Lookup(old(scriptWithinPrefabs), t)
      {
        ghost var before := scriptWithinPrefabs;
        AddPrefabToScript(scripts[i], path);
        assert scripts[..i + 1] == scripts[..i] + [scripts[i]];
        forall t ensures Lookup(scriptWithinPrefabs, t)
                      == if t in scripts[..i + 1] then Lookup(old(scriptWithinPrefabs), t) + {path}
                         else Lookup(old(scriptWithinPrefabs), t)
        {
          assert Lookup(scriptWithinPrefabs, t)
              == if t == scripts[i] then Lookup(before, t) + {path} else Lookup(before, t);
        }
      }
      assert scripts[..|scripts|] == scripts;
    }

    /**
     * Records file `path`: reads it, moves the forward map by the difference
     * between its old and new scripts, and stores the new scripts (or drops
     * the entry when there are none).
     */
    method ReadDocumentAndUpdateCache(path: PrefabPath, files: PrefabPath -> Option<string>)
      requires Valid()
      modifies this`scriptWithinPrefabs, this`prefabDependOnScripts
      ensures Valid()
      ensures prefabDependOnScripts == Recorded(old(prefabDependOnScripts), path, ScriptsAt(files, matchExportNames, path))
      ensures scriptWithinPrefabs == Inverse(prefabDependOnScripts)
    {
      var scriptSet := ReadAllScriptsFromDocument(files(path), matchExportNames);
      var previous := if path in prefabDependOnScripts then prefabDependOnScripts[path] else [];
      var diff := DiffWithTwoSets(previous, scriptSet);

      ghost var fwd0 := scriptWithinPrefabs;
      DeletePrefabWithinScripts(diff.deleted, path);
      AddPrefabToScripts(diff.added, path);

      ghost var rev0 := prefabDependOnScripts;
      if |scriptSet| > 0 {
        prefabDependOnScripts := prefabDependOnScripts[path := scriptSet];
      } else {
        prefabDependOnScripts := prefabDependOnScripts - {path};
      }
      RecordMatchesDiff(fwd0, rev0, path, previous, scriptSet, diff, scriptWithinPrefabs);
    }

    /** Removes file `path` from both maps; a file the cache does not know is left alone. */
    method UpdateCacheWhenDeleteDocument(path: PrefabPath)
      requires Valid()
      modifies this`scriptWithinPrefabs, this`prefabDependOnScripts
      ensures Valid()
      ensures prefabDependOnScripts == old(prefabDependOnScripts) - {path}
      ensures scriptWithinPrefabs == Inverse(prefabDependOnScripts)
      ensures path !in old(prefabDependOnScripts) ==> scriptWithinPrefabs == old(scriptWithinPrefabs)
    {
      ValidIsInverse(scriptWithinPrefabs, prefabDependOnScripts);
      if path !in prefabDependOnScripts {
        return;
      }
      var scriptSet := prefabDependOnScripts[path];
      ghost var rev0 := prefabDependOnScripts;
      prefabDependOnScripts := prefabDependOnScripts - {path};

      ghost var fwd0 := scriptWithinPrefabs;
      DeletePrefabWithinScripts(scriptSet, path);
      RemoveMatchesLoop(fwd0, rev0, path, scriptWithinPrefabs);
    }

    /**
     * `setAsBuiltCache`: marks the cache built, removes the files deleted
     * during the build, then re-reads the files changed during it, and leaves
     * both queues empty.
     *
     * The re-read goes through `UpdateCacheWithUris`, which ends by calling
     * this method again. The call at extension.ts:55 is not awaited, and its
     * loop starts only after an `await`, so every re-read runs after the rest
     * of this method (the clear at 56 and the removals at 59-64). The model
     * runs the call last, when both queues are already empty.
     */
    method SetAsBuiltCache(files: PrefabPath -> Option<string>)
      requires Valid()
      modifies this
      decreases 2 * |changedWhenBuilding| + 1
      ensures Valid() && cacheIsBuilt
      ensures changedWhenBuilding == {} && deletedWhenBuilding == {}
      ensures prefabDependOnScripts
           == RecordedAll(old(prefabDependOnScripts) - old(deletedWhenBuilding), old(changedWhenBuilding),
                          files, matchExportNames)
      ensures scriptWithinPrefabs == Inverse(prefabDependOnScripts)
    {
      cacheIsBuilt := true;
      ghost var changed0 := changedWhenBuilding;

      var uris := [];
      if |changedWhenBuilding| > 0 {
        uris := Spread(changedWhenBuilding);
        changedWhenBuilding := {};
      }

      if |deletedWhenBuilding| > 0 {
        UpdateCacheWhenDeleteDocuments(deletedWhenBuilding);
        deletedWhenBuilding := {};
      }

      ghost var rev1 := prefabDependOnScripts;
      assert rev1 == old(prefabDependOnScripts) - old(deletedWhenBuilding);
      assert Elems(uris) == changed0;
      if uris != [] {
        UpdateCacheWithUris(uris, files);
        ReplayAfterRemovals(rev1, uris, changed0, files, matchExportNames, prefabDependOnScripts);
      } else {
        RecordedAllEmpty(rev1, files, matchExportNames);
      }
      ValidIsInverse(scriptWithinPrefabs, prefabDependOnScripts);
    }

    /** The loop of `setAsBuiltCache` over the files deleted during the build. */
    method UpdateCacheWhenDeleteDocuments(paths: set<PrefabPath>)
      requires Valid()
      modifies this`scriptWithinPrefabs, this`prefabDependOnScripts
      ensures Valid()
      ensures prefabDependOnScripts == old(prefabDependOnScripts) - paths
    {
      var pending := paths;
      while pending != {}
        invariant Valid()
        invariant pending <= paths
        invariant prefabDependOnScripts == old(prefabDependOnScripts) - (paths - pending)
        decreases pending
      {
        var uri :| uri in pending;
        UpdateCacheWhenDeleteDocument(uri);
        pending := pending - {uri};
      }
    }

    /**
     * The body of `updateCacheWithUris` for a given list of files: marks the
     * cache as building, records each file in turn, then marks it built
     * (which replays the queues).
     */
    method UpdateCacheWithUris(uris: seq<PrefabPath>, files: PrefabPath -> Option<string>)
      requires Valid()
      modifies this
      decreases 2 * |changedWhenBuilding| + 2
      ensures Valid() && cacheIsBuilt
      ensures changedWhenBuilding == {} && deletedWhenBuilding == {}
      ensures prefabDependOnScripts
           == RecordedAll(RecordedAll(old(prefabDependOnScripts), Elems(uris), files, matchExportNames)
                          - old(deletedWhenBuilding),
                          old(changedWhenBuilding), files, matchExportNames)
      ensures scriptWithinPrefabs == Inverse(prefabDependOnScripts)
    {
      SetAsBuildingCache();
      ghost var rev0 := prefabDependOnScripts;
      RecordedAllEmpty(rev0, files, matchExportNames);
      for i := 0 to |uris|
        modifies this`scriptWithinPrefabs, this`prefabDependOnScripts
        invariant Valid()
        invariant prefabDependOnScripts == RecordedAll(rev0, Elems(uris[..i]), files, matchExportNames)
      {
        ghost var before := prefabDependOnScripts;
        ReadDocumentAndUpdateCache(uris[i], files);
        BatchStep(rev0, uris, i, files, matchExportNames, before, prefabDependOnScripts);
      }
      ghost var rev1, changed1, deleted1 := prefabDependOnScripts, changedWhenBuilding, deletedWhenBuilding;
      SetAsBuiltCache(files);
      BatchThenReplay(rev0, uris, changed1, deleted1, files, matchExportNames, rev1, prefabDependOnScripts);
    }

    /** `buildCache`: clears the maps and records every file found in the workspace. */
    method BuildCache(allUris: seq<PrefabPath>, files: PrefabPath -> Option<string>)
      requires Valid()
      modifies this
      ensures Valid() && QueuesDrained() && cacheIsBuilt
      ensures prefabDependOnScripts
           == RecordedAll(RecordedAll(map[], Elems(allUris), files, matchExportNames) - old(deletedWhenBuilding),
                          old(changedWhenBuilding), files, matchExportNames)
      ensures scriptWithinPrefabs == Inverse(prefabDependOnScripts)
    {
      Reset();
      UpdateCacheWithUris(allUris, files);
    }

    /**
     * `upgradeCacheWhenPrefabChange`: ignores files that are not prefabs or
     * scenes; queues the event while the cache is not built; otherwise
     * removes a deleted file at once or re-reads a created or changed one.
     */
    method UpgradeCacheWhenPrefabChange(uri: PrefabPath, isDelete: bool, files: PrefabPath -> Option<string>)
      requires Valid() && QueuesDrained()
      modifies this
      ensures Valid() && QueuesDrained()
      ensures !UriIsPrefabFile(uri) ==>
        && scriptWithinPrefabs == old(scriptWithinPrefabs) && prefabDependOnScripts == old(prefabDependOnScripts)
        && changedWhenBuilding == old(changedWhenBuilding) && deletedWhenBuilding == old(deletedWhenBuilding)
        && cacheIsBuilt == old(cacheIsBuilt)
      ensures UriIsPrefabFile(uri) && !old(cacheIsBuilt) ==>
        && scriptWithinPrefabs == old(scriptWithinPrefabs) && prefabDependOnScripts == old(prefabDependOnScripts)
        && !cacheIsBuilt
        && changedWhenBuilding == (if isDelete then old(changedWhenBuilding) else old(changedWhenBuilding) + {uri})
        && deletedWhenBuilding == (if isDelete then old(deletedWhenBuilding) + {uri} else old(deletedWhenBuilding))
      ensures UriIsPrefabFile(uri) && old(cacheIsBuilt) ==>
        && cacheIsBuilt && changedWhenBuilding == {} && deletedWhenBuilding == {}
        && prefabDependOnScripts
           == (if isDelete then old(prefabDependOnScripts) - {uri}
               else Recorded(old(prefabDependOnScripts), uri, ScriptsAt(files, matchExportNames, uri)))
        && scriptWithinPrefabs == Inverse(prefabDependOnScripts)
    {
      if !UriIsPrefabFile(uri) {
        return;
      }

      if !cacheIsBuilt {
        if isDelete {
          deletedWhenBuilding := deletedWhenBuilding + {uri};
        } else {
          changedWhenBuilding := changedWhenBuilding + {uri};
        }
      } else if isDelete {
        UpdateCacheWhenDeleteDocument(uri);
      } else {
        ghost var rev0 := prefabDependOnScripts;
        UpdateCacheWithUris([uri], files);
        SingleChange(rev0, uri, files, matchExportNames, prefabDependOnScripts);
      }
    }
  }

  /**
   * The forward map left by the two diff loops of a record is the inverse of
   * the recorded reverse map: removing `path` from the scripts that left and
   * adding it to the scripts that came is the same as making `path` a user
   * of exactly the new scripts.
   */
  lemma RecordMatchesDiff(fwd0: ForwardIndex, rev0: ReverseIndex, path: PrefabPath,
                          previous: seq<Script>, scripts: seq<Script>, diff: Delta<Script>,
                          fwd: ForwardIndex)
    requires CacheModel.Valid(fwd0, rev0)
    requires previous == if path in rev0 then rev0[path] else []
    requires NoDup(scripts)
    requires diff == DiffWithTwoSets(previous, scripts)
    requires NoEmptySets(fwd)
    requires forall t :: Lookup(fwd, t)
                      == if t in diff.deleted then Lookup(fwd0, t) - {path}
                         else if t in diff.added then Lookup(fwd0, t) + {path}
                         else Lookup(fwd0, t)
    ensures CacheModel.Valid(fwd, Recorded(rev0, path, scripts))
    ensures fwd == Inverse(Recorded(rev0, path, scripts))
  {
    var rev := Recorded(rev0, path, scripts);
    forall t ensures Lookup(fwd, t) == Lookup(Inverse(rev), t) {
      DiffLookupAt(fwd0, rev0, path, previous, scripts, t);
    }
    LookupExtensional(fwd, Inverse(rev));
    InverseValid(rev);
  }

  /** For one script, applying the diff to its entry gives its entry in the inverse of the new reverse map. */
  lemma DiffLookupAt(fwd0: ForwardIndex, rev0: ReverseIndex, path: PrefabPath,
                     previous: seq<Script>, scripts: seq<Script>, t: Script)
    requires CacheModel.Valid(fwd0, rev0)
    requires previous == if path in rev0 then rev0[path] else []
    ensures var diff := DiffWithTwoSets(previous, scripts);
      Lookup(Inverse(Recorded(rev0, path, scripts)), t)
      == if t in diff.deleted then Lookup(fwd0, t) - {path}
         else if t in diff.added then Lookup(fwd0, t) + {path}
         else Lookup(fwd0, t)
  {
    var diff := DiffWithTwoSets(previous, scripts);
    ValidIsInverse(fwd0, rev0);
    RecordedLookup(rev0, path, scripts, t);
    if t !in diff.deleted && t !in diff.added {
      assert path in Lookup(fwd0, t) <==> t in previous;
    }
  }

  /** Recording `uris[i]` after a batch over the first `i` paths is a batch over the first `i + 1`. */
  lemma BatchStep(rev0: ReverseIndex, uris: seq<PrefabPath>, i: nat,
                  files: PrefabPath -> Option<string>, m: string -> seq<string>,
                  before: ReverseIndex, after: ReverseIndex)
    requires i < |uris|
    requires before == RecordedAll(rev0, Elems(uris[..i]), files, m)
    requires after == Recorded(before, uris[i], ScriptsAt(files, m, uris[i]))
    ensures after == RecordedAll(rev0, Elems(uris[..i + 1]), files, m)
  {
    RecordedAllStep(rev0, Elems(uris[..i]), uris[i], files, m);
    assert uris[..i + 1] == uris[..i] + [uris[i]];
    assert Elems(uris[..i + 1]) == Elems(uris[..i]) + {uris[i]};
  }

  /** A batch over `uris` followed by the replay of the queues. */
  lemma BatchThenReplay(rev0: ReverseIndex, uris: seq<PrefabPath>, changed: set<PrefabPath>, deleted: set<PrefabPath>,
                        files: PrefabPath -> Option<string>, m: string -> seq<string>,
                        rev1: ReverseIndex, rev2: ReverseIndex)
    requires rev1 == RecordedAll(rev0, Elems(uris[..|uris|]), files, m)
    requires rev2 == RecordedAll(rev1 - deleted, changed, files, m)
    ensures rev2 == RecordedAll(RecordedAll(rev0, Elems(uris), files, m) - deleted, changed, files, m)
  {
    assert uris[..|uris|] == uris;
  }

  /** A live change of one file, with both queues empty, is a single record of it. */
  lemma SingleChange(rev0: ReverseIndex, uri: PrefabPath, files: PrefabPath -> Option<string>,
                     m: string -> seq<string>, rev2: ReverseIndex)
    requires rev2 == RecordedAll(RecordedAll(rev0, Elems([uri]), files, m) - {}, {}, files, m)
    ensures rev2 == Recorded(rev0, uri, ScriptsAt(files, m, uri))
  {
    assert Elems([uri]) == {uri};
    RecordedAllSingle(rev0, uri, files, m);
    var r1 := RecordedAll(rev0, {uri}, files, m);
    assert r1 - {} == r1;
    RecordedAllEmpty(r1, files, m);
  }

  /** The nested re-read of the changed files, started with empty queues, is one batch over them. */
  lemma ReplayAfterRemovals(rev1: ReverseIndex, uris: seq<PrefabPath>, changed: set<PrefabPath>,
                            files: PrefabPath -> Option<string>, m: string -> seq<string>, rev2: ReverseIndex)
    requires Elems(uris) == changed
    requires rev2 == RecordedAll(RecordedAll(rev1, Elems(uris), files, m) - {}, {}, files, m)
    ensures rev2 == RecordedAll(rev1, changed, files, m)
  {
    RecordedAllEmpty(RecordedAll(rev1, changed, files, m) - {}, files, m);
    assert RecordedAll(rev1, changed, files, m) - {} == RecordedAll(rev1, changed, files, m);
  }

  /** The forward map left by the loop of a removal is the inverse of the reduced reverse map. */
  lemma RemoveMatchesLoop(fwd0: ForwardIndex, rev0: ReverseIndex, path: PrefabPath, fwd: ForwardIndex)
    requires CacheModel.Valid(fwd0, rev0)
    requires path in rev0
    requires NoEmptySets(fwd)
    requires forall t :: Lookup(fwd, t) == if t in rev0[path] then Lookup(fwd0, t) - {path} else Lookup(fwd0, t)
    ensures CacheModel.Valid(fwd, rev0 - {path})
    ensures fwd == Inverse(rev0 - {path})
  {
    ValidIsInverse(fwd0, rev0);
    forall t ensures Lookup(fwd, t) == Lookup(Inverse(rev0 - {path}), t) {
      RemovedLookup(rev0, path, t);
      if t !in rev0[path] {
        assert path !in Lookup(fwd0, t);
      }
    }
    LookupExtensional(fwd, Inverse(rev0 - {path}));
    InverseValid(rev0 - {path});
  }
}
