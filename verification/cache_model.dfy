/**
 * The many-to-many relation between script names and prefab/scene files,
 * held as two maps that must be inverses of each other, and the effect of
 * recording or removing one container file on them.
 *
 * The reverse map (path to scripts) is the primary one: a valid forward map
 * is uniquely determined by it (`ValidIsInverse`), so every update below is
 * specified by what it does to the reverse map.
 */
module CacheModel {
  import opened Helpers

  /** A script's export name. */
  type Script = string
  /** The path of a prefab or scene file. */
  type PrefabPath = string
  /** `ScriptWithinPrefabs`: a script name to the paths of the files that use it. */
  type ForwardIndex = map<Script, set<PrefabPath>>
  /** `PrefabDependOnScripts`: a file's path to the scripts it names, in the order read. */
  type ReverseIndex = map<PrefabPath, seq<Script>>

  /**
   * The files that use script `s`, empty for an unknown script. In a map
   * without empty sets the answer is empty exactly when the script is not a
   * key, so the `has` test before the lookup decides "no files found".
   */
  function Lookup(fwd: ForwardIndex, s: Script): (r: set<PrefabPath>)
    ensures NoEmptySets(fwd) ==> (r == {} <==> s !in fwd)
  {
    if s in fwd then fwd[s] else {}
  }

  /** File `p` is recorded as naming script `s`. */
  predicate Refers(rev: ReverseIndex, p: PrefabPath, s: Script)
  {
    p in rev && s in rev[p]
  }

  /** No script is kept with an empty set of files. */
  ghost predicate NoEmptySets(fwd: ForwardIndex)
  {
    forall s :: s in fwd ==> fwd[s] != {}
  }

  /** No file is kept with an empty script list, and no list repeats a script. */
  ghost predicate WellFormedRev(rev: ReverseIndex)
  {
    forall p :: p in rev ==> rev[p] != [] && NoDup(rev[p])
  }

  /** `p` is among the files of `s` exactly when `s` is among the scripts of `p`. */
  ghost predicate Inverses(fwd: ForwardIndex, rev: ReverseIndex)
  {
    forall s, p :: p in Lookup(fwd, s) <==> Refers(rev, p, s)
  }

  /** The invariant of the cache. */
  ghost predicate Valid(fwd: ForwardIndex, rev: ReverseIndex)
  {
    NoEmptySets(fwd) && WellFormedRev(rev) && Inverses(fwd, rev)
  }

  /** The files that the reverse map records as naming `s`. */
  function UsersOf(rev: ReverseIndex, s: Script): set<PrefabPath>
  {
    set p | p in rev && s in rev[p]
  }

  /** Every script some file names. */
  function ScriptsIn(rev: ReverseIndex): set<Script>
  {
    set p, s | p in rev && s in rev[p] :: s
  }

  /** The forward map that a reverse map determines. */
  function Inverse(rev: ReverseIndex): (fwd: ForwardIndex)
    ensures forall s :: Lookup(fwd, s) == UsersOf(rev, s)
    ensures NoEmptySets(fwd)
  {
    var fwd := map s | s in ScriptsIn(rev) :: UsersOf(rev, s);
    assert forall s :: Lookup(fwd, s) == UsersOf(rev, s) by {
      forall s ensures Lookup(fwd, s) == UsersOf(rev, s) {
        if p :| p in UsersOf(rev, s) {
          assert s in ScriptsIn(rev);
        }
      }
    }
    assert NoEmptySets(fwd) by {
      forall s | s in fwd ensures fwd[s] != {} {
        var p :| p in rev && s in rev[p];
        assert p in fwd[s];
      }
    }
    fwd
  }

  /** Two forward maps without empty sets are equal when every lookup agrees. */
  lemma LookupExtensional(f1: ForwardIndex, f2: ForwardIndex)
    requires NoEmptySets(f1) && NoEmptySets(f2)
    requires forall s :: Lookup(f1, s) == Lookup(f2, s)
    ensures f1 == f2
  {
    assert f1.Keys == f2.Keys by {
      forall s ensures s in f1 <==> s in f2 {
        assert Lookup(f1, s) == Lookup(f2, s);
      }
    }
    forall s | s in f1 ensures f1[s] == f2[s] {
      assert Lookup(f1, s) == Lookup(f2, s);
    }
  }

  /** A well-formed reverse map together with its inverse is a valid cache. */
  lemma InverseValid(rev: ReverseIndex)
    requires WellFormedRev(rev)
    ensures Valid(Inverse(rev), rev)
  {
  }

  /** In a valid cache the forward map is the inverse of the reverse map, and nothing else. */
  lemma ValidIsInverse(fwd: ForwardIndex, rev: ReverseIndex)
    requires Valid(fwd, rev)
    ensures fwd == Inverse(rev)
  {
    forall s ensures Lookup(fwd, s) == Lookup(Inverse(rev), s) {
      assert forall p :: p in Lookup(fwd, s) <==> p in UsersOf(rev, s);
    }
    LookupExtensional(fwd, Inverse(rev));
  }

  // ---------------------------------------------------------------------
  // The forward-map updates of one (script, file) pair
  // ---------------------------------------------------------------------

  /** `addPrefabToScript`: `p` joins the files of `s`. */
  function WithPrefab(fwd: ForwardIndex, s: Script, p: PrefabPath): (r: ForwardIndex)
    ensures s in r && p in r[s]
    ensures s !in fwd ==> r[s] == {p}
    ensures forall t :: Lookup(r, t) == if t == s then Lookup(fwd, t) + {p} else Lookup(fwd, t)
    ensures forall t :: t != s ==> (t in r <==> t in fwd)
    ensures NoEmptySets(fwd) ==> NoEmptySets(r)
  {
    fwd[s := Lookup(fwd, s) + {p}]
  }

  /** `deletePrefabWithinScript`: `p` leaves the files of `s`; a script left with none is dropped. */
  function WithoutPrefab(fwd: ForwardIndex, s: Script, p: PrefabPath): (r: ForwardIndex)
    ensures s !in fwd ==> r == fwd
    ensures s in r ==> r[s] != {} && p !in r[s]
    ensures forall t :: Lookup(r, t) == if t == s then Lookup(fwd, t) - {p} else Lookup(fwd, t)
    ensures forall t :: t != s ==> (t in r <==> t in fwd)
    ensures NoEmptySets(fwd) ==> NoEmptySets(r)
  {
    var rest := Lookup(fwd, s) - {p};
    if rest == {} then fwd - {s} else fwd[s := rest]
  }

  // ---------------------------------------------------------------------
  // Recording and removing one container file
  // ---------------------------------------------------------------------

  /** The reverse map after file `p` was read as naming `scripts`; no scripts, no entry. */
  function Recorded(rev: ReverseIndex, p: PrefabPath, scripts: seq<Script>): (r: ReverseIndex)
    ensures scripts != [] ==> p in r && r[p] == scripts
    ensures scripts == [] ==> p !in r
    ensures forall q :: q != p ==> (q in r <==> q in rev) && (q in r ==> r[q] == rev[q])
    ensures WellFormedRev(rev) && NoDup(scripts) ==> WellFormedRev(r)
  {
    if scripts == [] then rev - {p} else rev[p := scripts]
  }

  /**
   * After recording, `p` is among the files of `s` exactly when `s` is one
   * of the new scripts, and the files of every script are otherwise as before.
   */
  lemma RecordedLookup(rev: ReverseIndex, p: PrefabPath, scripts: seq<Script>, s: Script)
    ensures Lookup(Inverse(Recorded(rev, p, scripts)), s)
         == if s in scripts then Lookup(Inverse(rev), s) + {p} else Lookup(Inverse(rev), s) - {p}
  {
    var r := Recorded(rev, p, scripts);
    forall q ensures q in UsersOf(r, s) <==> q in (if s in scripts then UsersOf(rev, s) + {p} else UsersOf(rev, s) - {p}) {
      if q == p {
        assert q in UsersOf(r, s) <==> s in scripts;
      } else {
        assert q in UsersOf(r, s) <==> q in UsersOf(rev, s);
      }
    }
  }

  /** After removing `p`, no script lists it, and the files of every script are otherwise as before. */
  lemma RemovedLookup(rev: ReverseIndex, p: PrefabPath, s: Script)
    ensures Lookup(Inverse(rev - {p}), s) == Lookup(Inverse(rev), s) - {p}
  {
    forall q ensures q in UsersOf(rev - {p}, s) <==> q in UsersOf(rev, s) - {p} {
    }
  }

  /** Recording the same scripts for a file twice is the same as recording them once. */
  lemma RecordIdempotent(rev: ReverseIndex, p: PrefabPath, scripts: seq<Script>)
    ensures Recorded(Recorded(rev, p, scripts), p, scripts) == Recorded(rev, p, scripts)
  {
  }

  /** Removing a file twice is the same as removing it once; removing an unknown file changes nothing. */
  lemma RemoveIdempotent(rev: ReverseIndex, p: PrefabPath)
    ensures (rev - {p}) - {p} == rev - {p}
    ensures p !in rev ==> rev - {p} == rev
  {
  }

  /** Recording {"A","B"} and then {"B","C"} for a file leaves it a user of "B" and "C", not of "A". */
  lemma RecordTwiceScenario()
    ensures var r := Recorded(Recorded(map[], "P", ["A", "B"]), "P", ["B", "C"]);
      && "P" !in Lookup(Inverse(r), "A")
      && "P" in Lookup(Inverse(r), "B")
      && "P" in Lookup(Inverse(r), "C")
  {
    var r0 := Recorded(map[], "P", ["A", "B"]);
    var r := Recorded(r0, "P", ["B", "C"]);
    RecordedLookup(r0, "P", ["B", "C"], "A");
    RecordedLookup(r0, "P", ["B", "C"], "B");
    RecordedLookup(r0, "P", ["B", "C"], "C");
  }

  /** Recording {"A"} for a file and then removing the file leaves "A" with no files. */
  lemma RecordRemoveScenario()
    ensures Lookup(Inverse(Recorded(map[], "P", ["A"]) - {"P"}), "A") == {}
  {
    var r0 := Recorded(map[], "P", ["A"]);
    RemovedLookup(r0, "P", "A");
    RecordedLookup(map[], "P", ["A"], "A");
  }

  // ---------------------------------------------------------------------
  // Recording a batch of files and replaying the queues
  // ---------------------------------------------------------------------

  /** The scripts file `p` names when the workspace holds `files`. */
  function ScriptsAt(files: PrefabPath -> Option<string>, matchExportNames: string -> seq<string>, p: PrefabPath): seq<Script>
  {
    ScriptsOf(files(p), matchExportNames)
  }

  /**
   * The reverse map after every file of `paths` was recorded, in any order:
   * each such file holds what it names now (no entry when it names nothing),
   * every other file keeps its entry.
   */
  function RecordedAll(rev: ReverseIndex, paths: set<PrefabPath>,
                       files: PrefabPath -> Option<string>, matchExportNames: string -> seq<string>): (r: ReverseIndex)
    ensures forall q :: q in r ==> q in rev || q in paths
    ensures forall q :: q in paths && ScriptsAt(files, matchExportNames, q) != [] ==> q in r
  {
    (rev - paths) + map p | p in paths && ScriptsAt(files, matchExportNames, p) != [] :: ScriptsAt(files, matchExportNames, p)
  }

  /** What `RecordedAll` holds for one file `q`. */
  lemma RecordedAllAt(rev: ReverseIndex, paths: set<PrefabPath>,
                      files: PrefabPath -> Option<string>, m: string -> seq<string>, q: PrefabPath)
    ensures var r := RecordedAll(rev, paths, files, m);
      && (q in paths ==> (q in r <==> ScriptsAt(files, m, q) != []) && (q in r ==> r[q] == ScriptsAt(files, m, q)))
      && (q !in paths ==> (q in r <==> q in rev) && (q in r ==> r[q] == rev[q]))
  {
  }

  /** Recording a batch keeps the reverse map well formed. */
  lemma RecordedAllWellFormed(rev: ReverseIndex, paths: set<PrefabPath>,
                              files: PrefabPath -> Option<string>, m: string -> seq<string>)
    requires WellFormedRev(rev)
    ensures WellFormedRev(RecordedAll(rev, paths, files, m))
  {
    forall q | q in RecordedAll(rev, paths, files, m)
      ensures RecordedAll(rev, paths, files, m)[q] != [] && NoDup(RecordedAll(rev, paths, files, m)[q])
    {
      RecordedAllAt(rev, paths, files, m, q);
    }
  }

  /** Recording nothing changes nothing. */
  lemma RecordedAllEmpty(rev: ReverseIndex, files: PrefabPath -> Option<string>, m: string -> seq<string>)
    ensures RecordedAll(rev, {}, files, m) == rev
  {
  }

  /** Recording one more file after a batch is recording the larger batch. */
  lemma RecordedAllStep(rev: ReverseIndex, paths: set<PrefabPath>, p: PrefabPath,
                        files: PrefabPath -> Option<string>, m: string -> seq<string>)
    ensures Recorded(RecordedAll(rev, paths, files, m), p, ScriptsAt(files, m, p))
         == RecordedAll(rev, paths + {p}, files, m)
  {
    var lhs := Recorded(RecordedAll(rev, paths, files, m), p, ScriptsAt(files, m, p));
    var rhs := RecordedAll(rev, paths + {p}, files, m);
    forall q ensures (q in lhs <==> q in rhs) && (q in lhs ==> lhs[q] == rhs[q]) {
      RecordedAllAt(rev, paths, files, m, q);
      RecordedAllAt(rev, paths + {p}, files, m, q);
    }
    assert lhs.Keys == rhs.Keys;
  }

  /** Recording a single file as a batch is recording it alone. */
  lemma RecordedAllSingle(rev: ReverseIndex, p: PrefabPath, files: PrefabPath -> Option<string>, m: string -> seq<string>)
    ensures RecordedAll(rev, {p}, files, m) == Recorded(rev, p, ScriptsAt(files, m, p))
  {
    RecordedAllStep(rev, {}, p, files, m);
  }

  /**
   * The outcome of a replay (remove the deleted files, then re-read the
   * changed ones) for one file: a file queued as changed holds what it names
   * now, even if it was also queued as deleted; a file only queued as deleted
   * ends up absent; any other file keeps its entry.
   */
  lemma ReplayOutcome(rev: ReverseIndex, changed: set<PrefabPath>, deleted: set<PrefabPath>,
                      files: PrefabPath -> Option<string>, m: string -> seq<string>, p: PrefabPath)
    ensures var r := RecordedAll(rev - deleted, changed, files, m);
      && (p in changed ==>
            (p in r <==> ScriptsAt(files, m, p) != []) && (p in r ==> r[p] == ScriptsAt(files, m, p)))
      && (p in deleted && p !in changed ==> p !in r)
      && (p !in changed && p !in deleted ==> (p in r <==> p in rev) && (p in r ==> r[p] == rev[p]))
  {
    RecordedAllAt(rev - deleted, changed, files, m, p);
  }

  /**
   * A file deleted and recreated while the cache was being built sits in both
   * queues; when it names a script, it is present after the replay.
   */
  lemma ReplayRecreated(rev: ReverseIndex, changed: set<PrefabPath>, deleted: set<PrefabPath>,
                        files: PrefabPath -> Option<string>, m: string -> seq<string>, p: PrefabPath)
    requires p in changed && p in deleted
    requires ScriptsAt(files, m, p) != []
    ensures p in RecordedAll(rev - deleted, changed, files, m)
  {
    ReplayOutcome(rev, changed, deleted, files, m, p);
  }
}
