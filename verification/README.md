# Unity: Find TS In Prefabs — cache model

This project is a Dafny model of the in-memory cache kept by a VS Code
extension. The extension answers "which prefab and scene files use this
TypeScript script?". To answer it, the extension keeps a many-to-many index
between script export names and container files (`.prefab` / `.unity`):

- `ScriptWithinPrefabs` maps a script name to the files that name it. This
  is the forward map, used for lookups.
- `PrefabDependOnScripts` maps a file to the scripts it names. This is the
  reverse map, used to update the cache when one file changes.

A flag `cacheIsBuilt` and two pending sets hold back file-watcher events
while a build runs. The build replays them when it completes.

The model has three modules:

- `Helpers` (helpers.dfy) holds the pure helpers:
  - the two-way difference `diffWithTwoSets`;
  - the prefab/scene extension test `uriIsPrefabFile`, with Node's POSIX
    `path.extname` written out;
  - the script-set fill loop of `readAllScriptsFromDocument`.
- `CacheModel` (cache_model.dfy) specifies the two maps as values:
  - the invariant `Valid`: the maps are exact inverses, and no key holds an
    empty set or list;
  - the proof that a valid forward map is determined by the reverse map
    (`Inverse`, `ValidIsInverse`);
  - what recording or removing one file does, and what recording a whole
    batch does (`Recorded`, `RecordedAll`).
- `Extension` (extension.dfy) is the imperative state of `src/extension.ts`.
  The class `PrefabCache` holds the two maps, the two pending sets and the
  flag. Its methods mirror the source's functions step by step, including
  the `forEach` loops and the build loop. Each method's `ensures` ties the
  new reverse map to `Recorded`/`RecordedAll` of the old one and keeps
  `Valid()`.

The reverse map's values are sequences without duplicates, not sets. A
JavaScript `Set` iterates in insertion order, and that order decides the
order of `diffWithTwoSets`' output. The forward map's values are plain sets.

The file system is a parameter `files`, which gives a path's text, or None
when reading fails. The export-name regular expression is the class constant
`matchExportNames`, which gives the tokens captured in a text.

## Model

| member | source | states |
|---|---|---|
| Helpers.NotIn | src/helpers.ts:15-16 | the filter keeps exactly the elements of `s` that are not in `other`; it never grows and keeps "no duplicates" |
| Helpers.NotInConcat | src/helpers.ts:15-16 | filtering distributes over concatenation, i.e. the filter keeps the order of its input |
| Helpers.NotInSingleton | src/helpers.ts:15-16 | a single element is kept exactly when it is not in `other` |
| Helpers.NotInCovered | src/helpers.ts:15-16 | filtering by a list that contains every element leaves nothing |
| Helpers.DiffWithTwoSets | src/helpers.ts:13-18 | `deleted` is exactly left-minus-right and `added` exactly right-minus-left; the two are disjoint and duplicate-free |
| Helpers.DiffSelf | src/helpers.ts:13-18 | comparing a set with itself gives two empty lists |
| Helpers.DiffReconstructs | src/helpers.ts:13-18 | applying the diff to `left` gives `right`: (left − deleted) ∪ added = right |
| Helpers.DiffExample | src/helpers.ts:13-18 | {A,B} against {B,C} gives deleted [A] and added [C] |
| Helpers.LastIndexOf | src/helpers.ts:26 | the index found holds `c` and no later index does; -1 means absent |
| Helpers.TrimTrailingSlashes | src/helpers.ts:26 | the result is the path with exactly its trailing `/` characters cut: a prefix that does not end in `/`, followed in the path only by `/` |
| Helpers.BaseName | src/helpers.ts:26 | the last segment is the part of the trimmed path after its last `/` (or all of it): a suffix without a separator, preceded by `/` when shorter |
| Helpers.SegmentExt | src/helpers.ts:26 | the extension of a segment is empty, or one dot followed by dot-free characters that end the segment after a non-empty name |
| Helpers.SegmentExtIs | src/helpers.ts:26 | for an extension made of one dot and dot-free characters, a segment's extension is it exactly when the segment ends with it after a non-empty name |
| Helpers.PrefabSegment | src/helpers.ts:25-28 | a segment's extension is `.prefab` or `.unity` exactly when the segment ends in one of them after a non-empty name |
| Helpers.ExtName | src/helpers.ts:26 | Node's POSIX `path.extname`: empty, or a dot and dot-free characters that end the last segment after a non-empty name |
| Helpers.UriIsPrefabFile | src/helpers.ts:25-28 | the test holds exactly when the last segment ends in `.prefab` or `.unity` (case-sensitive, consts.ts 7-11) after a non-empty name |
| Helpers.Dedup | src/helpers.ts:47-49 | repeated `Set.add` yields a duplicate-free list with the same elements |
| Helpers.DedupAppends | src/helpers.ts:47-49 | later additions only append: the distinct elements of a prefix come first, in their first-occurrence order |
| Helpers.ScriptsOf | src/helpers.ts:35-54 | a failed read or an empty text gives no scripts; otherwise the scripts are exactly the captured tokens, each once |
| Helpers.ReadAllScriptsFromDocument | src/helpers.ts:44-53 | the fill loop returns the script list `ScriptsOf` specifies |
| CacheModel.Lookup | src/extension.ts:366-374 | in a map without empty sets the answer for a script is empty exactly when the script is not a key, so `has` at 366 decides "no files found" before the `get` at 274 |
| CacheModel.Inverse | src/extension.ts:17-29 | the forward map determined by a reverse map: script `s` maps to exactly the files naming `s`, with no empty set |
| CacheModel.LookupExtensional | src/extension.ts:17-29 | two forward maps without empty sets are equal when every lookup agrees |
| CacheModel.InverseValid | src/extension.ts:17-29 | a well-formed reverse map and its inverse form a valid cache |
| CacheModel.ValidIsInverse | src/extension.ts:17-29 | in a valid cache the forward map is the inverse of the reverse map |
| CacheModel.WithPrefab | src/extension.ts:81-87 | afterwards `p` is among the files of `s`; a new key is created as {p}; every other key is unchanged; no empty set appears |
| CacheModel.WithoutPrefab | src/extension.ts:95-106 | an unknown script is a no-op; otherwise `p` leaves the files of `s`, the key goes when its set empties, and other keys are unchanged |
| CacheModel.Recorded | src/extension.ts:123-127 | after a record the file holds its scripts, or has no entry when there are none; other files are unchanged; well-formedness is kept |
| CacheModel.RecordedLookup | src/extension.ts:112-128 | after recording `p`, for every script `s`, `p` is a user of `s` iff `s` is among the new scripts; other users of `s` are unchanged |
| CacheModel.RemovedLookup | src/extension.ts:135-146 | after removing `p`, no script lists `p`, and every other user is kept |
| CacheModel.RecordIdempotent | src/extension.ts:114-127 | recording the same scripts twice equals recording them once |
| CacheModel.RemoveIdempotent | src/extension.ts:136-141 | removing twice equals removing once; removing an unknown file changes nothing |
| CacheModel.RecordTwiceScenario | src/extension.ts:112-128 | a file re-read from {A,B} to {B,C} is a user of B and C and no longer of A |
| CacheModel.RecordRemoveScenario | src/extension.ts:135-146 | recording {A} and then removing the file leaves A with no files |
| CacheModel.RecordedAll | src/extension.ts:189-191 | after a batch only the old files and the batch's files have entries, and every batch file that names a script has one |
| CacheModel.RecordedAllAt | src/extension.ts:189-191 | after a batch every recorded file holds what it names now and every other file keeps its entry |
| CacheModel.RecordedAllWellFormed | src/extension.ts:189-191 | a batch keeps the reverse map well formed |
| CacheModel.RecordedAllEmpty | src/extension.ts:189-191 | an empty batch changes nothing |
| CacheModel.RecordedAllStep | src/extension.ts:189-191 | one more sequential record after a batch is the larger batch, so the closed form matches the loop in any order |
| CacheModel.RecordedAllSingle | src/extension.ts:239 | a batch of one file is a single record |
| CacheModel.ReplayOutcome | src/extension.ts:50-65 | after the replay (removals first, then re-reads), a file queued as changed holds what it names now, even if it was also queued as deleted; a file only queued as deleted is absent; others are unchanged |
| CacheModel.ReplayRecreated | src/extension.ts:227-231 | a file deleted and recreated during a build, and so in both queues, is present after the replay when it names a script |
| Extension.Spread | src/extension.ts:55 | `[...set]` lists each element of the set exactly once |
| Extension.PrefabCache.constructor | src/extension.ts:23-44 | the state at activation: empty maps and queues, not built, valid |
| Extension.PrefabCache.SetAsBuildingCache | src/extension.ts:46-48 | the flag becomes not-built and nothing else changes |
| Extension.PrefabCache.Reset | src/extension.ts:70-74 | both maps become empty and the flag not-built; the pending sets are kept; the cache is valid |
| Extension.PrefabCache.AddPrefabToScript | src/extension.ts:81-87 | the forward map becomes `WithPrefab` of the old one |
| Extension.PrefabCache.DeletePrefabWithinScript | src/extension.ts:95-106 | the forward map becomes `WithoutPrefab` of the old one |
| Extension.PrefabCache.DeletePrefabWithinScripts | src/extension.ts:116-118 | after the loop, `path` has left the files of exactly the listed scripts; no empty set appears |
| Extension.PrefabCache.AddPrefabToScripts | src/extension.ts:119-121 | after the loop, `path` has joined the files of exactly the listed scripts; no empty set appears |
| Extension.PrefabCache.ReadDocumentAndUpdateCache | src/extension.ts:112-128 | the reverse map becomes `Recorded` of the old one with the file's current scripts; the forward map is its inverse; validity is kept |
| Extension.PrefabCache.UpdateCacheWhenDeleteDocument | src/extension.ts:135-146 | the file's entry is removed, the forward map is the inverse of the result, validity is kept, and an unknown file leaves both maps unchanged |
| Extension.PrefabCache.SetAsBuiltCache | src/extension.ts:50-65 | the flag becomes built, both queues end empty, and the reverse map is the old one with the deleted files removed and then the changed files re-read |
| Extension.PrefabCache.UpdateCacheWhenDeleteDocuments | src/extension.ts:59-63 | the loop over the deleted queue removes exactly those files and keeps validity |
| Extension.PrefabCache.UpdateCacheWithUris | src/extension.ts:153-200 | flips the flag to not-built, records every given file (loop 189-191), then replays the queues: the result is a batch over the given files, minus the queued deleted files, then a batch over the queued changed files; the cache ends built and valid |
| Extension.PrefabCache.BuildCache | src/extension.ts:205-211 | starting from empty maps, the result is a batch over every listed file, minus the queued deletions, then a batch over the queued changes |
| Extension.PrefabCache.UpgradeCacheWhenPrefabChange | src/extension.ts:219-241 | a non-prefab path changes nothing; while not built the path only joins the delete or the change queue and the maps are untouched; when built a delete removes the file at once and a change re-reads it; validity and drained queues are kept |
| Extension.RecordMatchesDiff | src/extension.ts:114-127 | moving the forward map by the diff of old and new scripts yields the inverse of the recorded reverse map |
| Extension.DiffLookupAt | src/extension.ts:114-121 | for one script, applying the diff to its set of files gives its set in the inverse of the recorded reverse map |
| Extension.BatchStep | src/extension.ts:189-191 | one more iteration of the build loop extends the batch by the next file |
| Extension.BatchThenReplay | src/extension.ts:189-197 | the build loop followed by the replay is a batch over the given files, minus the deletions, then a batch over the queued changes |
| Extension.SingleChange | src/extension.ts:239 | a live change of one file, with both queues empty, is a single record of it |
| Extension.ReplayAfterRemovals | src/extension.ts:55 | the nested re-read, started when both queues are empty, is one batch over the changed files |
| Extension.RemoveMatchesLoop | src/extension.ts:140-145 | removing `path` from the files of each script it named yields the inverse of the reduced reverse map |

## Left out

- The VS Code user interface is not modelled: the quick pick, the command
  handler in `activate`, the clipboard, reveal-in-explorer, progress
  reporting, console timing and messages. This is host UI with no effect on
  the cache.
- Workspace enumeration (`vscode.workspace.findFiles`, `glob`, the
  `uris == null` branch of `updateCacheWithUris`) and the file watcher are
  not modelled. They are I/O. The list of files is the parameter `allUris`
  of `BuildCache`, and each watcher event is a call of
  `UpgradeCacheWhenPrefabChange`.
- File reading and regular-expression matching are parameters. The file
  system is the function `files`, fixed for the duration of one operation.
  The pattern is the function `matchExportNames`.
- The source calls `matchAll` with a regular expression that carries only
  the `i` flag. Under ECMAScript, `matchAll` throws a TypeError for a
  non-global pattern. The model does not claim any particular extraction
  and takes whatever tokens `matchExportNames` yields. `matchExportNames`
  never fails, so the outcome of such a throw is not captured: it would
  reject `readDocumentAndUpdateCache`, abort the loop at 189-191 before
  `setAsBuiltCache`, and leave the flag at not-built.
- Asynchronous interleaving is not modelled. Every record, remove and
  replay is one sequential, atomic step.
- SetAsBuiltCache calls `UpdateCacheWithUris` last, after it has cleared
  the queue of changed files and removed the deleted files. The source makes
  the call at extension.ts:55, before the clear at 56 and the removals at
  59-64. It does not await the call, and the call's loop (189-191) only
  starts after an `await`, so every re-read and the nested
  `setAsBuiltCache` run after lines 56-64. The model follows that order.
  The part of the call before its first `await` (the flag set to not-built
  at 161) may run before line 56 in the source; the model sets the flag when
  the re-read starts. The flag does not affect the maps here.
- `vscode.Uri` identity in the pending sets is not modelled: paths stand
  for Uris. Two Uri objects for one path are one entry here; record and
  remove are idempotent, so this does not change the maps.
- `uri.fsPath` and `uri.path` are both the path string. Windows drive
  letters and back-slash separators are not modelled: `ExtName` is Node's
  POSIX `path.extname`.
- Set iteration order for the pending sets is not modelled: the model picks
  an arbitrary element. `SetAsBuiltCache` and `UpdateCacheWhenDeleteDocuments`
  are proved to give the same maps whatever the order.
- Insertion order within the forward map's sets is not modelled. It only
  reaches the quick pick.
- `src/settings.ts`, the remaining constants of `src/consts.ts`,
  `getNameOfActiveScriptFile`, `getFileNameOfScriptFile` and `deactivate`
  are not part of this model. They are thin wrappers over host APIs and
  editor state.
- The two pending sets are not kept mutually exclusive (extension.ts:227-231).
  A path deleted and then recreated during a build sits in both. The replay
  removes it and then re-reads it, so it ends present when it names a script
  (`ReplayRecreated`).
