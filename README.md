# Isolate hot-reload bookkeeping, in Dafny

This project models the bookkeeping in the Dart VM's `IsolateReloadContext`
(`runtime/vm/isolate_reload.cc`). That bookkeeping replaces the code of a running
isolate with newly loaded code. A reload attempt works in a fixed order:

1. `StartReload` checkpoints the isolate.
   - It records how many class ids the class table holds.
   - It sets the library registry aside, leaving live only the built-in
     ("dart:") libraries.
   - It detaches the root library.
   - It clears the compile-time constants cache.
2. `StartReload` then calls the embedder's loader for the root library's
   URL. The loader adds new classes at fresh class ids and new libraries to
   the registry. If it returns an error, the error is reported.
3. `FinishReload` pairs old with new:
   - each old class with the first new class that has the same name and
     library URL;
   - each saved non-dart library with the first live library that has the
     same URL.
4. `FinishReload` then checks every class pair with the object model's
   compatibility test.
   - If all pairs pass, it commits:
     - each old class and library is reloaded from its successor in place;
     - the successors' class-table slots are cleared and the new-id range
       is compacted;
     - the saved registry and root are made live again;
     - cached code is invalidated.
   - Otherwise it rolls back: the table is truncated to the checkpoint and
     the saved registry and root are restored.

The model is imperative. It uses four classes:

- `IsolateReload.IsolateReloadContext` holds the context's own fields: the
  saved class count, the saved registry and root, the error state, and the
  two remapping lists, which its loops append to.
- `ClassTables.ClassTable` holds a sequence of optional class descriptors,
  indexed by class id.
- `ObjectStores.ObjectStore` holds the live registry, the root library and
  the two caches a reload resets.
- `ObjectStores.Heap` holds the library objects and the objects a heap walk
  visits.

Library objects live in a map keyed by reference. The saved registry, the
live registry and the root library hold references into it. A library
reloaded in place is therefore seen through every registry that names it,
as in the VM.

Each method of the context is proved against specification functions of the
states it starts from:

- `Matching` holds the first-match searches and the remapping builders.
- `CommitSpec` holds the three commit loops and the validation predicate.
- `Invalidation` holds the marking visitor and `ResetICs`.

Lemmas state what those functions guarantee.

Things the C++ code takes from elsewhere become parameters:

- the loader's outcome (`LoaderResult`);
- the VM isolate's class count (`lowerCidBound`);
- `Class::CanReload` (`canReload`);
- for `ResetICs`, the deopt ids its code's descriptors list (`sites`).

Modelling assumptions for primitives whose bodies are not part of this model
are stated at their definitions:

- `Class::Reload` takes on the new class's shape and keeps name, library
  and id.
- `Library::Reload` takes on the new library's dictionary.
- `DropNewClasses(n)` truncates the table to `n` slots.
- `CompactNewClasses(n)` keeps the slots below `n` and packs the surviving
  classes at or above `n` in id order.
- `ClearCode` installs the lazy-compilation stub.
- `ICData::Reset` drops the recorded checks.

A loader error does not by itself cause a rollback: `FinishReload`
(`runtime/vm/isolate_reload.cc:89-100`) never reads `has_error_` and commits
whenever validation passes. The model follows the code.

## Model

| member | source | states |
|---|---|---|
| IsolateReload.IsolateReloadContext.constructor | runtime/vm/isolate_reload.cc:25-34 | a fresh context has no error, a saved class count of -1, no saved registry or root, and empty remapping lists |
| IsolateReload.IsolateReloadContext.ReportError | runtime/vm/isolate_reload.cc:41-50 | sets the error flag and stores the given error |
| IsolateReload.IsolateReloadContext.StartReload | runtime/vm/isolate_reload.cc:58-86 | leaves the checkpoint state CheckpointClassTable promises and nulls the compile-time constants; reports the loader's error exactly when the loader failed, and otherwise leaves the error state as it was |
| IsolateReload.IsolateReloadContext.FinishReload | runtime/vm/isolate_reload.cc:89-100 | appends the class and library maps the two builders define; commits exactly when every class pair passes `canReload` (table equal to the committed slots, libraries reloaded, caches invalidated) and otherwise rolls back (table truncated to the checkpoint, libraries, caches and heap objects untouched); in both branches the saved registry and root become live and are dropped |
| IsolateReload.IsolateReloadContext.CheckpointClassTable | runtime/vm/isolate_reload.cc:103-131 | the saved class count is the table size; the saved registry is the old registry; the live registry is its dart-scheme subsequence; the saved root is the old root and the live root is null |
| IsolateReload.IsolateReloadContext.RollbackClassTable | runtime/vm/isolate_reload.cc:134-153 | the table is its first saved-count slots; the saved registry and root become live when they are non-null; both saved fields end null |
| IsolateReload.IsolateReloadContext.CommitClassTable | runtime/vm/isolate_reload.cc:156-205 | the table equals the committed slots of its old state; the library objects equal the library reload of their old state; the saved registry and root become live when non-null and both saved fields end null; the megamorphic cache table is null and every heap object has been through the marking visitor |
| IsolateReload.IsolateReloadContext.ApplyMappings | runtime/vm/isolate_reload.cc:161-190 | after the three commit loops and the compaction, the table equals the committed slots of its old state and the library objects equal the library reload fold of theirs |
| IsolateReload.IsolateReloadContext.ReloadMappedClasses | runtime/vm/isolate_reload.cc:161-167 | the table after the first commit loop equals the class reload fold over the mappings |
| IsolateReload.IsolateReloadContext.ClearMappedClasses | runtime/vm/isolate_reload.cc:169-174 | the table after the second commit loop equals the old table with each mapped new id cleared |
| IsolateReload.IsolateReloadContext.ReloadMappedLibraries | runtime/vm/isolate_reload.cc:176-188 | the library objects after the third commit loop equal the library reload fold over the mappings |
| IsolateReload.IsolateReloadContext.RestoreSavedRegistry | runtime/vm/isolate_reload.cc:192-202 | the saved registry and root replace the live ones when non-null; both saved fields end null |
| IsolateReload.IsolateReloadContext.ValidateReload | runtime/vm/isolate_reload.cc:208-221 | changes nothing; returns true exactly when every class pair passes `canReload`; when it returns false the last pair it examined is the first that fails, and all pairs before it pass |
| IsolateReload.IsolateReloadContext.FindReplacementClassId | runtime/vm/isolate_reload.cc:224-255 | returns the first class id at or above the checkpoint whose slot holds a class with equal name and library URL, or -1 when there is none |
| IsolateReload.IsolateReloadContext.FindOriginalClass | runtime/vm/isolate_reload.cc:258-266 | returns the old class of the first mapping whose new id is the given id, or null when no mapping has it |
| IsolateReload.IsolateReloadContext.BuildClassIdMap | runtime/vm/isolate_reload.cc:269-286 | appends exactly the class map ClassIdMap defines over [lower bound, saved count) |
| IsolateReload.IsolateReloadContext.BuildLibraryIdMap | runtime/vm/isolate_reload.cc:300-317 | appends exactly the library map LibraryIdMap defines over the saved registry |
| IsolateReload.IsolateReloadContext.FindReplacementLibrary | runtime/vm/isolate_reload.cc:344-365 | returns the first non-null live registry index whose library has the URL of the given library, or -1 when there is none |
| IsolateReload.IsolateReloadContext.ResetMegamorphicCaches | runtime/vm/isolate_reload.cc:465-471 | the megamorphic cache table becomes null |
| IsolateReload.IsolateReloadContext.InvalidateWorld | runtime/vm/isolate_reload.cc:522-533 | the megamorphic cache table is null and the heap objects are the marking pass applied to their old state |
| Matching.FirstClassMatch | runtime/vm/isolate_reload.cc:236-254 | the result is -1 or an id in range holding a matching class with no matching class between the start and it; it is -1 exactly when no id in range holds a matching class |
| Matching.ClassEntry | runtime/vm/isolate_reload.cc:275-285 | one iteration of the BuildClassIdMap loop: no mapping for an empty slot or a class without replacement, otherwise the id paired with its first replacement; ClassIdMapAt and ClassIdMapComplete state what the entries mean |
| Matching.ClassIdMap | runtime/vm/isolate_reload.cc:274-286 | the BuildClassIdMap loop as a fold of ClassEntry over [lower, upper), in scan order; BuildClassIdMap is proved to append exactly it, and ClassIdMapCorrect states its contents |
| Matching.ClassIdMapCorrect | runtime/vm/isolate_reload.cc:269-292 | the class map has strictly ascending old ids; every old id lies in [lower, upper) and below the checkpoint; every new id is at or above it; both slots hold classes; the new id is the old class's first replacement and matches it; a valid old id in range is mapped exactly when it has a replacement |
| Matching.ClassIdMapAt | runtime/vm/isolate_reload.cc:274-286 | the k-th class mapping pairs a valid old id in [lower, upper) with its first replacement, a valid class id at or above the checkpoint |
| Matching.ClassIdMapAscending | runtime/vm/isolate_reload.cc:274-286 | old ids of the class map strictly ascend |
| Matching.ClassIdMapInRange | runtime/vm/isolate_reload.cc:274-292 | every class mapping has a valid old id below the checkpoint and a valid new id at or above it |
| Matching.ClassIdMapComplete | runtime/vm/isolate_reload.cc:274-286 | an id is an old id of the class map exactly when it lies in [lower, upper), its slot holds a class and that class has a replacement |
| Matching.FirstLibraryMatch | runtime/vm/isolate_reload.cc:353-364 | the result is -1 or a non-null live index whose library has the URL, with none before it; it is -1 exactly when no such index exists |
| Matching.LibraryEntry | runtime/vm/isolate_reload.cc:306-316 | one iteration of the BuildLibraryIdMap loop: no mapping for a dart-scheme library or one without a live URL match, otherwise the index paired with the first live index of that URL; LibraryIdMapAt and LibraryIdMapComplete state what the entries mean |
| Matching.LibraryIdMap | runtime/vm/isolate_reload.cc:305-317 | the BuildLibraryIdMap loop as a fold of LibraryEntry over the first n saved libraries, in scan order; BuildLibraryIdMap is proved to append exactly it, and LibraryIdMapCorrect states its contents |
| Matching.LibraryIdMapCorrect | runtime/vm/isolate_reload.cc:300-317 | the library map has strictly ascending old ids; no dart-scheme saved library is mapped; each new id is the first live index with an equal URL; a saved non-dart library is mapped exactly when such an index exists |
| Matching.LibraryIdMapAt | runtime/vm/isolate_reload.cc:305-317 | the k-th library mapping pairs a non-dart saved library with the first non-null live index of the same URL |
| Matching.LibraryIdMapAscending | runtime/vm/isolate_reload.cc:305-317 | old ids of the library map strictly ascend |
| Matching.LibraryIdMapInRange | runtime/vm/isolate_reload.cc:305-317 | every library mapping names a saved library and a non-null live library |
| Matching.LibraryIdMapComplete | runtime/vm/isolate_reload.cc:305-317 | a saved index is an old id of the library map exactly when its library is not dart-scheme and some live library has its URL |
| Matching.DartSchemeLibrariesInOrder | runtime/vm/isolate_reload.cc:116-122 | the checkpoint's live registry is the old registry at strictly ascending indices, and an index is kept exactly when its library is dart-scheme |
| Matching.DartSchemeLibraries | runtime/vm/isolate_reload.cc:116-122 | the registry the checkpoint keeps live is no longer than the old one, and every entry is a resolved dart-scheme library; its order is stated by DartSchemeLibrariesInOrder |
| Matching.FirstMappingTo | runtime/vm/isolate_reload.cc:259-265 | the result is -1 or the first mapping index from the start whose new id is the given id; it is -1 exactly when there is none |
| CommitSpec.AllReloadable | runtime/vm/isolate_reload.cc:208-221 | the predicate ValidateReload computes: `canReload` accepts the old and new class of every mapping |
| CommitSpec.CommittedSlots | runtime/vm/isolate_reload.cc:156-190 | the table the commit leaves is the compaction of the reloaded and cleared table: it keeps at least the checkpoint's slots and grows no longer than before; CommitClassTableEffect states its contents |
| CommitSpec.ReloadClasses | runtime/vm/isolate_reload.cc:161-167 | the first commit loop keeps the table size, which slots hold classes, and every slot at or above the checkpoint |
| CommitSpec.ClearClasses | runtime/vm/isolate_reload.cc:169-174 | the second commit loop keeps the table size |
| CommitSpec.ReloadClassesUnmapped | runtime/vm/isolate_reload.cc:161-167 | a slot no mapping names as its old id is unchanged by the class loop |
| CommitSpec.ReloadClassesMapped | runtime/vm/isolate_reload.cc:161-167 | with ascending old ids each mapped old slot ends holding its class reloaded from the class at its new id |
| CommitSpec.ReloadClassesEffect | runtime/vm/isolate_reload.cc:161-167 | with ascending old ids each mapped old slot holds its class reloaded from the class at its new id, and every unmapped slot is unchanged |
| CommitSpec.ClearClassesEffect | runtime/vm/isolate_reload.cc:169-174 | a slot is empty after the loop exactly when it is a mapped new id, and otherwise unchanged |
| CommitSpec.CommittedBelowCheckpoint | runtime/vm/isolate_reload.cc:161-190 | below the checkpoint the committed table holds the reloaded class at each mapped old id and the old slot at every other id |
| CommitSpec.CommittedAboveCheckpoint | runtime/vm/isolate_reload.cc:169-190 | at and above the checkpoint the committed table is the Survivors of the new-id slots with every mapped new id cleared, i.e. the new classes no mapping claimed, each once and in id order by SurvivorsInOrder |
| CommitSpec.CommitClassTableEffect | runtime/vm/isolate_reload.cc:156-190 | combines the two: mapped old ids take on their successor's shape, other old ids are untouched, and the unclaimed new classes follow packed |
| CommitSpec.CommitPreservesIdentity | runtime/vm/isolate_reload.cc:161-167 | below the checkpoint every id holds a class after the commit exactly when it did before, with the same name and library |
| CommitSpec.ReloadLibraries | runtime/vm/isolate_reload.cc:181-188 | the library loop allocates and frees no library object |
| CommitSpec.ReloadLibrariesEffect | runtime/vm/isolate_reload.cc:181-188 | without aliasing between mappings each mapped saved library is reloaded from its live counterpart and every other library object is unchanged |
| CommitSpec.LibraryIdMapUnaliased | runtime/vm/isolate_reload.cc:300-317 | when the saved registry names each library object once and no live entry is a non-dart saved library, the library map is in range and free of the aliasing ReloadLibrariesEffect excludes |
| CommitSpec.ReloadLibrariesUntouched | runtime/vm/isolate_reload.cc:181-188 | a library object no mapping reloads is unchanged by the library loop |
| CommitSpec.ReloadLibrariesMapped | runtime/vm/isolate_reload.cc:181-188 | without aliasing each mapped saved library ends reloaded from the live library its mapping names |
| ClassTables.ClassTable.ClearClassAt | runtime/vm/isolate_reload.cc:173 | clears exactly the given slot |
| ClassTables.ClassTable.DropNewClasses | runtime/vm/isolate_reload.cc:138 | truncates the table to its first n slots |
| ClassTables.ClassTable.CompactNewClasses | runtime/vm/isolate_reload.cc:190 | the table becomes its compaction above n |
| ClassTables.CompactedSlots | runtime/vm/isolate_reload.cc:190 | compaction keeps the slots below n and leaves no empty slot above n |
| ClassTables.Survivors | runtime/vm/isolate_reload.cc:190 | the kept slots are all classes, every class of the input is kept, and nothing else appears |
| ClassTables.SurvivorsInOrder | runtime/vm/isolate_reload.cc:190 | the kept slots are the input read at strictly ascending positions, and a position is read exactly when its slot holds a class, so each class is kept once and in id order |
| ReloadTypes.ReloadClass | runtime/vm/isolate_reload.cc:166 | a reloaded class keeps its name and library and takes the new class's shape |
| ReloadTypes.ReloadLibrary | runtime/vm/isolate_reload.cc:187 | a reloaded library keeps its URL and scheme and takes the new library's dictionary |
| Invalidation.ClearedForRecompilation | runtime/vm/isolate_reload.cc:497-505 | a cleared function keeps its name, points at a stub, has no IC data array and zero usage and deoptimization counters |
| Invalidation.VisitObject | runtime/vm/isolate_reload.cc:482-507 | the visitor leaves every non-function object as it is, keeps functions functions with their names, and leaves every function pointing at a stub |
| Invalidation.VisitObjectEffect | runtime/vm/isolate_reload.cc:482-507 | free-list elements, non-functions and functions on a stub are unchanged; any other function is cleared for recompilation; afterwards every function points at a stub |
| Invalidation.VisitObjectIdempotent | runtime/vm/isolate_reload.cc:482-507 | visiting an object twice equals visiting it once |
| Invalidation.MarkAll | runtime/vm/isolate_reload.cc:515-519 | the pass keeps the number of heap objects |
| Invalidation.MarkAllAt | runtime/vm/isolate_reload.cc:515-519 | the pass applies the visitor to each object at its own position |
| Invalidation.MarkAllIdempotent | runtime/vm/isolate_reload.cc:515-519 | marking the heap twice equals marking it once |
| Invalidation.MarkAllEffect | runtime/vm/isolate_reload.cc:482-519 | after the pass no function points at generated code; every function that did is cleared for recompilation; all other objects are unchanged |
| Invalidation.MarkAllFunctionsForRecompilation | runtime/vm/isolate_reload.cc:515-519 | the heap objects, visited in place in walk order, end equal to the marking pass applied to their old contents |
| Invalidation.ResetICData | runtime/vm/isolate_reload.cc:417 | states the assumption for `ICData::Reset`: the cache keeps its deopt id and has no recorded checks |
| Invalidation.ResetSites | runtime/vm/isolate_reload.cc:414-418 | the caches keep their number and their deopt ids; each cache at a listed call site has no recorded checks; every other cache is unchanged |
| Invalidation.ResetICs | runtime/vm/isolate_reload.cc:399-419 | with no IC data array the function is returned unchanged (the early exit); otherwise name, code and counters are kept, the caches keep their number and deopt ids, each cache at a listed site has no recorded checks, and every other cache is unchanged |
| Invalidation.ResetICsIdempotent | runtime/vm/isolate_reload.cc:399-419 | resetting the same sites twice equals resetting them once |
| Invalidation.ResetICsAfterMarking | runtime/vm/isolate_reload.cc:399-402 | a function the marking pass cleared is left unchanged by a later ResetICs |

## Left out

- The loader callback in `StartReload` is left out: the library tag handler, `TransitionVMToNative`, `Api::Scope` and `Block`/`UnblockClassFinalization`. These are calls into the embedder; the loader's outcome is an input.
- IsolateReload.IsolateReloadContext.StartReload: its ensures describe the state after the checkpoint and before the loader runs. In the program, `StartReload` itself calls the loader (`runtime/vm/isolate_reload.cc:76-80`), so it returns with new classes above the checkpoint and new libraries in the live registry. The loader is embedder code; the model takes only its outcome as an input, and `FinishReload` takes the resulting state as it finds it.
- Classes are values stored in class-table slots, not objects shared by reference. `Class::Reload` therefore changes only the slot it is applied to; a reloaded class is not seen through any other holder of the class object, as it would be in the VM.
- `ReportSuccess` and the service-event publication in `ReportError` are left out. They only notify an external observer.
- All tracing is left out: `fprintf`, `THR_Print`, `PrintNonDartClasses` and the printing loops in both map builders.
- The `ASSERT`s on mapping ids inside those printing loops are left out. They are debug-only checks.
- `DeoptimizeFunctionsOnStack` and the stack walk in `ResetUnoptimizedICsOnStack` are left out. These are VM internals over stack frames and object pools.
- `RestoreICDataMap` and the `PcDescriptors` iteration are abstracted. `ResetICs` takes the set of call-site deopt ids as a parameter.
- `ICData::Reset` is abstracted. It is assumed to drop the recorded checks whatever the call kind.
- The heap traversal (`VisitObjects`, `NoSafepointScope`) is modelled as a loop over an array of abstract heap objects.
- `VisitObjectPointers` and the other accessors are left out. They are GC plumbing and field getters and setters.
- The bodies of `Class::CanReload`, `Class::Reload`, `Library::Reload`, `ClassTable::DropNewClasses` and `ClassTable::CompactNewClasses` are not part of this model. Their assumed effects are listed above.
- `String::Equals` on a null URL is taken as equality of optional URLs.
- runtime/bin/crypto_fuchsia.cc (`GetRandomBytes`) is not part of this model. It only draws randomness from a foreign call.
- The script URI field and `test_mode_` have no bookkeeping in this file. `test_mode_` is kept as a constant of the context.
- ValidateReload: the point where it stops is stated through a ghost out-parameter, `checked`. That value is not part of the boolean the C++ function returns.
- CommitSpec.ReloadLibrariesEffect: the per-library result is proved only when no two mappings name the same library object, and no mapping reads an object another mapping writes. When aliasing exists, only the fold `ReloadLibraries` describes the outcome. `CommitSpec.LibraryIdMapUnaliased` shows that the map `BuildLibraryIdMap` builds meets this condition when the saved registry names each object once and no live entry is a non-dart saved library.

