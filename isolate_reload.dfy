/** The state of one reload attempt and the operations that checkpoint the
    class table and library registry, match old classes and libraries to
    their successors, validate the matches, and commit or roll back. */
module IsolateReload {
  import opened ReloadTypes
  import opened ClassTables
  import opened ObjectStores
  import opened Matching
  import opened CommitSpec
  import Invalidation

  class IsolateReloadContext {
    /** The isolate's class table, object store and heap. */
    const classTable: ClassTable
    const objectStore: ObjectStore
    const heap: Heap
    const testMode: bool

    var hasError: bool
    var error: Option<Error>
    /** The class-table size at the checkpoint; -1 before it. */
    var savedNumCids: int
    /** The registry set aside at the checkpoint; None when there is none. */
    var savedLibraries: Option<seq<Option<LibRef>>>
    var savedRootLibrary: Option<LibRef>
    var classMappings: seq<Remapping>
    var libMappings: seq<Remapping>

    constructor (classTable: ClassTable, objectStore: ObjectStore, heap: Heap, testMode: bool)
      ensures this.classTable == classTable && this.objectStore == objectStore && this.heap == heap
      ensures this.testMode == testMode
      ensures !hasError && error.None? && savedNumCids == -1
      ensures savedLibraries.None? && savedRootLibrary.None?
      ensures classMappings == [] && libMappings == []
    {
      this.classTable := classTable;
      this.objectStore := objectStore;
      this.heap := heap;
      this.testMode := testMode;
      hasError := false;
      error := None;
      savedNumCids := -1;
      savedLibraries := None;
      savedRootLibrary := None;
      classMappings := [];
      libMappings := [];
    }

    /** The saved registry, or the empty registry when none is saved. */
    function SavedLibrariesOrEmpty(): seq<Option<LibRef>>
      reads this
    {
      if savedLibraries.Some? then savedLibraries.value else []
    }

    /** Records the error of this attempt. The notification sent to the
        service observer is not part of this model. */
    method ReportError(e: Error)
      modifies this`hasError, this`error
      ensures hasError && error == Some(e)
    {
      hasError := true;
      error := Some(e);
    }

    /** Begins an attempt: takes the checkpoint, clears the compile-time
        constants, and records the loader's error if it returned one. */
    method StartReload(result: LoaderResult)
      requires AllResolved(objectStore.libraries, heap.libraries)
      modifies this`savedNumCids, this`savedLibraries, this`savedRootLibrary, this`hasError, this`error
      modifies objectStore`libraries, objectStore`rootLibrary, objectStore`compileTimeConstants
      ensures savedNumCids == |classTable.slots|
      ensures savedLibraries == Some(old(objectStore.libraries))
      ensures objectStore.libraries == DartSchemeLibraries(old(objectStore.libraries), heap.libraries)
      ensures savedRootLibrary == old(objectStore.rootLibrary) && objectStore.rootLibrary.None?
      ensures objectStore.compileTimeConstants.None?
      ensures result.LoadFailed? ==> hasError && error == Some(result.error)
      ensures result.Loaded? ==> hasError == old(hasError) && error == old(error)
    {
      CheckpointClassTable();
      objectStore.compileTimeConstants := None;
      if result.LoadFailed? {
        ReportError(result.error);
      }
    }

    /** Finishes an attempt: builds both remappings, then commits when every
        class mapping passes `canReload` and rolls back otherwise. */
    method FinishReload(lowerCidBound: int, canReload: (ClassDesc, ClassDesc) -> bool)
      requires 0 <= lowerCidBound && 0 < savedNumCids <= |classTable.slots|
      requires savedLibraries.Some? && AllResolved(savedLibraries.value, heap.libraries)
      requires ResolvedOrNull(objectStore.libraries, heap.libraries)
      requires ClassMappingsInRange(classMappings, classTable.slots, savedNumCids)
      requires LibraryMappingsInRange(libMappings, savedLibraries.value, objectStore.libraries, heap.libraries)
      modifies this`classMappings, this`libMappings, this`savedLibraries, this`savedRootLibrary
      modifies classTable`slots, heap`libraries, heap.objects
      modifies objectStore`libraries, objectStore`rootLibrary, objectStore`megamorphicCacheTable
      ensures classMappings == old(classMappings) + ClassIdMap(old(classTable.slots), lowerCidBound, savedNumCids, savedNumCids)
      ensures libMappings == old(libMappings) + LibraryIdMap(old(savedLibraries.value), old(objectStore.libraries),
                                                             old(heap.libraries), |old(savedLibraries.value)|)
      ensures ClassMappingsInRange(classMappings, old(classTable.slots), savedNumCids)
      ensures LibraryMappingsInRange(libMappings, old(savedLibraries.value), old(objectStore.libraries), old(heap.libraries))
      ensures savedLibraries.None? && savedRootLibrary.None?
      ensures objectStore.libraries == old(savedLibraries.value)
      ensures objectStore.rootLibrary == if old(savedRootLibrary).Some? then old(savedRootLibrary) else old(objectStore.rootLibrary)
      ensures AllReloadable(old(classTable.slots), classMappings, savedNumCids, canReload) ==>
        && classTable.slots == CommittedSlots(old(classTable.slots), classMappings, savedNumCids)
        && heap.libraries == ReloadLibraries(old(heap.libraries), old(savedLibraries.value), old(objectStore.libraries), libMappings)
        && objectStore.megamorphicCacheTable.None?
        && heap.objects[..] == Invalidation.MarkAll(old(heap.objects[..]))
      ensures !AllReloadable(old(classTable.slots), classMappings, savedNumCids, canReload) ==>
        && classTable.slots == old(classTable.slots)[..savedNumCids]
        && heap.libraries == old(heap.libraries)
        && objectStore.megamorphicCacheTable == old(objectStore.megamorphicCacheTable)
        && heap.objects[..] == old(heap.objects[..])
    {
      ghost var slots0 := classTable.slots;
      ghost var saved0 := savedLibraries.value;
      BuildClassIdMap(lowerCidBound);
      ClassIdMapInRange(slots0, lowerCidBound, savedNumCids, savedNumCids);
      ClassMappingsInRangeConcat(old(classMappings), ClassIdMap(slots0, lowerCidBound, savedNumCids, savedNumCids),
                                 slots0, savedNumCids);
      BuildLibraryIdMap();
      LibraryIdMapInRange(saved0, objectStore.libraries, heap.libraries, |saved0|);
      LibraryMappingsInRangeConcat(old(libMappings), LibraryIdMap(saved0, objectStore.libraries, heap.libraries, |saved0|),
                                   saved0, objectStore.libraries, heap.libraries);
      var ok, checked := ValidateReload(canReload);
      if ok {
        CommitClassTable();
      } else {
        RollbackClassTable();
      }
    }

    /** Records the class-table size, sets the live registry aside in favour
        of its dart-scheme libraries, and detaches the root library. */
    method CheckpointClassTable()
      requires AllResolved(objectStore.libraries, heap.libraries)
      modifies this`savedNumCids, this`savedLibraries, this`savedRootLibrary
      modifies objectStore`libraries, objectStore`rootLibrary
      ensures savedNumCids == |classTable.slots|
      ensures savedLibraries == Some(old(objectStore.libraries))
      ensures objectStore.libraries == DartSchemeLibraries(old(objectStore.libraries), heap.libraries)
      ensures savedRootLibrary == old(objectStore.rootLibrary) && objectStore.rootLibrary.None?
    {
      savedNumCids := classTable.NumCids();

      var libs := objectStore.libraries;
      var newLibs: seq<Option<LibRef>> := [];
      var i := 0;
      while i < |libs|
        invariant 0 <= i <= |libs|
        invariant AllResolved(libs[..i], heap.libraries)
        invariant newLibs == DartSchemeLibraries(libs[..i], heap.libraries)
      {
        assert libs[..i + 1][..i] == libs[..i];
        var lib := heap.libraries[libs[i].value];
        if lib.isDartScheme {
          newLibs := newLibs + [libs[i]];
        }
        i := i + 1;
      }
      assert libs[..|libs|] == libs;
      savedLibraries := Some(libs);
      objectStore.libraries := newLibs;

      savedRootLibrary := objectStore.rootLibrary;
      objectStore.rootLibrary := None;
    }

    /** Discards the classes loaded since the checkpoint and makes the saved
        registry and root live again (each only if one was saved). */
    method RollbackClassTable()
      requires 0 < savedNumCids <= |classTable.slots|
      modifies classTable`slots, this`savedLibraries, this`savedRootLibrary
      modifies objectStore`libraries, objectStore`rootLibrary
      ensures classTable.slots == old(classTable.slots)[..savedNumCids]
      ensures objectStore.libraries == if old(savedLibraries).Some? then old(savedLibraries).value else old(objectStore.libraries)
      ensures objectStore.rootLibrary == if old(savedRootLibrary).Some? then old(savedRootLibrary) else old(objectStore.rootLibrary)
      ensures savedLibraries.None? && savedRootLibrary.None?
    {
      classTable.DropNewClasses(savedNumCids);
      RestoreSavedRegistry();
    }

    /** Reloads every mapped old class and saved library from its
        successor, removes the superseded classes, makes the saved registry
        and root live again and invalidates the cached code. */
    method CommitClassTable()
      requires 0 <= savedNumCids <= |classTable.slots|
      requires ClassMappingsInRange(classMappings, classTable.slots, savedNumCids)
      requires LibraryMappingsInRange(libMappings, SavedLibrariesOrEmpty(), objectStore.libraries, heap.libraries)
      modifies classTable`slots, heap`libraries, heap.objects, this`savedLibraries, this`savedRootLibrary
      modifies objectStore`libraries, objectStore`rootLibrary, objectStore`megamorphicCacheTable
      ensures classTable.slots == CommittedSlots(old(classTable.slots), classMappings, savedNumCids)
      ensures heap.libraries == ReloadLibraries(old(heap.libraries), old(SavedLibrariesOrEmpty()), old(objectStore.libraries), libMappings)
      ensures objectStore.libraries == if old(savedLibraries).Some? then old(savedLibraries).value else old(objectStore.libraries)
      ensures objectStore.rootLibrary == if old(savedRootLibrary).Some? then old(savedRootLibrary) else old(objectStore.rootLibrary)
      ensures savedLibraries.None? && savedRootLibrary.None?
      ensures objectStore.megamorphicCacheTable.None?
      ensures heap.objects[..] == Invalidation.MarkAll(old(heap.objects[..]))
    {
      ApplyMappings();
      RestoreSavedRegistry();
      InvalidateWorld();
    }

    /** The three commit loops and the compaction of the new-id range. */
    method ApplyMappings()
      requires 0 <= savedNumCids <= |classTable.slots|
      requires ClassMappingsInRange(classMappings, classTable.slots, savedNumCids)
      requires LibraryMappingsInRange(libMappings, SavedLibrariesOrEmpty(), objectStore.libraries, heap.libraries)
      modifies classTable`slots, heap`libraries
      ensures classTable.slots == CommittedSlots(old(classTable.slots), classMappings, savedNumCids)
      ensures heap.libraries == ReloadLibraries(old(heap.libraries), SavedLibrariesOrEmpty(), objectStore.libraries, libMappings)
    {
      ReloadMappedClasses();
      ClearMappedClasses();
      ReloadMappedLibraries();
      classTable.CompactNewClasses(savedNumCids);
    }

    /** The first commit loop: each mapped old class is reloaded from the
        class at its new id. */
    method ReloadMappedClasses()
      requires 0 <= savedNumCids <= |classTable.slots|
      requires ClassMappingsInRange(classMappings, classTable.slots, savedNumCids)
      modifies classTable`slots
      ensures classTable.slots == ReloadClasses(old(classTable.slots), classMappings, savedNumCids)
    {
      var m := classMappings;
      ghost var slots0 := classTable.slots;
      var i := 0;
      while i < |m|
        invariant 0 <= i <= |m|
        invariant ClassMappingsInRange(m[..i], slots0, savedNumCids)
        invariant classTable.slots == ReloadClasses(slots0, m[..i], savedNumCids)
      {
        assert m[..i + 1][..i] == m[..i];
        var cls := classTable.At(m[i].oldId);
        var newCls := classTable.At(m[i].newId);
        classTable.slots := classTable.slots[m[i].oldId := Some(ReloadClass(cls.value, newCls.value))];
        i := i + 1;
      }
      assert m[..|m|] == m;
    }

    /** The second commit loop: the slot at every mapping's new id is
        cleared. */
    method ClearMappedClasses()
      requires forall k :: 0 <= k < |classMappings| ==> 0 <= classMappings[k].newId < |classTable.slots|
      modifies classTable`slots
      ensures classTable.slots == ClearClasses(old(classTable.slots), classMappings)
    {
      var m := classMappings;
      ghost var slots0 := classTable.slots;
      var i := 0;
      while i < |m|
        invariant 0 <= i <= |m|
        invariant classTable.slots == ClearClasses(slots0, m[..i])
      {
        assert m[..i + 1][..i] == m[..i];
        classTable.ClearClassAt(m[i].newId);
        i := i + 1;
      }
      assert m[..|m|] == m;
    }

    /** The third commit loop: each mapped saved library is reloaded from
        the live library at its new index. */
    method ReloadMappedLibraries()
      requires LibraryMappingsInRange(libMappings, SavedLibrariesOrEmpty(), objectStore.libraries, heap.libraries)
      modifies heap`libraries
      ensures heap.libraries == ReloadLibraries(old(heap.libraries), SavedLibrariesOrEmpty(), objectStore.libraries, libMappings)
    {
      var libs := SavedLibrariesOrEmpty();
      var newLibs := objectStore.libraries;
      var lm := libMappings;
      ghost var objs0 := heap.libraries;
      var i := 0;
      while i < |lm|
        invariant 0 <= i <= |lm|
        invariant LibraryMappingsInRange(lm[..i], libs, newLibs, objs0)
        invariant heap.libraries == ReloadLibraries(objs0, libs, newLibs, lm[..i])
      {
        assert lm[..i + 1][..i] == lm[..i];
        var lib := heap.libraries[libs[lm[i].oldId].value];
        var newLib := heap.libraries[newLibs[lm[i].newId].value];
        heap.libraries := heap.libraries[libs[lm[i].oldId].value := ReloadLibrary(lib, newLib)];
        i := i + 1;
      }
      assert lm[..|lm|] == lm;
    }

    /** Shared tail of rollback and commit: the saved registry and root
        become live again when they were saved, and both are dropped. */
    method RestoreSavedRegistry()
      modifies this`savedLibraries, this`savedRootLibrary, objectStore`libraries, objectStore`rootLibrary
      ensures objectStore.libraries == if old(savedLibraries).Some? then old(savedLibraries).value else old(objectStore.libraries)
      ensures objectStore.rootLibrary == if old(savedRootLibrary).Some? then old(savedRootLibrary) else old(objectStore.rootLibrary)
      ensures savedLibraries.None? && savedRootLibrary.None?
    {
      if savedLibraries.Some? {
        objectStore.libraries := savedLibraries.value;
      }
      savedLibraries := None;

      if savedRootLibrary.Some? {
        objectStore.rootLibrary := savedRootLibrary;
      }
      savedRootLibrary := None;
    }

    /** True exactly when every class mapping passes `canReload`; changes
        nothing, and stops at the first mapping that fails (`checked` is
        the number of mappings it looked at). */
    method ValidateReload(canReload: (ClassDesc, ClassDesc) -> bool) returns (ok: bool, ghost checked: nat)
      requires ClassMappingsInRange(classMappings, classTable.slots, savedNumCids)
      ensures ok == AllReloadable(classTable.slots, classMappings, savedNumCids, canReload)
      ensures ok ==> checked == |classMappings|
      ensures !ok ==> (0 < checked <= |classMappings| &&
        var k := checked - 1;
        !canReload(classTable.slots[classMappings[k].oldId].value, classTable.slots[classMappings[k].newId].value))
      ensures forall k :: 0 <= k < checked - 1 ==>
        canReload(classTable.slots[classMappings[k].oldId].value, classTable.slots[classMappings[k].newId].value)
    {
      var i := 0;
      while i < |classMappings|
        invariant 0 <= i <= |classMappings|
        invariant forall k :: 0 <= k < i ==>
          canReload(classTable.slots[classMappings[k].oldId].value, classTable.slots[classMappings[k].newId].value)
      {
        var mapping := classMappings[i];
        var cls := classTable.At(mapping.oldId);
        var newCls := classTable.At(mapping.newId);
        if !canReload(cls.value, newCls.value) {
          return false, i + 1;
        }
        i := i + 1;
      }
      return true, i;
    }

    /** The first class id at or above the checkpoint whose class has the
        name and library URL of `cls`, or -1 when there is none. */
    method FindReplacementClassId(cls: ClassDesc) returns (cid: int)
      requires 0 <= savedNumCids <= |classTable.slots|
      ensures cid == FirstClassMatch(classTable.slots, savedNumCids, cls.name, cls.libraryUrl)
    {
      var upperCidBound := classTable.NumCids();
      var i := savedNumCids;
      while i < upperCidBound
        invariant savedNumCids <= i <= upperCidBound
        invariant FirstClassMatch(classTable.slots, savedNumCids, cls.name, cls.libraryUrl) ==
                  FirstClassMatch(classTable.slots, i, cls.name, cls.libraryUrl)
      {
        if !classTable.HasValidClassAt(i) {
          i := i + 1;
          continue;
        }
        var newClass := classTable.At(i).value;
        if cls.name != newClass.name {
          i := i + 1;
          continue;
        }
        if newClass.libraryUrl != cls.libraryUrl {
          i := i + 1;
          continue;
        }
        return i;
      }
      return -1;
    }

    /** The old class of the first class mapping whose new id is `cid`, or
        None (the null class) when no mapping has that new id. */
    method FindOriginalClass(cid: int) returns (cls: Option<ClassDesc>)
      requires forall k :: 0 <= k < |classMappings| ==> 0 <= classMappings[k].oldId < |classTable.slots|
      ensures var k := FirstMappingTo(classMappings, cid, 0);
        cls == if k == -1 then None else classTable.slots[classMappings[k].oldId]
    {
      var i := 0;
      while i < |classMappings|
        invariant 0 <= i <= |classMappings|
        invariant FirstMappingTo(classMappings, cid, 0) == FirstMappingTo(classMappings, cid, i)
      {
        var mapping := classMappings[i];
        if mapping.newId == cid {
          return classTable.At(mapping.oldId);
        }
        i := i + 1;
      }
      return None;
    }

    /** Appends a mapping for every class in [lowerCidBound, savedNumCids)
        that has a replacement, in id order. */
    method BuildClassIdMap(lowerCidBound: int)
      requires 0 <= lowerCidBound && 0 <= savedNumCids <= |classTable.slots|
      modifies this`classMappings
      ensures classMappings == old(classMappings) + ClassIdMap(classTable.slots, lowerCidBound, savedNumCids, savedNumCids)
    {
      var i := lowerCidBound;
      while i < savedNumCids
        invariant lowerCidBound <= i && (i <= savedNumCids || i == lowerCidBound)
        invariant classMappings == old(classMappings) +
          ClassIdMap(classTable.slots, lowerCidBound, if i <= savedNumCids then i else savedNumCids, savedNumCids)
      {
        if !classTable.HasValidClassAt(i) {
          i := i + 1;
          continue;
        }
        var cls := classTable.At(i).value;
        var newId := FindReplacementClassId(cls);
        if newId == -1 {
          i := i + 1;
          continue;
        }
        classMappings := classMappings + [Remapping(i, newId)];
        i := i + 1;
      }
    }

    /** Appends a mapping for every saved library that is not a dart-scheme
        library and has a live successor, in registry order. */
    method BuildLibraryIdMap()
      requires savedLibraries.Some? && AllResolved(savedLibraries.value, heap.libraries)
      requires ResolvedOrNull(objectStore.libraries, heap.libraries)
      modifies this`libMappings
      ensures libMappings == old(libMappings) +
        LibraryIdMap(savedLibraries.value, objectStore.libraries, heap.libraries, |savedLibraries.value|)
    {
      var savedLibs := savedLibraries.value;
      var i := 0;
      while i < |savedLibs|
        invariant 0 <= i <= |savedLibs|
        invariant libMappings == old(libMappings) + LibraryIdMap(savedLibs, objectStore.libraries, heap.libraries, i)
      {
        var lib := heap.libraries[savedLibs[i].value];
        if lib.isDartScheme {
          i := i + 1;
          continue;
        }
        var newId := FindReplacementLibrary(lib);
        if newId == -1 {
          i := i + 1;
          continue;
        }
        libMappings := libMappings + [Remapping(i, newId)];
        i := i + 1;
      }
    }

    /** The first live registry index holding a library with the URL of
        `lib`, or -1 when there is none; null entries are skipped. */
    method FindReplacementLibrary(lib: Library) returns (index: int)
      requires ResolvedOrNull(objectStore.libraries, heap.libraries)
      ensures index == FirstLibraryMatch(objectStore.libraries, heap.libraries, 0, lib.url)
    {
      var libs := objectStore.libraries;
      var i := 0;
      while i < |libs|
        invariant 0 <= i <= |libs|
        invariant FirstLibraryMatch(libs, heap.libraries, 0, lib.url) == FirstLibraryMatch(libs, heap.libraries, i, lib.url)
      {
        if libs[i].None? {
          i := i + 1;
          continue;
        }
        var newLib := heap.libraries[libs[i].value];
        if lib.url == newLib.url {
          return i;
        }
        i := i + 1;
      }
      return -1;
    }

    /** Drops the table of megamorphic caches. */
    method ResetMegamorphicCaches()
      modifies objectStore`megamorphicCacheTable
      ensures objectStore.megamorphicCacheTable.None?
    {
      objectStore.megamorphicCacheTable := None;
    }

    /** The cache resets that follow a commit, without the passes over the
        call stack. */
    method InvalidateWorld()
      modifies objectStore`megamorphicCacheTable, heap.objects
      ensures objectStore.megamorphicCacheTable.None?
      ensures heap.objects[..] == Invalidation.MarkAll(old(heap.objects[..]))
    {
      ResetMegamorphicCaches();
      Invalidation.MarkAllFunctionsForRecompilation(heap.objects);
    }
  }
}
