/** What CommitClassTable does to the class table and to the library
    objects, as functions of the state it starts from, and what those
    functions guarantee. */
module CommitSpec {
  import opened ReloadTypes
  import opened ClassTables
  import opened ObjectStores
  import opened Matching

  // ------------------------------------------------------------- validation

  /** Every class mapping passes the object model's compatibility check. */
  predicate AllReloadable(slots: seq<Option<ClassDesc>>, m: seq<Remapping>, saved: int,
                          canReload: (ClassDesc, ClassDesc) -> bool)
    requires ClassMappingsInRange(m, slots, saved)
  {
    forall k :: 0 <= k < |m| ==> canReload(slots[m[k].oldId].value, slots[m[k].newId].value)
  }

  // ---------------------------------------------------------------- classes

  /** The first commit loop: for each mapping in turn, the class at the old
      id is reloaded from the class the table holds at the new id. */
  function ReloadClasses(slots: seq<Option<ClassDesc>>, m: seq<Remapping>, saved: int): (r: seq<Option<ClassDesc>>)
    requires ClassMappingsInRange(m, slots, saved) && 0 <= saved <= |slots|
    ensures |r| == |slots|
    ensures forall i :: 0 <= i < |slots| ==> (r[i].Some? <==> slots[i].Some?)
    ensures r[saved..] == slots[saved..]
    decreases |m|
  {
    if m == [] then slots
    else
      var prev := ReloadClasses(slots, m[..|m| - 1], saved);
      var last := m[|m| - 1];
      assert ClassMappingsInRange(m[..|m| - 1], slots, saved);
      prev[last.oldId := Some(ReloadClass(prev[last.oldId].value, prev[last.newId].value))]
  }

  /** The second commit loop: the slot at every mapping's new id is cleared. */
  function ClearClasses(slots: seq<Option<ClassDesc>>, m: seq<Remapping>): (r: seq<Option<ClassDesc>>)
    requires forall k :: 0 <= k < |m| ==> 0 <= m[k].newId < |slots|
    ensures |r| == |slots|
    decreases |m|
  {
    if m == [] then slots
    else ClearClasses(slots, m[..|m| - 1])[m[|m| - 1].newId := None]
  }

  /** The class table CommitClassTable leaves: reloaded, cleared, compacted. */
  function CommittedSlots(slots: seq<Option<ClassDesc>>, m: seq<Remapping>, saved: int): (r: seq<Option<ClassDesc>>)
    requires ClassMappingsInRange(m, slots, saved) && 0 <= saved <= |slots|
    ensures saved <= |r| <= |slots|
  {
    CompactedSlots(ClearClasses(ReloadClasses(slots, m, saved), m), saved)
  }

  /** A slot no mapping names as its old id keeps its value through the
      class loop. */
  lemma {:induction false} ReloadClassesUnmapped(slots: seq<Option<ClassDesc>>, m: seq<Remapping>, saved: int, i: int)
    requires ClassMappingsInRange(m, slots, saved) && 0 <= saved <= |slots| && 0 <= i < |slots|
    requires forall k :: 0 <= k < |m| ==> m[k].oldId != i
    ensures ReloadClasses(slots, m, saved)[i] == slots[i]
    decreases |m|
  {
    if m != [] {
      var init := m[..|m| - 1];
      assert ClassMappingsInRange(init, slots, saved);
      ReloadClassesUnmapped(slots, init, saved, i);
    }
  }

  /** With ascending old ids, the slot of each mapping's old id ends
      holding its class reloaded from the class at the new id. */
  lemma {:induction false} ReloadClassesMapped(slots: seq<Option<ClassDesc>>, m: seq<Remapping>, saved: int, k: int)
    requires ClassMappingsInRange(m, slots, saved) && StrictlyAscendingOldIds(m) && 0 <= saved <= |slots|
    requires 0 <= k < |m|
    ensures ReloadClasses(slots, m, saved)[m[k].oldId] ==
      Some(ReloadClass(slots[m[k].oldId].value, slots[m[k].newId].value))
    decreases |m|
  {
    var init := m[..|m| - 1];
    var last := m[|m| - 1];
    assert ClassMappingsInRange(init, slots, saved);
    if k == |m| - 1 {
      forall j | 0 <= j < |init| ensures init[j].oldId != last.oldId && init[j].oldId != last.newId {
        assert init[j] == m[j];
      }
      ReloadClassesUnmapped(slots, init, saved, last.oldId);
      ReloadClassesUnmapped(slots, init, saved, last.newId);
    } else {
      assert StrictlyAscendingOldIds(init) by {
        forall j | 0 <= j < |init| ensures init[j] == m[j] { }
      }
      ReloadClassesMapped(slots, init, saved, k);
      assert init[k] == m[k];
      assert m[k].oldId < last.oldId;
    }
  }

  /** With ascending old ids, each mapped old id holds its class reloaded
      from the class at its new id, and every other slot is untouched. */
  lemma {:induction false} ReloadClassesEffect(slots: seq<Option<ClassDesc>>, m: seq<Remapping>, saved: int)
    requires ClassMappingsInRange(m, slots, saved) && StrictlyAscendingOldIds(m) && 0 <= saved <= |slots|
    ensures forall k :: 0 <= k < |m| ==>
      ReloadClasses(slots, m, saved)[m[k].oldId] == Some(ReloadClass(slots[m[k].oldId].value, slots[m[k].newId].value))
    ensures forall i :: 0 <= i < |slots| && i !in OldIds(m) ==> ReloadClasses(slots, m, saved)[i] == slots[i]
  {
    forall k | 0 <= k < |m|
      ensures ReloadClasses(slots, m, saved)[m[k].oldId] == Some(ReloadClass(slots[m[k].oldId].value, slots[m[k].newId].value))
    {
      ReloadClassesMapped(slots, m, saved, k);
    }
    forall i | 0 <= i < |slots| && i !in OldIds(m)
      ensures ReloadClasses(slots, m, saved)[i] == slots[i]
    {
      forall k | 0 <= k < |m| ensures m[k].oldId != i {
        assert m[k].oldId in OldIds(m);
      }
      ReloadClassesUnmapped(slots, m, saved, i);
    }
  }

  /** Clearing sets exactly the mapped new ids to empty. */
  lemma {:induction false} ClearClassesEffect(slots: seq<Option<ClassDesc>>, m: seq<Remapping>)
    requires forall k :: 0 <= k < |m| ==> 0 <= m[k].newId < |slots|
    ensures forall i :: 0 <= i < |slots| ==>
      ClearClasses(slots, m)[i] == if i in NewIds(m) then None else slots[i]
    decreases |m|
  {
    if m != [] {
      var init := m[..|m| - 1];
      ClearClassesEffect(slots, init);
      forall i | 0 <= i < |slots|
        ensures ClearClasses(slots, m)[i] == if i in NewIds(m) then None else slots[i]
      {
        assert i in NewIds(m) <==> i in NewIds(init) || i == m[|m| - 1].newId by {
          if i in NewIds(m) {
            var k :| 0 <= k < |m| && m[k].newId == i;
            if k < |m| - 1 { assert init[k].newId == i; }
          }
          if i in NewIds(init) {
            var k :| 0 <= k < |init| && init[k].newId == i;
            assert m[k].newId == i;
          }
        }
      }
    }
  }

  /** The new-id range after the commit loops: every class the mappings
      did not claim, in id order. */
  function UnclaimedNewClasses(slots: seq<Option<ClassDesc>>, m: seq<Remapping>, saved: int): seq<Option<ClassDesc>>
    requires 0 <= saved <= |slots|
  {
    Survivors(seq(|slots| - saved, k requires 0 <= k < |slots| - saved =>
      if saved + k in NewIds(m) then None else slots[saved + k]))
  }

  /** Below the checkpoint a commit reloads exactly the mapped old ids. */
  lemma CommittedBelowCheckpoint(slots: seq<Option<ClassDesc>>, m: seq<Remapping>, saved: int)
    requires ClassMappingsInRange(m, slots, saved) && StrictlyAscendingOldIds(m) && 0 <= saved <= |slots|
    ensures var r := CommittedSlots(slots, m, saved);
      && saved <= |r|
      && (forall k :: 0 <= k < |m| ==>
            r[m[k].oldId] == Some(ReloadClass(slots[m[k].oldId].value, slots[m[k].newId].value)))
      && (forall i :: 0 <= i < saved && i !in OldIds(m) ==> r[i] == slots[i])
  {
    var reloaded := ReloadClasses(slots, m, saved);
    var cleared := ClearClasses(reloaded, m);
    ReloadClassesEffect(slots, m, saved);
    ClearClassesEffect(reloaded, m);
    var r := CompactedSlots(cleared, saved);
    assert forall i :: 0 <= i < saved ==> r[i] == r[..saved][i] == cleared[..saved][i] == cleared[i];
    assert forall i :: 0 <= i < saved ==> i !in NewIds(m);
  }

  /** Above the checkpoint a commit leaves the new classes no mapping
      claimed, packed in id order. */
  lemma CommittedAboveCheckpoint(slots: seq<Option<ClassDesc>>, m: seq<Remapping>, saved: int)
    requires ClassMappingsInRange(m, slots, saved) && 0 <= saved <= |slots|
    ensures var r := CommittedSlots(slots, m, saved);
      saved <= |r| && r[saved..] == UnclaimedNewClasses(slots, m, saved)
  {
    var reloaded := ReloadClasses(slots, m, saved);
    var cleared := ClearClasses(reloaded, m);
    ClearClassesEffect(reloaded, m);
    var tail := seq(|slots| - saved, k requires 0 <= k < |slots| - saved =>
      if saved + k in NewIds(m) then None else slots[saved + k]);
    forall k | 0 <= k < |slots| - saved
      ensures cleared[saved..][k] == tail[k]
    {
      assert reloaded[saved + k] == reloaded[saved..][k] == slots[saved..][k];
    }
    assert cleared[saved..] == tail;
    var r := CompactedSlots(cleared, saved);
    assert r == cleared[..saved] + Survivors(cleared[saved..]);
    assert r[saved..] == Survivors(cleared[saved..]);
  }

  /** What a commit does to the class table: every mapped old id takes on
      the shape of its new id's class and keeps its name and library; the
      other ids below the checkpoint are untouched; above the checkpoint
      the mapped new ids are gone and the remaining new classes follow in
      id order. */
  lemma CommitClassTableEffect(slots: seq<Option<ClassDesc>>, m: seq<Remapping>, saved: int)
    requires ClassMappingsInRange(m, slots, saved) && StrictlyAscendingOldIds(m) && 0 <= saved <= |slots|
    ensures var r := CommittedSlots(slots, m, saved);
      && saved <= |r|
      && (forall k :: 0 <= k < |m| ==>
            r[m[k].oldId] == Some(ReloadClass(slots[m[k].oldId].value, slots[m[k].newId].value)))
      && (forall i :: 0 <= i < saved && i !in OldIds(m) ==> r[i] == slots[i])
      && r[saved..] == UnclaimedNewClasses(slots, m, saved)
  {
    CommittedBelowCheckpoint(slots, m, saved);
    CommittedAboveCheckpoint(slots, m, saved);
  }

  /** A commit changes no identity: every id below the checkpoint holds a
      class after the commit exactly when it did before, with the same
      name and library; only its shape may differ. */
  lemma CommitPreservesIdentity(slots: seq<Option<ClassDesc>>, m: seq<Remapping>, saved: int)
    requires ClassMappingsInRange(m, slots, saved) && StrictlyAscendingOldIds(m) && 0 <= saved <= |slots|
    ensures var r := CommittedSlots(slots, m, saved);
      forall i :: 0 <= i < saved ==>
        && (r[i].Some? <==> slots[i].Some?)
        && (r[i].Some? ==> r[i].value.name == slots[i].value.name && r[i].value.libraryUrl == slots[i].value.libraryUrl)
  {
    CommitClassTableEffect(slots, m, saved);
    var r := CommittedSlots(slots, m, saved);
    forall i | 0 <= i < saved && i in OldIds(m)
      ensures r[i].Some? && slots[i].Some?
      ensures r[i].value.name == slots[i].value.name && r[i].value.libraryUrl == slots[i].value.libraryUrl
    {
      var k :| 0 <= k < |m| && m[k].oldId == i;
    }
  }

  // -------------------------------------------------------------- libraries

  /** The third commit loop: for each mapping in turn, the saved library at
      the old index is reloaded from the live library at the new index. */
  function ReloadLibraries(objs: map<LibRef, Library>, saved: seq<Option<LibRef>>, live: seq<Option<LibRef>>,
                           m: seq<Remapping>): (r: map<LibRef, Library>)
    requires LibraryMappingsInRange(m, saved, live, objs)
    ensures r.Keys == objs.Keys
    decreases |m|
  {
    if m == [] then objs
    else
      assert LibraryMappingsInRange(m[..|m| - 1], saved, live, objs);
      var prev := ReloadLibraries(objs, saved, live, m[..|m| - 1]);
      var last := m[|m| - 1];
      var ref := saved[last.oldId].value;
      prev[ref := ReloadLibrary(prev[ref], prev[live[last.newId].value])]
  }

  /** The objects the library loop writes: the saved libraries it maps. */
  function ReloadedRefs(saved: seq<Option<LibRef>>, m: seq<Remapping>): set<LibRef>
    requires forall k :: 0 <= k < |m| ==> 0 <= m[k].oldId < |saved| && saved[m[k].oldId].Some?
  {
    set k | 0 <= k < |m| :: saved[m[k].oldId].value
  }

  /** No two mappings reload the same library object, and no mapping reads
      from an object another mapping reloads. */
  predicate LibraryMappingsUnaliased(m: seq<Remapping>, saved: seq<Option<LibRef>>, live: seq<Option<LibRef>>)
    requires forall k :: 0 <= k < |m| ==> 0 <= m[k].oldId < |saved| && saved[m[k].oldId].Some?
    requires forall k :: 0 <= k < |m| ==> 0 <= m[k].newId < |live| && live[m[k].newId].Some?
  {
    && (forall k, l :: 0 <= k < l < |m| ==> saved[m[k].oldId] != saved[m[l].oldId])
    && (forall k, l :: 0 <= k < |m| && 0 <= l < |m| ==> live[m[k].newId] != saved[m[l].oldId])
  }

  /** The library map BuildLibraryIdMap builds is free of aliasing when
      the saved registry names each library object once and no live entry
      is a saved library outside the dart scheme (the checkpoint leaves
      only dart-scheme libraries live, and the loader adds new objects). */
  lemma LibraryIdMapUnaliased(saved: seq<Option<LibRef>>, live: seq<Option<LibRef>>, objs: map<LibRef, Library>, n: int)
    requires AllResolved(saved, objs) && ResolvedOrNull(live, objs) && 0 <= n <= |saved|
    requires forall i, j :: 0 <= i < j < |saved| ==> saved[i] != saved[j]
    requires forall i, j :: 0 <= i < |live| && 0 <= j < |saved| && !objs[saved[j].value].isDartScheme ==>
      live[i] != saved[j]
    ensures var m := LibraryIdMap(saved, live, objs, n);
      LibraryMappingsInRange(m, saved, live, objs) && LibraryMappingsUnaliased(m, saved, live)
  {
    LibraryIdMapCorrect(saved, live, objs, n);
  }

  /** A library object no mapping reloads keeps its value through the
      library loop. */
  lemma {:induction false} ReloadLibrariesUntouched(objs: map<LibRef, Library>, saved: seq<Option<LibRef>>,
                                                    live: seq<Option<LibRef>>, m: seq<Remapping>, ref: LibRef)
    requires LibraryMappingsInRange(m, saved, live, objs) && ref in objs
    requires forall k :: 0 <= k < |m| ==> saved[m[k].oldId] != Some(ref)
    ensures ReloadLibraries(objs, saved, live, m)[ref] == objs[ref]
    decreases |m|
  {
    if m != [] {
      var init := m[..|m| - 1];
      assert LibraryMappingsInRange(init, saved, live, objs);
      ReloadLibrariesUntouched(objs, saved, live, init, ref);
    }
  }

  /** Without aliasing, the saved library a mapping names ends reloaded
      from the live library that mapping names. */
  lemma {:induction false} ReloadLibrariesMapped(objs: map<LibRef, Library>, saved: seq<Option<LibRef>>,
                                                 live: seq<Option<LibRef>>, m: seq<Remapping>, k: int)
    requires LibraryMappingsInRange(m, saved, live, objs)
    requires LibraryMappingsUnaliased(m, saved, live)
    requires 0 <= k < |m|
    ensures ReloadLibraries(objs, saved, live, m)[saved[m[k].oldId].value] ==
      ReloadLibrary(objs[saved[m[k].oldId].value], objs[live[m[k].newId].value])
    decreases |m|
  {
    var init := m[..|m| - 1];
    var last := m[|m| - 1];
    assert LibraryMappingsInRange(init, saved, live, objs);
    if k == |m| - 1 {
      forall j | 0 <= j < |init|
        ensures saved[init[j].oldId] != Some(saved[last.oldId].value)
        ensures saved[init[j].oldId] != Some(live[last.newId].value)
      {
        assert init[j] == m[j];
      }
      ReloadLibrariesUntouched(objs, saved, live, init, saved[last.oldId].value);
      ReloadLibrariesUntouched(objs, saved, live, init, live[last.newId].value);
    } else {
      assert LibraryMappingsUnaliased(init, saved, live) by {
        forall j | 0 <= j < |init| ensures init[j] == m[j] { }
      }
      ReloadLibrariesMapped(objs, saved, live, init, k);
      assert init[k] == m[k];
      assert saved[m[k].oldId] != saved[last.oldId];
    }
  }

  /** Without aliasing, each mapped saved library takes on the dictionary
      of its live counterpart, and every other library object is as it was. */
  lemma ReloadLibrariesEffect(objs: map<LibRef, Library>, saved: seq<Option<LibRef>>,
                              live: seq<Option<LibRef>>, m: seq<Remapping>)
    requires LibraryMappingsInRange(m, saved, live, objs)
    requires LibraryMappingsUnaliased(m, saved, live)
    ensures forall k :: 0 <= k < |m| ==>
      ReloadLibraries(objs, saved, live, m)[saved[m[k].oldId].value] ==
        ReloadLibrary(objs[saved[m[k].oldId].value], objs[live[m[k].newId].value])
    ensures forall ref :: ref in objs && ref !in ReloadedRefs(saved, m) ==>
      ReloadLibraries(objs, saved, live, m)[ref] == objs[ref]
  {
    forall k | 0 <= k < |m|
      ensures ReloadLibraries(objs, saved, live, m)[saved[m[k].oldId].value] ==
        ReloadLibrary(objs[saved[m[k].oldId].value], objs[live[m[k].newId].value])
    {
      ReloadLibrariesMapped(objs, saved, live, m, k);
    }
    forall ref | ref in objs && ref !in ReloadedRefs(saved, m)
      ensures ReloadLibraries(objs, saved, live, m)[ref] == objs[ref]
    {
      forall k | 0 <= k < |m| ensures saved[m[k].oldId] != Some(ref) {
        assert saved[m[k].oldId].value in ReloadedRefs(saved, m);
      }
      ReloadLibrariesUntouched(objs, saved, live, m, ref);
    }
  }
}
