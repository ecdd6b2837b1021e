/** The identity matcher and the remapping builders, as functions of the
    class table's slots and the library registries. The methods of the
    reload context are proved to compute exactly these. */
module Matching {
  import opened ReloadTypes
  import opened ObjectStores

  // ---------------------------------------------------------------- classes

  /** The slot holds a class called `name` whose library has URL `url`. */
  predicate IsReplacementFor(slot: Option<ClassDesc>, name: string, url: Option<string>)
  {
    slot.Some? && slot.value.name == name && slot.value.libraryUrl == url
  }

  /** The first class id at or above `from` that holds a class with the
      same name and library URL, or -1 if there is none. */
  function FirstClassMatch(slots: seq<Option<ClassDesc>>, from: int, name: string, url: Option<string>): (r: int)
    requires 0 <= from <= |slots|
    ensures r == -1 || from <= r < |slots|
    ensures r == -1 <==> forall j :: from <= j < |slots| ==> !IsReplacementFor(slots[j], name, url)
    ensures r != -1 ==> IsReplacementFor(slots[r], name, url)
    ensures r != -1 ==> forall j :: from <= j < r ==> !IsReplacementFor(slots[j], name, url)
    decreases |slots| - from
  {
    if from == |slots| then -1
    else if IsReplacementFor(slots[from], name, url) then from
    else FirstClassMatch(slots, from + 1, name, url)
  }

  /** The replacement id of the class at `cid`, searched among the ids at
      or above `saved`. */
  function ReplacementOf(slots: seq<Option<ClassDesc>>, cid: int, saved: int): int
    requires 0 <= cid < |slots| && slots[cid].Some?
    requires 0 <= saved <= |slots|
  {
    FirstClassMatch(slots, saved, slots[cid].value.name, slots[cid].value.libraryUrl)
  }

  /** The mapping BuildClassIdMap adds for the id `cid`, if any. */
  function ClassEntry(slots: seq<Option<ClassDesc>>, cid: int, saved: int): (r: seq<Remapping>)
    requires 0 <= cid < |slots| && 0 <= saved <= |slots|
  {
    if slots[cid].None? then []
    else
      var r := ReplacementOf(slots, cid, saved);
      if r == -1 then [] else [Remapping(cid, r)]
  }

  /** The class mappings for the old ids in [lower, upper), in scan order. */
  function ClassIdMap(slots: seq<Option<ClassDesc>>, lower: int, upper: int, saved: int): (r: seq<Remapping>)
    requires 0 <= lower && upper <= |slots| && 0 <= saved <= |slots|
    decreases upper - lower
  {
    if upper <= lower then []
    else ClassIdMap(slots, lower, upper - 1, saved) + ClassEntry(slots, upper - 1, saved)
  }

  /** The class mappings Validate and Commit may act on: each old id is a
      class below the checkpoint, each new id a class at or above it. */
  predicate ClassMappingsInRange(m: seq<Remapping>, slots: seq<Option<ClassDesc>>, saved: int)
  {
    forall k :: 0 <= k < |m| ==>
      && 0 <= m[k].oldId < saved <= m[k].newId < |slots|
      && slots[m[k].oldId].Some? && slots[m[k].newId].Some?
  }

  /** Appending in-range mappings to in-range mappings stays in range. */
  lemma ClassMappingsInRangeConcat(a: seq<Remapping>, b: seq<Remapping>, slots: seq<Option<ClassDesc>>, saved: int)
    requires ClassMappingsInRange(a, slots, saved) && ClassMappingsInRange(b, slots, saved)
    ensures ClassMappingsInRange(a + b, slots, saved)
  {
  }

  /** The k-th mapping BuildClassIdMap produces pairs a class in [lower,
      upper) with its first replacement at or above `saved`. */
  lemma {:induction false} ClassIdMapAt(slots: seq<Option<ClassDesc>>, lower: int, upper: int, saved: int, k: int)
    requires 0 <= lower && 0 <= saved && upper <= saved <= |slots| && 0 <= k
    ensures var m := ClassIdMap(slots, lower, upper, saved);
      k < |m| ==>
        && lower <= m[k].oldId < upper && slots[m[k].oldId].Some?
        && m[k].newId == ReplacementOf(slots, m[k].oldId, saved)
        && saved <= m[k].newId < |slots| && slots[m[k].newId].Some?
    decreases upper - lower
  {
    if lower < upper {
      var m := ClassIdMap(slots, lower, upper, saved);
      var prev := ClassIdMap(slots, lower, upper - 1, saved);
      var e := ClassEntry(slots, upper - 1, saved);
      assert m == prev + e;
      if k < |prev| {
        ClassIdMapAt(slots, lower, upper - 1, saved, k);
        assert m[k] == prev[k];
      } else if k < |m| {
        var r := ReplacementOf(slots, upper - 1, saved);
        assert slots[upper - 1].Some? && r != -1 && e == [Remapping(upper - 1, r)];
        assert m[k] == e[0];
      }
    }
  }

  /** BuildClassIdMap scans upwards, so its old ids strictly ascend. */
  lemma {:induction false} ClassIdMapAscending(slots: seq<Option<ClassDesc>>, lower: int, upper: int, saved: int, k: int, l: int)
    requires 0 <= lower && 0 <= saved && upper <= saved <= |slots| && 0 <= k < l
    ensures var m := ClassIdMap(slots, lower, upper, saved);
      l < |m| ==> m[k].oldId < m[l].oldId
    decreases upper - lower
  {
    if lower < upper {
      var m := ClassIdMap(slots, lower, upper, saved);
      var prev := ClassIdMap(slots, lower, upper - 1, saved);
      var e := ClassEntry(slots, upper - 1, saved);
      assert m == prev + e;
      if l < |prev| {
        ClassIdMapAscending(slots, lower, upper - 1, saved, k, l);
        assert m[k] == prev[k] && m[l] == prev[l];
      } else if l < |m| {
        ClassIdMapAt(slots, lower, upper - 1, saved, k);
        assert m[k] == prev[k] && m[l] == e[0];
      }
    }
  }

  /** A class id gets a mapping exactly when it lies in [lower, upper) and
      its slot holds a class that has a replacement. */
  lemma {:induction false} ClassIdMapComplete(slots: seq<Option<ClassDesc>>, lower: int, upper: int, saved: int, cid: int)
    requires 0 <= lower && 0 <= saved && upper <= saved <= |slots|
    ensures cid in OldIds(ClassIdMap(slots, lower, upper, saved)) <==>
      lower <= cid < upper && slots[cid].Some? && ReplacementOf(slots, cid, saved) != -1
    decreases upper - lower
  {
    if lower < upper {
      ClassIdMapComplete(slots, lower, upper - 1, saved, cid);
      var prev := ClassIdMap(slots, lower, upper - 1, saved);
      var e := ClassEntry(slots, upper - 1, saved);
      assert ClassIdMap(slots, lower, upper, saved) == prev + e;
      OldIdsConcat(prev, e);
      if e != [] {
        OldIdsSingleton(e[0]);
      }
    }
  }

  /** Every mapping BuildClassIdMap produces is one Validate and Commit
      may act on. */
  lemma {:induction false} ClassIdMapInRange(slots: seq<Option<ClassDesc>>, lower: int, upper: int, saved: int)
    requires 0 <= lower && 0 <= saved && upper <= saved <= |slots|
    ensures ClassMappingsInRange(ClassIdMap(slots, lower, upper, saved), slots, saved)
  {
    forall k | 0 <= k < |ClassIdMap(slots, lower, upper, saved)| {
      ClassIdMapAt(slots, lower, upper, saved, k);
    }
  }

  /** What BuildClassIdMap produces: the old ids are exactly the classes in
      [lower, upper) that have a replacement, in strictly ascending order,
      each paired with its first replacement at or above `saved`, a class
      with the same name and library URL. */
  lemma ClassIdMapCorrect(slots: seq<Option<ClassDesc>>, lower: int, upper: int, saved: int)
    requires 0 <= lower && 0 <= saved && upper <= saved <= |slots|
    ensures var m := ClassIdMap(slots, lower, upper, saved);
      && StrictlyAscendingOldIds(m)
      && ClassMappingsInRange(m, slots, saved)
      && (forall k :: 0 <= k < |m| ==>
            lower <= m[k].oldId < upper && m[k].newId == ReplacementOf(slots, m[k].oldId, saved))
      && (forall k :: 0 <= k < |m| ==>
            IsReplacementFor(slots[m[k].newId], slots[m[k].oldId].value.name, slots[m[k].oldId].value.libraryUrl))
      && (forall cid :: lower <= cid < upper ==>
            (cid in OldIds(m) <==> slots[cid].Some? && ReplacementOf(slots, cid, saved) != -1))
  {
    var m := ClassIdMap(slots, lower, upper, saved);
    forall k, l | 0 <= k < l < |m| ensures m[k].oldId < m[l].oldId {
      ClassIdMapAscending(slots, lower, upper, saved, k, l);
    }
    forall k | 0 <= k < |m|
      ensures 0 <= m[k].oldId < saved <= m[k].newId < |slots|
      ensures slots[m[k].oldId].Some? && slots[m[k].newId].Some?
      ensures lower <= m[k].oldId < upper && m[k].newId == ReplacementOf(slots, m[k].oldId, saved)
      ensures IsReplacementFor(slots[m[k].newId], slots[m[k].oldId].value.name, slots[m[k].oldId].value.libraryUrl)
    {
      ClassIdMapAt(slots, lower, upper, saved, k);
    }
    forall cid | lower <= cid < upper
      ensures cid in OldIds(m) <==> slots[cid].Some? && ReplacementOf(slots, cid, saved) != -1
    {
      ClassIdMapComplete(slots, lower, upper, saved, cid);
    }
  }

  // -------------------------------------------------------------- libraries

  /** The live entry at `i` is a library whose URL is `url`. */
  predicate IsLibraryFor(live: seq<Option<LibRef>>, objs: map<LibRef, Library>, i: int, url: string)
    requires ResolvedOrNull(live, objs) && 0 <= i < |live|
  {
    live[i].Some? && objs[live[i].value].url == url
  }

  /** The first index at or above `from` of the live registry that holds a
      library with URL `url`, or -1 if there is none (null entries are
      skipped). */
  function FirstLibraryMatch(live: seq<Option<LibRef>>, objs: map<LibRef, Library>, from: int, url: string): (r: int)
    requires ResolvedOrNull(live, objs) && 0 <= from <= |live|
    ensures r == -1 || from <= r < |live|
    ensures r == -1 <==> forall j :: from <= j < |live| ==> !IsLibraryFor(live, objs, j, url)
    ensures r != -1 ==> IsLibraryFor(live, objs, r, url)
    ensures r != -1 ==> forall j :: from <= j < r ==> !IsLibraryFor(live, objs, j, url)
    decreases |live| - from
  {
    if from == |live| then -1
    else if IsLibraryFor(live, objs, from, url) then from
    else FirstLibraryMatch(live, objs, from + 1, url)
  }

  /** The mapping BuildLibraryIdMap adds for the saved library at `i`, if any. */
  function LibraryEntry(saved: seq<Option<LibRef>>, live: seq<Option<LibRef>>, objs: map<LibRef, Library>, i: int): (r: seq<Remapping>)
    requires AllResolved(saved, objs) && ResolvedOrNull(live, objs) && 0 <= i < |saved|
  {
    var lib := objs[saved[i].value];
    if lib.isDartScheme then []
    else
      var r := FirstLibraryMatch(live, objs, 0, lib.url);
      if r == -1 then [] else [Remapping(i, r)]
  }

  /** The library mappings for the first `n` saved libraries, in scan order. */
  function LibraryIdMap(saved: seq<Option<LibRef>>, live: seq<Option<LibRef>>, objs: map<LibRef, Library>, n: int): (r: seq<Remapping>)
    requires AllResolved(saved, objs) && ResolvedOrNull(live, objs) && n <= |saved|
    decreases n
  {
    if n <= 0 then []
    else LibraryIdMap(saved, live, objs, n - 1) + LibraryEntry(saved, live, objs, n - 1)
  }

  /** The library mappings Commit may act on: each old id names a saved
      library and each new id a live one. */
  predicate LibraryMappingsInRange(m: seq<Remapping>, saved: seq<Option<LibRef>>, live: seq<Option<LibRef>>, objs: map<LibRef, Library>)
  {
    forall k :: 0 <= k < |m| ==>
      && 0 <= m[k].oldId < |saved| && saved[m[k].oldId].Some? && saved[m[k].oldId].value in objs
      && 0 <= m[k].newId < |live| && live[m[k].newId].Some? && live[m[k].newId].value in objs
  }

  /** Appending in-range mappings to in-range mappings stays in range. */
  lemma LibraryMappingsInRangeConcat(a: seq<Remapping>, b: seq<Remapping>, saved: seq<Option<LibRef>>,
                                     live: seq<Option<LibRef>>, objs: map<LibRef, Library>)
    requires LibraryMappingsInRange(a, saved, live, objs) && LibraryMappingsInRange(b, saved, live, objs)
    ensures LibraryMappingsInRange(a + b, saved, live, objs)
  {
  }

  /** The k-th mapping BuildLibraryIdMap produces pairs one of the first
      `n` saved libraries, not a dart-scheme one, with the first non-null
      live index of the same URL. */
  lemma {:induction false} LibraryIdMapAt(saved: seq<Option<LibRef>>, live: seq<Option<LibRef>>, objs: map<LibRef, Library>, n: int, k: int)
    requires AllResolved(saved, objs) && ResolvedOrNull(live, objs) && 0 <= n <= |saved| && 0 <= k
    ensures var m := LibraryIdMap(saved, live, objs, n);
      k < |m| ==>
        && 0 <= m[k].oldId < n
        && !objs[saved[m[k].oldId].value].isDartScheme
        && m[k].newId == FirstLibraryMatch(live, objs, 0, objs[saved[m[k].oldId].value].url)
        && 0 <= m[k].newId < |live| && IsLibraryFor(live, objs, m[k].newId, objs[saved[m[k].oldId].value].url)
    decreases n
  {
    if n > 0 {
      var m := LibraryIdMap(saved, live, objs, n);
      var prev := LibraryIdMap(saved, live, objs, n - 1);
      var e := LibraryEntry(saved, live, objs, n - 1);
      assert m == prev + e;
      if k < |prev| {
        LibraryIdMapAt(saved, live, objs, n - 1, k);
        assert m[k] == prev[k];
      } else if k < |m| {
        assert m[k] == e[0];
      }
    }
  }

  /** BuildLibraryIdMap scans the saved registry upwards, so its old ids
      strictly ascend. */
  lemma {:induction false} LibraryIdMapAscending(saved: seq<Option<LibRef>>, live: seq<Option<LibRef>>, objs: map<LibRef, Library>,
                                                 n: int, k: int, l: int)
    requires AllResolved(saved, objs) && ResolvedOrNull(live, objs) && 0 <= n <= |saved| && 0 <= k < l
    ensures var m := LibraryIdMap(saved, live, objs, n);
      l < |m| ==> m[k].oldId < m[l].oldId
    decreases n
  {
    if n > 0 {
      var m := LibraryIdMap(saved, live, objs, n);
      var prev := LibraryIdMap(saved, live, objs, n - 1);
      var e := LibraryEntry(saved, live, objs, n - 1);
      assert m == prev + e;
      if l < |prev| {
        LibraryIdMapAscending(saved, live, objs, n - 1, k, l);
        assert m[k] == prev[k] && m[l] == prev[l];
      } else if l < |m| {
        LibraryIdMapAt(saved, live, objs, n - 1, k);
        assert m[k] == prev[k] && m[l] == e[0];
      }
    }
  }

  /** A saved index gets a mapping exactly when it is one of the first `n`,
      its library is not a dart-scheme library and some live library has
      its URL. */
  lemma {:induction false} LibraryIdMapComplete(saved: seq<Option<LibRef>>, live: seq<Option<LibRef>>, objs: map<LibRef, Library>,
                                                n: int, i: int)
    requires AllResolved(saved, objs) && ResolvedOrNull(live, objs) && 0 <= n <= |saved|
    ensures i in OldIds(LibraryIdMap(saved, live, objs, n)) <==>
      0 <= i < n && !objs[saved[i].value].isDartScheme && FirstLibraryMatch(live, objs, 0, objs[saved[i].value].url) != -1
    decreases n
  {
    if n > 0 {
      LibraryIdMapComplete(saved, live, objs, n - 1, i);
      var prev := LibraryIdMap(saved, live, objs, n - 1);
      var e := LibraryEntry(saved, live, objs, n - 1);
      assert LibraryIdMap(saved, live, objs, n) == prev + e;
      OldIdsConcat(prev, e);
      if e != [] {
        OldIdsSingleton(e[0]);
      }
    }
  }

  /** Every mapping BuildLibraryIdMap produces is one Commit may act on. */
  lemma {:induction false} LibraryIdMapInRange(saved: seq<Option<LibRef>>, live: seq<Option<LibRef>>, objs: map<LibRef, Library>, n: int)
    requires AllResolved(saved, objs) && ResolvedOrNull(live, objs) && 0 <= n <= |saved|
    ensures LibraryMappingsInRange(LibraryIdMap(saved, live, objs, n), saved, live, objs)
  {
    forall k | 0 <= k < |LibraryIdMap(saved, live, objs, n)| {
      LibraryIdMapAt(saved, live, objs, n, k);
    }
  }

  /** What BuildLibraryIdMap produces: no dart-scheme library is mapped; the
      old ids are exactly the other saved libraries whose URL some live
      library has, in ascending order; each new id is the first non-null
      live index with that URL. */
  lemma LibraryIdMapCorrect(saved: seq<Option<LibRef>>, live: seq<Option<LibRef>>, objs: map<LibRef, Library>, n: int)
    requires AllResolved(saved, objs) && ResolvedOrNull(live, objs) && 0 <= n <= |saved|
    ensures var m := LibraryIdMap(saved, live, objs, n);
      && StrictlyAscendingOldIds(m)
      && LibraryMappingsInRange(m, saved, live, objs)
      && (forall k :: 0 <= k < |m| ==>
            && m[k].oldId < n
            && !objs[saved[m[k].oldId].value].isDartScheme
            && m[k].newId == FirstLibraryMatch(live, objs, 0, objs[saved[m[k].oldId].value].url)
            && objs[live[m[k].newId].value].url == objs[saved[m[k].oldId].value].url)
      && (forall i :: 0 <= i < n ==>
            (i in OldIds(m) <==>
               !objs[saved[i].value].isDartScheme && FirstLibraryMatch(live, objs, 0, objs[saved[i].value].url) != -1))
  {
    var m := LibraryIdMap(saved, live, objs, n);
    forall k, l | 0 <= k < l < |m| ensures m[k].oldId < m[l].oldId {
      LibraryIdMapAscending(saved, live, objs, n, k, l);
    }
    forall k | 0 <= k < |m|
      ensures 0 <= m[k].oldId < n && !objs[saved[m[k].oldId].value].isDartScheme
      ensures 0 <= m[k].newId < |live| && live[m[k].newId].Some? && live[m[k].newId].value in objs
      ensures m[k].newId == FirstLibraryMatch(live, objs, 0, objs[saved[m[k].oldId].value].url)
      ensures objs[live[m[k].newId].value].url == objs[saved[m[k].oldId].value].url
    {
      LibraryIdMapAt(saved, live, objs, n, k);
    }
    forall i | 0 <= i < n
      ensures i in OldIds(m) <==>
        !objs[saved[i].value].isDartScheme && FirstLibraryMatch(live, objs, 0, objs[saved[i].value].url) != -1
    {
      LibraryIdMapComplete(saved, live, objs, n, i);
    }
  }

  // ----------------------------------------------------------- checkpoint

  /** The registry entries whose library is a dart-scheme library, in
      registry order. */
  function DartSchemeLibraries(libs: seq<Option<LibRef>>, objs: map<LibRef, Library>): (r: seq<Option<LibRef>>)
    requires AllResolved(libs, objs)
    ensures |r| <= |libs|
    ensures AllResolved(r, objs)
    ensures forall k :: 0 <= k < |r| ==> objs[r[k].value].isDartScheme
    decreases |libs|
  {
    if libs == [] then []
    else
      var init := libs[..|libs| - 1];
      var last := libs[|libs| - 1];
      DartSchemeLibraries(init, objs) + (if objs[last.value].isDartScheme then [last] else [])
  }

  /** The registry positions of the dart-scheme libraries, ascending. */
  function DartSchemeIndices(libs: seq<Option<LibRef>>, objs: map<LibRef, Library>): seq<int>
    requires AllResolved(libs, objs)
    decreases |libs|
  {
    if libs == [] then []
    else
      var init := libs[..|libs| - 1];
      DartSchemeIndices(init, objs) + (if objs[libs[|libs| - 1].value].isDartScheme then [|libs| - 1] else [])
  }

  /** The registry the checkpoint leaves live is the dart-scheme
      subsequence of the old registry: the entries at strictly ascending
      positions, which are exactly the positions holding a dart-scheme
      library. */
  lemma {:induction false} DartSchemeLibrariesInOrder(libs: seq<Option<LibRef>>, objs: map<LibRef, Library>)
    requires AllResolved(libs, objs)
    ensures var r := DartSchemeLibraries(libs, objs);
      var idx := DartSchemeIndices(libs, objs);
      && |idx| == |r| <= |libs|
      && (forall k :: 0 <= k < |idx| ==> 0 <= idx[k] < |libs| && r[k] == libs[idx[k]])
      && (forall k, l :: 0 <= k < l < |idx| ==> idx[k] < idx[l])
      && (forall i :: 0 <= i < |libs| ==> (objs[libs[i].value].isDartScheme <==> i in idx))
    decreases |libs|
  {
    if libs != [] {
      var init := libs[..|libs| - 1];
      assert AllResolved(init, objs);
      DartSchemeLibrariesInOrder(init, objs);
    }
  }

  // ---------------------------------------------------------- reverse map

  /** The position of the first mapping whose new id is `cid`, or -1. */
  function FirstMappingTo(m: seq<Remapping>, cid: int, from: int): (r: int)
    requires 0 <= from <= |m|
    ensures r == -1 || from <= r < |m|
    ensures r == -1 <==> forall k :: from <= k < |m| ==> m[k].newId != cid
    ensures r != -1 ==> m[r].newId == cid && forall k :: from <= k < r ==> m[k].newId != cid
    decreases |m| - from
  {
    if from == |m| then -1
    else if m[from].newId == cid then from
    else FirstMappingTo(m, cid, from + 1)
  }
}
