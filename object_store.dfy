/** The isolate's object store (its library registry, its root library and
    the caches the reload clears) and the heap objects the reload touches:
    the library objects, keyed by reference, and the objects a heap walk
    visits. */
module ObjectStores {
  import opened ReloadTypes
  import Invalidation

  /** A megamorphic dispatch cache: a selector and the targets it has seen. */
  datatype MegamorphicCache = MegamorphicCache(selector: string, targets: seq<int>)

  class ObjectStore {
    /** The live library registry; an entry may be null. */
    var libraries: seq<Option<LibRef>>
    var rootLibrary: Option<LibRef>
    /** The compile-time constants cache; None when it is the null array. */
    var compileTimeConstants: Option<seq<string>>
    var megamorphicCacheTable: Option<seq<MegamorphicCache>>

    constructor (libraries: seq<Option<LibRef>>, rootLibrary: Option<LibRef>,
                 compileTimeConstants: Option<seq<string>>, megamorphicCacheTable: Option<seq<MegamorphicCache>>)
      ensures this.libraries == libraries && this.rootLibrary == rootLibrary
      ensures this.compileTimeConstants == compileTimeConstants
      ensures this.megamorphicCacheTable == megamorphicCacheTable
    {
      this.libraries := libraries;
      this.rootLibrary := rootLibrary;
      this.compileTimeConstants := compileTimeConstants;
      this.megamorphicCacheTable := megamorphicCacheTable;
    }
  }

  class Heap {
    /** The library objects, by reference. */
    var libraries: map<LibRef, Library>
    /** The objects a heap walk visits, in the walk's order. */
    const objects: array<Invalidation.HeapObject>

    constructor (libraries: map<LibRef, Library>, objects: array<Invalidation.HeapObject>)
      ensures this.libraries == libraries && this.objects == objects
    {
      this.libraries := libraries;
      this.objects := objects;
    }
  }

  /** Every entry of `libs` is a library (none is null) that `objs` holds. */
  predicate AllResolved(libs: seq<Option<LibRef>>, objs: map<LibRef, Library>)
  {
    forall i :: 0 <= i < |libs| ==> libs[i].Some? && libs[i].value in objs
  }

  /** Every non-null entry of `libs` is a library that `objs` holds. */
  predicate ResolvedOrNull(libs: seq<Option<LibRef>>, objs: map<LibRef, Library>)
  {
    forall i :: 0 <= i < |libs| && libs[i].Some? ==> libs[i].value in objs
  }
}
