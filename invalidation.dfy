/** The cache-reset passes that run after a committed reload, on an
    abstract view of the heap: a sequence of objects, some of which are
    functions carrying their current code, their inline-cache data and
    their optimisation counters. */
module Invalidation {
  import opened ReloadTypes

  /** Code a function can point at: a shared stub (such as the lazy
      compilation stub) or code generated for that function. */
  datatype Code = StubCode(stubId: nat) | GeneratedCode(codeId: nat, isOptimized: bool)

  /** The stub that compiles a function on its next invocation. */
  const LazyCompileStub: Code := StubCode(0)

  /** One inline cache: the receiver class ids it has recorded. */
  datatype ICData = ICData(deoptId: nat, checks: seq<int>)

  datatype FunctionRecord = FunctionRecord(
    name: string,
    currentCode: Code,
    icDataArray: Option<seq<ICData>>,
    usageCounter: int,
    deoptimizationCounter: int)

  /** What a heap walk meets: free-list elements (which cannot be looked
      into), functions, and every other kind of object (opaque here). */
  datatype HeapObject = FreeListElement | FunctionObject(fn: FunctionRecord) | OtherObject(cid: int)

  /** The function after ClearICDataArray, ClearCode and both counter
      resets. Modelling assumption: ClearCode installs the lazy
      compilation stub. */
  function ClearedForRecompilation(f: FunctionRecord): (r: FunctionRecord)
    ensures r.name == f.name
    ensures r.currentCode.StubCode? && r.icDataArray.None?
    ensures r.usageCounter == 0 && r.deoptimizationCounter == 0
  {
    f.(icDataArray := None, currentCode := LazyCompileStub, usageCounter := 0, deoptimizationCounter := 0)
  }

  /** MarkFunctionsForRecompilation::VisitObject for one object: only a
      function that points at generated code is touched, and afterwards
      no function points at generated code. */
  function VisitObject(obj: HeapObject): (r: HeapObject)
    ensures r.FunctionObject? <==> obj.FunctionObject?
    ensures !obj.FunctionObject? ==> r == obj
    ensures r.FunctionObject? ==> r.fn.currentCode.StubCode? && r.fn.name == obj.fn.name
  {
    match obj
    case FunctionObject(f) =>
      if f.currentCode.StubCode? then obj else FunctionObject(ClearedForRecompilation(f))
    case _ => obj
  }

  /** What VisitObject does, case by case. */
  lemma VisitObjectEffect(obj: HeapObject)
    ensures !obj.FunctionObject? ==> VisitObject(obj) == obj
    ensures obj.FunctionObject? && obj.fn.currentCode.StubCode? ==> VisitObject(obj) == obj
    ensures obj.FunctionObject? && !obj.fn.currentCode.StubCode? ==>
      VisitObject(obj).FunctionObject? &&
      VisitObject(obj).fn == obj.fn.(icDataArray := None, currentCode := LazyCompileStub,
                                     usageCounter := 0, deoptimizationCounter := 0)
    ensures VisitObject(obj).FunctionObject? <==> obj.FunctionObject?
    ensures VisitObject(obj).FunctionObject? ==> VisitObject(obj).fn.currentCode.StubCode?
  {
  }

  /** Visiting an object a second time changes nothing. */
  lemma VisitObjectIdempotent(obj: HeapObject)
    ensures VisitObject(VisitObject(obj)) == VisitObject(obj)
  {
  }

  /** The visitor applied to every object of the heap, in heap order. */
  function MarkAll(objs: seq<HeapObject>): (r: seq<HeapObject>)
    ensures |r| == |objs|
  {
    if objs == [] then [] else [VisitObject(objs[0])] + MarkAll(objs[1..])
  }

  lemma {:induction false} MarkAllAt(objs: seq<HeapObject>, i: int)
    requires 0 <= i < |objs|
    ensures MarkAll(objs)[i] == VisitObject(objs[i])
  {
    if i > 0 {
      MarkAllAt(objs[1..], i - 1);
    }
  }

  /** The marking pass is idempotent: a second pass over the heap leaves
      every object as the first pass left it. */
  lemma {:induction false} MarkAllIdempotent(objs: seq<HeapObject>)
    ensures MarkAll(MarkAll(objs)) == MarkAll(objs)
  {
    if objs != [] {
      VisitObjectIdempotent(objs[0]);
      MarkAllIdempotent(objs[1..]);
    }
  }

  /** After the pass no function points at generated code, and every
      function that did has lost its inline-cache data and its counters;
      functions already on a stub, and all other objects, are as before. */
  lemma {:induction false} MarkAllEffect(objs: seq<HeapObject>)
    ensures |MarkAll(objs)| == |objs|
    ensures forall i :: 0 <= i < |objs| && MarkAll(objs)[i].FunctionObject? ==>
      MarkAll(objs)[i].fn.currentCode.StubCode?
    ensures forall i :: 0 <= i < |objs| && objs[i].FunctionObject? && !objs[i].fn.currentCode.StubCode? ==>
      MarkAll(objs)[i] == FunctionObject(ClearedForRecompilation(objs[i].fn))
    ensures forall i :: 0 <= i < |objs| && (!objs[i].FunctionObject? || objs[i].fn.currentCode.StubCode?) ==>
      MarkAll(objs)[i] == objs[i]
  {
    forall i | 0 <= i < |objs|
      ensures MarkAll(objs)[i] == VisitObject(objs[i])
    {
      MarkAllAt(objs, i);
    }
  }

  /** MarkAllFunctionsForRecompilation: the heap walk, visiting the
      objects in place one after the other. */
  method MarkAllFunctionsForRecompilation(objects: array<HeapObject>)
    modifies objects
    ensures objects[..] == MarkAll(old(objects[..]))
  {
    ghost var before := objects[..];
    var i := 0;
    while i < objects.Length
      invariant 0 <= i <= objects.Length
      invariant forall k :: 0 <= k < i ==> objects[k] == VisitObject(before[k])
      invariant forall k :: i <= k < objects.Length ==> objects[k] == before[k]
    {
      objects[i] := VisitObject(objects[i]);
      i := i + 1;
    }
    forall k | 0 <= k < objects.Length
      ensures objects[k] == MarkAll(before)[k]
    {
      MarkAllAt(before, k);
    }
  }

  /** ICData::Reset for one call site. Modelling assumption (its body is
      not part of this model): the receiver checks recorded so far are
      dropped, whatever the call kind. */
  function ResetICData(d: ICData): (r: ICData)
    ensures r.deoptId == d.deoptId && r.checks == []
  {
    d.(checks := [])
  }

  /** The inline caches of a function after the caches at the call sites
      in `sites` (the deopt ids that the code's descriptors list as
      instance calls or unoptimised static calls) are reset. */
  function ResetSites(ics: seq<ICData>, sites: set<nat>): (r: seq<ICData>)
    ensures |r| == |ics|
    ensures forall k :: 0 <= k < |ics| ==> r[k].deoptId == ics[k].deoptId
    ensures forall k :: 0 <= k < |ics| && ics[k].deoptId in sites ==> r[k].checks == []
    ensures forall k :: 0 <= k < |ics| && ics[k].deoptId !in sites ==> r[k] == ics[k]
  {
    seq(|ics|, k requires 0 <= k < |ics| => if ics[k].deoptId in sites then ResetICData(ics[k]) else ics[k])
  }

  /** ResetICs: with no IC data array the function was reset in an earlier
      round and is returned as it is; otherwise the caches at the given
      call sites are reset and the rest of the function is untouched. */
  function ResetICs(f: FunctionRecord, sites: set<nat>): (r: FunctionRecord)
    ensures f.icDataArray.None? ==> r == f
    ensures r.name == f.name && r.currentCode == f.currentCode
    ensures r.usageCounter == f.usageCounter && r.deoptimizationCounter == f.deoptimizationCounter
    ensures r.icDataArray.Some? <==> f.icDataArray.Some?
    ensures f.icDataArray.Some? ==>
      var before := f.icDataArray.value;
      var after := r.icDataArray.value;
      && |after| == |before|
      && (forall k :: 0 <= k < |before| ==> after[k].deoptId == before[k].deoptId)
      && (forall k :: 0 <= k < |before| && before[k].deoptId in sites ==> after[k].checks == [])
      && (forall k :: 0 <= k < |before| && before[k].deoptId !in sites ==> after[k] == before[k])
  {
    if f.icDataArray.None? then f
    else f.(icDataArray := Some(ResetSites(f.icDataArray.value, sites)))
  }

  /** Resetting the same call sites twice equals resetting them once. */
  lemma ResetICsIdempotent(f: FunctionRecord, sites: set<nat>)
    ensures ResetICs(ResetICs(f, sites), sites) == ResetICs(f, sites)
  {
    if f.icDataArray.Some? {
      var once := ResetSites(f.icDataArray.value, sites);
      assert ResetSites(once, sites) == once;
    }
  }

  /** A function that the marking pass has cleared is left alone by a
      later ResetICs, whichever call sites it is given. */
  lemma ResetICsAfterMarking(obj: HeapObject, sites: set<nat>)
    requires VisitObject(obj).FunctionObject? && obj.FunctionObject?
    requires !obj.fn.currentCode.StubCode?
    ensures ResetICs(VisitObject(obj).fn, sites) == VisitObject(obj).fn
  {
  }
}
