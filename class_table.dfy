/** The isolate's class table: a dense array of slots indexed by class id,
    each slot either empty or holding a class. Only the primitives the
    reload bookkeeping uses are modelled; their bodies are not part of
    this model, so each is given the effect stated in its contract. */
module ClassTables {
  import opened ReloadTypes

  /** The non-empty slots of `s`, in their original order. */
  function Survivors(s: seq<Option<ClassDesc>>): (r: seq<Option<ClassDesc>>)
    ensures |r| <= |s|
    ensures forall k :: 0 <= k < |r| ==> r[k].Some?
    ensures forall k :: 0 <= k < |s| && s[k].Some? ==> s[k] in r
    ensures forall x :: x in r ==> x in s
    decreases |s|
  {
    if s == [] then []
    else
      var last := s[|s| - 1];
      Survivors(s[..|s| - 1]) + (if last.Some? then [last] else [])
  }

  /** The positions of the non-empty slots of `s`, ascending. */
  function SurvivorIndices(s: seq<Option<ClassDesc>>): seq<int>
    decreases |s|
  {
    if s == [] then []
    else SurvivorIndices(s[..|s| - 1]) + (if s[|s| - 1].Some? then [|s| - 1] else [])
  }

  /** One position per survivor. */
  lemma {:induction false} SurvivorsLength(s: seq<Option<ClassDesc>>)
    ensures |SurvivorIndices(s)| == |Survivors(s)|
    decreases |s|
  {
    if s != [] {
      SurvivorsLength(s[..|s| - 1]);
    }
  }

  /** The k-th survivor is the slot at the k-th recorded position. */
  lemma {:induction false} SurvivorsAt(s: seq<Option<ClassDesc>>, k: int)
    requires 0 <= k
    ensures var idx := SurvivorIndices(s);
      k < |idx| ==> 0 <= idx[k] < |s| && k < |Survivors(s)| && Survivors(s)[k] == s[idx[k]]
    decreases |s|
  {
    if s != [] {
      var init := s[..|s| - 1];
      SurvivorsLength(init);
      SurvivorsAt(init, k);
      var idx0 := SurvivorIndices(init);
      if k < |idx0| {
        assert SurvivorIndices(s)[k] == idx0[k];
        assert Survivors(s)[k] == Survivors(init)[k];
        assert s[idx0[k]] == init[idx0[k]];
      }
    }
  }

  /** The recorded positions strictly ascend. */
  lemma {:induction false} SurvivorIndicesAscending(s: seq<Option<ClassDesc>>, k: int, l: int)
    requires 0 <= k < l
    ensures var idx := SurvivorIndices(s);
      l < |idx| ==> idx[k] < idx[l]
    decreases |s|
  {
    if s != [] {
      var init := s[..|s| - 1];
      var idx0 := SurvivorIndices(init);
      SurvivorIndicesAscending(init, k, l);
      if l < |idx0| {
        assert SurvivorIndices(s)[k] == idx0[k] && SurvivorIndices(s)[l] == idx0[l];
      } else if l == |idx0| {
        SurvivorIndicesBelow(init, k);
      }
    }
  }

  /** Every recorded position lies inside the sequence. */
  lemma {:induction false} SurvivorIndicesBelow(s: seq<Option<ClassDesc>>, k: int)
    requires 0 <= k
    ensures var idx := SurvivorIndices(s);
      k < |idx| ==> 0 <= idx[k] < |s|
    decreases |s|
  {
    if s != [] {
      var init := s[..|s| - 1];
      SurvivorIndicesBelow(init, k);
      if k < |SurvivorIndices(init)| {
        assert SurvivorIndices(s)[k] == SurvivorIndices(init)[k];
      }
    }
  }

  /** A position is recorded exactly when its slot holds a class. */
  lemma {:induction false} SurvivorIndicesComplete(s: seq<Option<ClassDesc>>, i: int)
    requires 0 <= i < |s|
    ensures s[i].Some? <==> i in SurvivorIndices(s)
    decreases |s|
  {
    var init := s[..|s| - 1];
    var idx0 := SurvivorIndices(init);
    if i < |s| - 1 {
      SurvivorIndicesComplete(init, i);
      assert s[i] == init[i];
      if |s| - 1 in idx0 {
        var k :| 0 <= k < |idx0| && idx0[k] == |s| - 1;
        SurvivorIndicesBelow(init, k);
      }
    } else {
      if i in idx0 {
        var k :| 0 <= k < |idx0| && idx0[k] == i;
        SurvivorIndicesBelow(init, k);
      }
    }
  }

  /** Survivors keeps each non-empty slot exactly once, in slot order: it
      is `s` read at strictly ascending positions, and a position is read
      exactly when its slot holds a class. */
  lemma {:induction false} SurvivorsInOrder(s: seq<Option<ClassDesc>>)
    ensures var r := Survivors(s);
      var idx := SurvivorIndices(s);
      && |idx| == |r|
      && (forall k :: 0 <= k < |idx| ==> 0 <= idx[k] < |s| && r[k] == s[idx[k]])
      && (forall k, l :: 0 <= k < l < |idx| ==> idx[k] < idx[l])
      && (forall i :: 0 <= i < |s| ==> (s[i].Some? <==> i in idx))
  {
    var idx := SurvivorIndices(s);
    SurvivorsLength(s);
    forall k | 0 <= k < |idx| ensures 0 <= idx[k] < |s| && Survivors(s)[k] == s[idx[k]] {
      SurvivorsAt(s, k);
    }
    forall k, l | 0 <= k < l < |idx| ensures idx[k] < idx[l] {
      SurvivorIndicesAscending(s, k, l);
    }
    forall i | 0 <= i < |s| ensures s[i].Some? <==> i in idx {
      SurvivorIndicesComplete(s, i);
    }
  }

  /** Modelling assumption for ClassTable::CompactNewClasses(n): the slots
      below `n` stay where they are, and the classes that survive at or
      above `n` are packed down in their original order, so the table ends
      with no empty slot above `n`. */
  function CompactedSlots(s: seq<Option<ClassDesc>>, n: nat): (r: seq<Option<ClassDesc>>)
    requires n <= |s|
    ensures n <= |r| <= |s|
    ensures r[..n] == s[..n]
    ensures forall k :: n <= k < |r| ==> r[k].Some?
  {
    s[..n] + Survivors(s[n..])
  }

  class ClassTable {
    var slots: seq<Option<ClassDesc>>

    constructor (initial: seq<Option<ClassDesc>>)
      ensures slots == initial
    {
      slots := initial;
    }

    function NumCids(): nat
      reads this
    {
      |slots|
    }

    predicate HasValidClassAt(cid: int)
      reads this
      requires 0 <= cid < |slots|
    {
      slots[cid].Some?
    }

    /** The class at `cid`, or None (the null class) for an empty slot. */
    function At(cid: int): Option<ClassDesc>
      reads this
      requires 0 <= cid < |slots|
    {
      slots[cid]
    }

    method ClearClassAt(cid: int)
      requires 0 <= cid < |slots|
      modifies this`slots
      ensures slots == old(slots)[cid := None]
    {
      slots := slots[cid := None];
    }

    /** Modelling assumption: DropNewClasses(n) truncates the table to its
        first `n` slots. */
    method DropNewClasses(n: int)
      requires 0 <= n <= |slots|
      modifies this`slots
      ensures slots == old(slots)[..n]
    {
      slots := slots[..n];
    }

    method CompactNewClasses(n: int)
      requires 0 <= n <= |slots|
      modifies this`slots
      ensures slots == CompactedSlots(old(slots), n)
    {
      slots := CompactedSlots(slots, n);
    }
  }
}
