/** Values shared by the reload bookkeeping: class descriptors, libraries,
    remapping pairs, errors and the outcome of the embedder's loader. */
module ReloadTypes {

  datatype Option<T> = None | Some(value: T)

  /** The shape metadata of a class (field layout and method set). Its
      meaning is only consulted by the object model's CanReload and Reload. */
  datatype ClassShape = ClassShape(fields: seq<string>, functions: seq<string>)

  /** A class as the class table holds it. `libraryUrl` is the URL of the
      defining library, or None when the class has no library. The class id
      is not stored: it is the index of the slot that holds the descriptor. */
  datatype ClassDesc = ClassDesc(name: string, libraryUrl: Option<string>, shape: ClassShape)

  /** Modelling assumption for Class::Reload (its body is not part of this
      model): the old class keeps its name, its library and its id, and
      takes on the shape of the new class. */
  function ReloadClass(cls: ClassDesc, newCls: ClassDesc): (r: ClassDesc)
    ensures r.name == cls.name && r.libraryUrl == cls.libraryUrl
    ensures r.shape == newCls.shape
  {
    cls.(shape := newCls.shape)
  }

  /** A reference to a library object; the objects themselves live in the
      heap's library map, so that the saved registry, the live registry
      and the root library can all name the same object. */
  type LibRef = nat

  /** A library object: its canonical URL, whether it is a built-in
      ("dart:") library, and its dictionary of top-level declarations. */
  datatype Library = Library(url: string, isDartScheme: bool, dictionary: seq<string>)

  /** Modelling assumption for Library::Reload (its body is not part of this
      model): the old library keeps its URL and scheme and takes on the
      dictionary of the new one. */
  function ReloadLibrary(lib: Library, newLib: Library): (r: Library)
    ensures r.url == lib.url && r.isDartScheme == lib.isDartScheme
    ensures r.dictionary == newLib.dictionary
  {
    lib.(dictionary := newLib.dictionary)
  }

  /** One old-to-new correspondence, for a class id or a library index. */
  datatype Remapping = Remapping(oldId: int, newId: int)

  datatype Error = Error(message: string)

  /** What the library tag handler hands back for the root library's URL:
      an error, or anything else (which the reload does not look at). */
  datatype LoaderResult = Loaded | LoadFailed(error: Error)

  /** The old ids of a list of mappings. */
  function OldIds(m: seq<Remapping>): set<int>
  {
    set k | 0 <= k < |m| :: m[k].oldId
  }

  /** The new ids of a list of mappings. */
  function NewIds(m: seq<Remapping>): set<int>
  {
    set k | 0 <= k < |m| :: m[k].newId
  }

  lemma OldIdsConcat(a: seq<Remapping>, b: seq<Remapping>)
    ensures OldIds(a + b) == OldIds(a) + OldIds(b)
  {
    var ab := a + b;
    forall i | i in OldIds(ab) ensures i in OldIds(a) + OldIds(b) {
      var k :| 0 <= k < |ab| && ab[k].oldId == i;
      if k >= |a| { assert b[k - |a|].oldId == i; }
    }
    forall i | i in OldIds(a) + OldIds(b) ensures i in OldIds(ab) {
      if i in OldIds(b) {
        var k :| 0 <= k < |b| && b[k].oldId == i;
        assert ab[|a| + k].oldId == i;
      } else {
        var k :| 0 <= k < |a| && a[k].oldId == i;
        assert ab[k].oldId == i;
      }
    }
  }

  lemma OldIdsSingleton(x: Remapping)
    ensures OldIds([x]) == {x.oldId}
  {
    assert [x][0] == x;
  }

  /** Old ids strictly ascending: the order in which the map builders
      scan their index ranges. */
  predicate StrictlyAscendingOldIds(m: seq<Remapping>)
  {
    forall k, l :: 0 <= k < l < |m| ==> m[k].oldId < m[l].oldId
  }
}
