/**
 * The attribute delta that the op parser collects for one block.
 *
 * While a batch of json1 ops is being interpreted, attribute removals and
 * insertions for the same block are gathered in one accumulator: a set of
 * deleted keys and a map of inserted values. Inserting and deleting are
 * independent; a key that is both deleted and inserted is reported in both
 * halves of the resulting document delta.
 */
module OpBlockDelta {
  import opened Js

  /** `DocBlockDelta` of the editor: the inserted attributes as a plain
      object (its own keys in insertion order) and the deleted keys as an
      array. */
  datatype DocBlockDelta = DocBlockDelta(insert: JsMap<string, Value>, delete: seq<string>)

  /** The contents of an accumulator: the deleted keys in the order a
      JavaScript `Set` keeps them, and the inserted values in a `Map`. */
  datatype DeltaValue = DeltaValue(deleted: seq<string>, inserted: JsMap<string, Value>)
  {
    ghost predicate Valid()
    {
      NoDup(deleted) && inserted.Valid()
    }

    /** `insert(key, value)`. */
    function Insert(key: string, value: Value): (r: DeltaValue)
      ensures Valid() ==> r.Valid()
      ensures r.deleted == deleted
      ensures r.inserted.values == inserted.values[key := value]
    {
      DeltaValue(deleted, inserted.Set(key, value))
    }

    /** `delete(key)`. */
    function Delete(key: string): (r: DeltaValue)
      ensures Valid() ==> r.Valid()
      ensures forall k :: k in r.deleted <==> k in deleted || k == key
      ensures r.inserted == inserted
    {
      DeltaValue(AddTo(deleted, key), inserted)
    }

    /** `toDocBlockDelta()`: every inserted key with its value, in the
        order of the map, and every deleted key once. */
    function ToDoc(): (r: DocBlockDelta)
      ensures Valid() ==> r.insert.Valid() && NoDup(r.delete)
      ensures r.insert.keys == inserted.keys && r.insert.values == inserted.values
      ensures r.delete == deleted
    {
      DocBlockDelta(inserted, deleted)
    }
  }

  /** A freshly constructed accumulator. */
  function EmptyDelta(): (r: DeltaValue)
    ensures r.Valid() && r.deleted == [] && r.inserted.values == map[]
  {
    DeltaValue([], EmptyMap())
  }

  // ---------------------------------------------------------------------
  // Properties
  // ---------------------------------------------------------------------

  lemma EmptyToDoc()
    ensures EmptyDelta().ToDoc() == DocBlockDelta(EmptyMap(), [])
  {
  }

  /** The value last inserted under a key is what the document delta reports. */
  lemma InsertIsReported(d: DeltaValue, key: string, value: Value)
    ensures d.Insert(key, value).ToDoc().insert.Get(key) == Some(value)
    ensures forall k | k != key :: d.Insert(key, value).ToDoc().insert.Get(k) == d.ToDoc().insert.Get(k)
  {
  }

  /** A second insert of the same key overwrites the first. */
  lemma InsertOverwrites(d: DeltaValue, key: string, v1: Value, v2: Value)
    ensures d.Insert(key, v1).Insert(key, v2) == d.Insert(key, v2)
  {
  }

  /** Deleting a key twice records it once. */
  lemma DeleteIdempotent(d: DeltaValue, key: string)
    ensures d.Delete(key).Delete(key) == d.Delete(key)
  {
  }

  /** Inserts and deletes do not interfere, in either order. */
  lemma InsertDeleteCommute(d: DeltaValue, key: string, value: Value, other: string)
    ensures d.Insert(key, value).Delete(other) == d.Delete(other).Insert(key, value)
  {
  }

  /** A key both deleted and inserted appears in both halves. */
  lemma DeletedAndInserted(d: DeltaValue, key: string, value: Value)
    ensures var r := d.Delete(key).Insert(key, value).ToDoc();
      key in r.delete && r.insert.Get(key) == Some(value)
  {
  }

  // ---------------------------------------------------------------------
  // A whole sequence of edits
  // ---------------------------------------------------------------------

  datatype Edit = InsertEdit(key: string, value: Value) | DeleteEdit(key: string)

  function ApplyOne(d: DeltaValue, e: Edit): DeltaValue
  {
    match e
    case InsertEdit(key, value) => d.Insert(key, value)
    case DeleteEdit(key) => d.Delete(key)
  }

  function Apply(d: DeltaValue, edits: seq<Edit>): DeltaValue
    decreases |edits|
  {
    if edits == [] then d else Apply(ApplyOne(d, edits[0]), edits[1..])
  }

  predicate DeletedBy(edits: seq<Edit>, key: string)
  {
    exists j | 0 <= j < |edits| :: edits[j] == DeleteEdit(key)
  }

  /** The value of the last insert of `key` among the edits, if any. */
  function LastInsert(edits: seq<Edit>, key: string): Option<Value>
  {
    if edits == [] then None
    else
      var last := edits[|edits| - 1];
      if last.InsertEdit? && last.key == key then Some(last.value)
      else LastInsert(edits[..|edits| - 1], key)
  }

  lemma {:induction false} ApplySnoc(d: DeltaValue, edits: seq<Edit>, e: Edit)
    ensures Apply(d, edits + [e]) == ApplyOne(Apply(d, edits), e)
    decreases |edits|
  {
    if edits != [] {
      assert (edits + [e])[1..] == edits[1..] + [e];
      ApplySnoc(ApplyOne(d, edits[0]), edits[1..], e);
    }
  }

  /** Replaying edits on a fresh accumulator: the delete list holds each
      deleted key exactly once, and the insert object holds, for every key,
      the value of the last insert of it. */
  lemma {:induction false} ApplyReports(edits: seq<Edit>)
    ensures Apply(EmptyDelta(), edits).Valid()
    ensures NoDup(Apply(EmptyDelta(), edits).ToDoc().delete)
    ensures forall k :: k in Apply(EmptyDelta(), edits).ToDoc().delete <==> DeletedBy(edits, k)
    ensures forall k :: Apply(EmptyDelta(), edits).ToDoc().insert.Get(k) == LastInsert(edits, k)
    decreases |edits|
  {
    if edits != [] {
      var init, e := edits[..|edits| - 1], edits[|edits| - 1];
      assert edits == init + [e];
      ApplyReports(init);
      ApplySnoc(EmptyDelta(), init, e);
      forall k
        ensures DeletedBy(edits, k) <==> DeletedBy(init, k) || e == DeleteEdit(k)
      {
        if DeletedBy(edits, k) && !(e == DeleteEdit(k)) {
          var j :| 0 <= j < |edits| && edits[j] == DeleteEdit(k);
          assert j < |init| && init[j] == edits[j];
        }
        if DeletedBy(init, k) {
          var j :| 0 <= j < |init| && init[j] == DeleteEdit(k);
          assert edits[j] == init[j];
        }
      }
    }
  }

  // ---------------------------------------------------------------------
  // The accumulator object
  // ---------------------------------------------------------------------

  /** `OpBlockDataDelta`. */
  class OpBlockDataDelta {
    var deletedKeys: seq<string>
    var insertedValues: JsMap<string, Value>

    function Model(): DeltaValue
      reads this
    {
      DeltaValue(deletedKeys, insertedValues)
    }

    ghost predicate Valid()
      reads this
    {
      Model().Valid()
    }

    constructor ()
      ensures Valid() && Model() == EmptyDelta()
    {
      deletedKeys := [];
      insertedValues := EmptyMap();
    }

    method Insert(key: string, value: Value)
      modifies this
      ensures Model() == old(Model()).Insert(key, value)
    {
      insertedValues := insertedValues.Set(key, value);
    }

    method Delete(key: string)
      modifies this
      ensures Model() == old(Model()).Delete(key)
    {
      deletedKeys := AddTo(deletedKeys, key);
    }

    /** The insert object is built key by key, in the map's order. */
    method ToDocBlockDelta() returns (d: DocBlockDelta)
      requires Valid()
      ensures d == Model().ToDoc()
    {
      var insert: JsMap<string, Value> := EmptyMap();
      var keys := insertedValues.keys;
      var i := 0;
      while i < |keys|
        invariant 0 <= i <= |keys|
        invariant insert.keys == keys[..i]
        invariant insert.values == map k | k in keys[..i] :: insertedValues.values[k]
      {
        assert keys[i] !in keys[..i];
        assert keys[..i + 1] == keys[..i] + [keys[i]];
        insert := insert.Set(keys[i], insertedValues.values[keys[i]]);
        i := i + 1;
      }
      assert keys[..i] == keys;
      d := DocBlockDelta(insert, deletedKeys);
    }
  }
}
