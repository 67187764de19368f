/**
 * The json1 ops the ShareDB client submits for each editor operation, and
 * what the op parser makes of them when they come back.
 *
 * Only the op values are modelled; handing them to ShareDB is I/O.
 */
module ShareDbClient {
  import opened Js
  import opened BlockIdIndex
  import opened OpBlockDelta
  import opened OpParserSpec

  // ---------------------------------------------------------------------
  // The builders
  // ---------------------------------------------------------------------

  /** `insertChildContainer`: `['blocks', containerId, {i: blocks}]`. */
  function InsertChildContainerOp(containerId: string, blocks: seq<Value>): seq<Value>
  {
    [Str("blocks"), Str(containerId), Obj(map["i" := Arr(blocks)])]
  }

  /** `deleteChildContainer`: `['blocks', containerId, {r: true}]`. */
  function DeleteChildContainerOp(containerId: string): seq<Value>
  {
    [Str("blocks"), Str(containerId), Obj(map["r" := Bool(true)])]
  }

  /** `insertBlock`: `['blocks', containerId, index, {i: obj}]`. */
  function InsertBlockOp(containerId: string, index: int, obj: Value): seq<Value>
  {
    [Str("blocks"), Str(containerId), Num(index), Obj(map["i" := obj])]
  }

  /** `deleteBlock`: `['blocks', containerId, index, {r: true}]`. */
  function DeleteBlockOp(containerId: string, index: int): seq<Value>
  {
    [Str("blocks"), Str(containerId), Num(index), Obj(map["r" := Bool(true)])]
  }

  /** `updateRichText`: `['blocks', containerId, index, 'text', {e: ops, et: 'rich-text'}]`. */
  function UpdateRichTextOp(containerId: string, index: int, ops: seq<Value>): seq<Value>
  {
    [Str("blocks"), Str(containerId), Num(index), Str("text"),
     Obj(map["e" := Arr(ops), "et" := Str("rich-text")])]
  }

  // ---------------------------------------------------------------------
  // updateBlockData
  // ---------------------------------------------------------------------

  /** `[key, op]`. */
  function KeyOp(key: string, op: map<string, Value>): Value
  {
    Arr([Str(key), Obj(op)])
  }

  /** The first `forEach`: `[key, {r: true, i: value}]` for each inserted key
      that is also deleted, in the order of the insert object. */
  function ReplaceOps(entries: seq<(string, Value)>, deleted: seq<string>): seq<Value>
    decreases |entries|
  {
    if entries == [] then []
    else
      var (key, value) := entries[|entries| - 1];
      ReplaceOps(entries[..|entries| - 1], deleted)
        + (if key in deleted then [KeyOp(key, map["r" := Bool(true), "i" := value])] else [])
  }

  /** The second `forEach` as written: it skips every key that is in the
      set built from the deleted keys themselves. */
  function DeleteOnlyOpsAsWritten(keys: seq<string>, deleted: seq<string>): seq<Value>
    decreases |keys|
  {
    if keys == [] then []
    else
      var key := keys[|keys| - 1];
      DeleteOnlyOpsAsWritten(keys[..|keys| - 1], deleted)
        + (if key in deleted then [] else [KeyOp(key, map["r" := Bool(true)])])
  }

  /** The second `forEach` as intended: `[key, {r: true}]` for each deleted
      key that the first `forEach` did not already cover. */
  function DeleteOnlyOps(keys: seq<string>, inserted: map<string, Value>): seq<Value>
    decreases |keys|
  {
    if keys == [] then []
    else
      var key := keys[|keys| - 1];
      DeleteOnlyOps(keys[..|keys| - 1], inserted)
        + (if key in inserted then [] else [KeyOp(key, map["r" := Bool(true)])])
  }

  /** The third `forEach`: `[key, {i: value}]` for each inserted key that is
      not deleted. */
  function InsertOnlyOps(entries: seq<(string, Value)>, deleted: seq<string>): seq<Value>
    decreases |entries|
  {
    if entries == [] then []
    else
      var (key, value) := entries[|entries| - 1];
      InsertOnlyOps(entries[..|entries| - 1], deleted)
        + (if key in deleted then [] else [KeyOp(key, map["i" := value])])
  }

  /** `updateBlockData` exactly as written; `None` when nothing is submitted. */
  function UpdateBlockDataOpAsWritten(containerId: string, index: int, delta: DocBlockDelta): Option<seq<Value>>
    requires delta.insert.Valid()
  {
    if delta.delete == [] && delta.insert.keys == [] then None
    else
      var entries := delta.insert.Entries();
      Some([Str("blocks"), Str(containerId), Num(index)]
           + ReplaceOps(entries, delta.delete)
           + DeleteOnlyOpsAsWritten(delta.delete, delta.delete)
           + InsertOnlyOps(entries, delta.delete))
  }

  /** `updateBlockData` with the second loop skipping the keys that the
      first loop already covered, so that every deleted key is removed. */
  function UpdateBlockDataOp(containerId: string, index: int, delta: DocBlockDelta): Option<seq<Value>>
    requires delta.insert.Valid()
  {
    if delta.delete == [] && delta.insert.keys == [] then None
    else
      var entries := delta.insert.Entries();
      Some([Str("blocks"), Str(containerId), Num(index)]
           + ReplaceOps(entries, delta.delete)
           + DeleteOnlyOps(delta.delete, delta.insert.values)
           + InsertOnlyOps(entries, delta.delete))
  }

  /** The first `forEach`, pushing onto `ops`. */
  method PushReplaceOps(ops: seq<Value>, entries: seq<(string, Value)>, deletedKeysSet: seq<string>)
    returns (r: seq<Value>)
    ensures r == ops + ReplaceOps(entries, deletedKeysSet)
  {
    r := ops;
    var i := 0;
    while i < |entries|
      invariant 0 <= i <= |entries|
      invariant r == ops + ReplaceOps(entries[..i], deletedKeysSet)
    {
      assert entries[..i + 1][..i] == entries[..i];
      var (key, value) := entries[i];
      if key in deletedKeysSet {
        r := r + [KeyOp(key, map["r" := Bool(true), "i" := value])];
      }
      i := i + 1;
    }
    assert entries[..i] == entries;
  }

  /** The second `forEach`, as written: it returns early for every key in
      `deletedKeysSet`. */
  method PushDeleteOnlyOps(ops: seq<Value>, keys: seq<string>, deletedKeysSet: seq<string>)
    returns (r: seq<Value>)
    ensures r == ops + DeleteOnlyOpsAsWritten(keys, deletedKeysSet)
  {
    r := ops;
    var j := 0;
    while j < |keys|
      invariant 0 <= j <= |keys|
      invariant r == ops + DeleteOnlyOpsAsWritten(keys[..j], deletedKeysSet)
    {
      assert keys[..j + 1][..j] == keys[..j];
      var key := keys[j];
      if key !in deletedKeysSet {
        r := r + [KeyOp(key, map["r" := Bool(true)])];
      }
      j := j + 1;
    }
    assert keys[..j] == keys;
  }

  /** The third `forEach`. */
  method PushInsertOnlyOps(ops: seq<Value>, entries: seq<(string, Value)>, deletedKeysSet: seq<string>)
    returns (r: seq<Value>)
    ensures r == ops + InsertOnlyOps(entries, deletedKeysSet)
  {
    r := ops;
    var i := 0;
    while i < |entries|
      invariant 0 <= i <= |entries|
      invariant r == ops + InsertOnlyOps(entries[..i], deletedKeysSet)
    {
      assert entries[..i + 1][..i] == entries[..i];
      var (key, value) := entries[i];
      if key !in deletedKeysSet {
        r := r + [KeyOp(key, map["i" := value])];
      }
      i := i + 1;
    }
    assert entries[..i] == entries;
  }

  /** `updateBlockData`, building the op with the three `forEach` loops as
      they are written. */
  method UpdateBlockData(containerId: string, index: int, delta: DocBlockDelta) returns (op: Option<seq<Value>>)
    requires delta.insert.Valid()
    ensures op == UpdateBlockDataOpAsWritten(containerId, index, delta)
  {
    if |delta.delete| == 0 && |delta.insert.keys| == 0 {
      return None;
    }
    var ops := [Str("blocks"), Str(containerId), Num(index)];
    var deletedKeysSet := delta.delete;
    var entries := delta.insert.Entries();
    ops := PushReplaceOps(ops, entries, deletedKeysSet);
    ops := PushDeleteOnlyOps(ops, delta.delete, deletedKeysSet);
    ops := PushInsertOnlyOps(ops, entries, deletedKeysSet);
    op := Some(ops);
  }

  // ---------------------------------------------------------------------
  // Round trips through the op parser
  // ---------------------------------------------------------------------

  /** The calls a batch makes, when it does not fail. */
  ghost function Calls(batch: seq<Value>, local: bool): Option<seq<Event>>
  {
    var r := ParseOps(batch, local);
    if r.fault.None? then Some(r.st.log) else None
  }

  lemma NoPendingDeltas(st: PState)
    requires st.deltas == EmptyMap()
    ensures Flush(st) == Done(st)
  {
    assert st.deltas.Entries() == [];
  }

  /** ParseOps on a batch whose two passes are known. */
  lemma TwoPasses(batch: seq<Value>, local: bool, st1: PState, st2: PState)
    requires ParsePass(Start(local), batch, Remove) == Done(st1)
    requires ParsePass(st1, batch, Upsert) == Done(st2)
    requires st2.deltas == EmptyMap()
    ensures Calls(batch, local) == Some(st2.log)
  {
    NoPendingDeltas(st2);
  }

  /** A created container is reported once, as created. */
  lemma InsertChildContainerRoundTrip(containerId: string, blocks: seq<Value>, local: bool)
    ensures Calls(InsertChildContainerOp(containerId, blocks), local)
      == Some([CreateContainer(containerId, Arr(blocks), local)])
  {
    var batch := InsertChildContainerOp(containerId, blocks);
    var st0 := Start(local);
    var action := Obj(map["i" := Arr(blocks)]);
    assert ContainerOp(st0, containerId, action, Remove) == Done(st0);
    assert ParseOp(st0, batch, Remove) == Done(st0);
    var st2 := st0.(log := [CreateContainer(containerId, Arr(blocks), local)]);
    assert ContainerOp(st0, containerId, action, Upsert) == Done(st2);
    assert ParseOp(st0, batch, Upsert) == Done(st2);
    TwoPasses(batch, local, st0, st2);
  }

  /** A deleted container is reported once, as deleted. */
  lemma DeleteChildContainerRoundTrip(containerId: string, local: bool)
    ensures Calls(DeleteChildContainerOp(containerId), local) == Some([DeleteContainer(containerId, local)])
  {
    var batch := DeleteChildContainerOp(containerId);
    var st0 := Start(local);
    var action := Obj(map["r" := Bool(true)]);
    var st1 := st0.(log := [DeleteContainer(containerId, local)]);
    assert ContainerOp(st0, containerId, action, Remove) == Done(st1);
    assert ParseOp(st0, batch, Remove) == Done(st1);
    assert ContainerOp(st1, containerId, action, Upsert) == Done(st1);
    assert ParseOp(st1, batch, Upsert) == Done(st1);
    TwoPasses(batch, local, st1, st1);
  }

  /** An inserted block is reported once, with its data; a falsy `obj` is
      not reported at all. */
  lemma InsertBlockRoundTrip(containerId: string, index: int, obj: Value, local: bool)
    ensures Calls(InsertBlockOp(containerId, index, obj), local)
      == Some(if Truthy(obj) then [InsertBlock(containerId, index, obj, local)] else [])
  {
    var batch := InsertBlockOp(containerId, index, obj);
    var op := Arr([Num(index), Obj(map["i" := obj])]);
    assert batch[2..] == op.items;
    var st0 := Start(local);
    assert BlockOpStep(st0, containerId, index, op.items[1..], [], Remove) == Step(st0, [], [], None);
    assert BlockOpLoop(st0, containerId, index, op.items[1..], [], Remove) == Step(st0, [], [], None);
    assert GeneralBlockOp(st0, containerId, op, Remove) == Done(st0);
    assert ParseOp(st0, batch, Remove) == Done(st0);
    var st2 := if Truthy(obj) then OnInsertBlock(st0, containerId, index, obj) else st0;
    assert InsertOnly(op) == Ok(None);
    assert BlockOpStep(st0, containerId, index, op.items[1..], [], Upsert) == Step(st2, [], [], None);
    assert BlockOpLoop(st0, containerId, index, op.items[1..], [], Upsert) == Step(st2, [], [], None);
    assert GeneralBlockOp(st0, containerId, op, Upsert) == Done(st2);
    assert ParseOp(st0, batch, Upsert) == Done(st2);
    TwoPasses(batch, local, st0, st2);
    assert st2.log == if Truthy(obj) then [InsertBlock(containerId, index, obj, local)] else [];
  }

  /** A path `['blocks', c, index, ...rest]` is one block op. */
  lemma BlockOpPath(st: PState, containerId: string, index: int, rest: seq<Value>, pass: Pass)
    ensures ParseOp(st, [Str("blocks"), Str(containerId), Num(index)] + rest, pass)
      == ParseBlockOp(st, containerId, Arr([Num(index)] + rest), pass)
  {
    var ops := [Str("blocks"), Str(containerId), Num(index)] + rest;
    assert ops[2..] == [Num(index)] + rest;
  }

  lemma DeleteBlockRemovePass(st: PState, containerId: string, index: int)
    ensures ParseOp(st, DeleteBlockOp(containerId, index), Remove) == Done(OnDeleteBlock(st, containerId, index))
  {
    var flag := Obj(map["r" := Bool(true)]);
    assert DeleteBlockOp(containerId, index) == [Str("blocks"), Str(containerId), Num(index)] + [flag];
    BlockOpPath(st, containerId, index, [flag], Remove);
    assert BlockOpLoop(st, containerId, index, [flag], [], Remove) == Step(st, [], [DeleteBlockAction], None);
    assert Reverse([DeleteBlockAction]) == [DeleteBlockAction];
    assert RunActions(st, containerId, index, [DeleteBlockAction]) == OnDeleteBlock(st, containerId, index);
  }

  lemma DeleteBlockUpsertPass(st: PState, containerId: string, index: int)
    ensures ParseOp(st, DeleteBlockOp(containerId, index), Upsert) == Done(st)
  {
    var batch := DeleteBlockOp(containerId, index);
    var op := Arr([Num(index), Obj(map["r" := Bool(true)])]);
    assert batch[2..] == op.items;
    assert InsertOnly(op) == Ok(None);
    assert BlockOpLoop(st, containerId, index, op.items[1..], [], Upsert) == Step(st, [], [], None);
  }

  /** A deleted block is reported once. */
  lemma DeleteBlockRoundTrip(containerId: string, index: int, local: bool)
    ensures Calls(DeleteBlockOp(containerId, index), local) == Some([DeleteBlock(containerId, index, local)])
  {
    var st0 := Start(local);
    var st1 := OnDeleteBlock(st0, containerId, index);
    DeleteBlockRemovePass(st0, containerId, index);
    DeleteBlockUpsertPass(st1, containerId, index);
    assert st1.deltas == EmptyMap();
    assert st1.log == [DeleteBlock(containerId, index, local)];
    TwoPasses(DeleteBlockOp(containerId, index), local, st1, st1);
  }

  /** A rich-text edit is reported once, with its actions. */
  lemma UpdateRichTextRoundTrip(containerId: string, index: int, ops: seq<Value>, local: bool)
    ensures Calls(UpdateRichTextOp(containerId, index, ops), local)
      == Some([UpdateBlockText(containerId, index, Arr(ops), local)])
  {
    var batch := UpdateRichTextOp(containerId, index, ops);
    var edit := Obj(map["e" := Arr(ops), "et" := Str("rich-text")]);
    var op := Arr([Num(index), Str("text"), edit]);
    assert batch[2..] == op.items;
    var st0 := Start(local);
    assert TextOp(st0, containerId, index, op.items[1..], [], Remove) == Step(st0, [], [], None);
    assert BlockOpLoop(st0, containerId, index, op.items[1..], [], Remove) == Step(st0, [], [], None);
    assert GeneralBlockOp(st0, containerId, op, Remove) == Done(st0);
    assert ParseOp(st0, batch, Remove) == Done(st0);
    var st2 := OnUpdateBlockText(st0, containerId, index, Arr(ops));
    assert InsertOnly(op) == Ok(None);
    assert TextOp(st0, containerId, index, op.items[1..], [], Upsert) == Step(st2, [], [], None);
    assert BlockOpLoop(st0, containerId, index, op.items[1..], [], Upsert) == Step(st2, [], [], None);
    assert GeneralBlockOp(st0, containerId, op, Upsert) == Done(st2);
    assert ParseOp(st0, batch, Upsert) == Done(st2);
    TwoPasses(batch, local, st0, st2);
    assert st2.log == [UpdateBlockText(containerId, index, Arr(ops), local)];
  }
}
