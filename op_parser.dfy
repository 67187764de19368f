/**
 * The json1 op interpreter of the ShareDB client, as the code runs it: an
 * `InternalParser` object that owns the block index and the pending
 * attribute deltas, and the parse procedures that walk an op and call it.
 *
 * The handler is the parser's `log`: every handler callback the code makes
 * is appended to it, in order. Every procedure is proved to do exactly what
 * the matching function of `OpParserSpec` says, including where it stops on
 * a failed assertion or a TypeError.
 */
module OpParser {
  import opened Js
  import opened BlockIdIndex
  import opened OpBlockDelta
  import S = OpParserSpec

  class InternalParser {
    /** `updatingBlockDataDeltaMap`: the pending delta of each block id. */
    var updatingBlockDataDeltaMap: JsMap<Id, DeltaValue>
    /** The contents of `blockIds`: the index -> id map of every container. */
    var blockIds: Ids
    /** The id generator of `blockIds`. */
    var nextId: Id
    const local: bool
    /** The handler calls made so far. */
    var log: seq<S.Event>

    /** The parser as a value. */
    function Abs(): S.PState
      reads this
    {
      S.PState(local, blockIds, nextId, updatingBlockDataDeltaMap, log)
    }

    /** Ids are unique and every pending delta belongs to a tracked block. */
    ghost predicate Valid()
      reads this
    {
      S.Consistent(Abs())
    }

    constructor (local: bool)
      ensures Abs() == S.Start(local) && Valid()
    {
      updatingBlockDataDeltaMap := EmptyMap();
      blockIds := map[];
      nextId := 0;
      this.local := local;
      log := [];
    }

    /** `this.blockIds.getBlockId(containerId, blockIndex)`. */
    method GetBlockId(containerId: string, blockIndex: int) returns (blockId: Id)
      modifies this
      ensures (blockId, blockIds, nextId) == GetBlockIdIn(old(blockIds), containerId, blockIndex, old(nextId))
      ensures updatingBlockDataDeltaMap == old(updatingBlockDataDeltaMap) && log == old(log)
    {
      var r := GetBlockIdIn(blockIds, containerId, blockIndex, nextId);
      blockId, blockIds, nextId := r.0, r.1, r.2;
    }

    method OnDeleteBlock(containerId: string, blockIndex: int)
      modifies this
      ensures Abs() == S.OnDeleteBlock(old(Abs()), containerId, blockIndex)
    {
      var blockId := GetBlockId(containerId, blockIndex);
      blockIds := DeleteIn(blockIds, containerId, blockIndex);
      var ignoreObjectData := updatingBlockDataDeltaMap.Get(blockId);
      if ignoreObjectData.Some? {
        updatingBlockDataDeltaMap := updatingBlockDataDeltaMap.Delete(blockId);
      }
      log := log + [S.DeleteBlock(containerId, blockIndex, local)];
    }

    method OnInsertBlock(containerId: string, blockIndex: int, data: Value)
      modifies this
      ensures Abs() == S.OnInsertBlock(old(Abs()), containerId, blockIndex, data)
    {
      blockIds := InsertIn(blockIds, containerId, blockIndex, nextId);
      nextId := nextId + 1;
      log := log + [S.InsertBlock(containerId, blockIndex, data, local)];
    }

    method OnUpdateBlockText(containerId: string, blockIndex: int, actions: Value)
      modifies this
      ensures Abs() == S.OnUpdateBlockText(old(Abs()), containerId, blockIndex, actions)
    {
      log := log + [S.UpdateBlockText(containerId, blockIndex, actions, local)];
    }

    method OnDeleteBlockData(containerId: string, blockIndex: int, key: string)
      modifies this
      ensures Abs() == S.OnDeleteBlockData(old(Abs()), containerId, blockIndex, key)
    {
      var blockId := GetBlockId(containerId, blockIndex);
      var found := updatingBlockDataDeltaMap.Get(blockId);
      var delta := if found.Some? then found.value else EmptyDelta();
      updatingBlockDataDeltaMap := updatingBlockDataDeltaMap.Set(blockId, delta.Delete(key));
    }

    method OnInsertBlockData(containerId: string, blockIndex: int, key: string, value: Value)
      modifies this
      ensures Abs() == S.OnInsertBlockData(old(Abs()), containerId, blockIndex, key, value)
    {
      var blockId := GetBlockId(containerId, blockIndex);
      var found := updatingBlockDataDeltaMap.Get(blockId);
      var delta := if found.Some? then found.value else EmptyDelta();
      updatingBlockDataDeltaMap := updatingBlockDataDeltaMap.Set(blockId, delta.Insert(key, value));
    }

    /** `executeUpdateBlockDataActions`: one `onUpdateBlockData` per pending
        delta, in the map's order, at the block's place now. */
    method ExecuteUpdateBlockDataActions() returns (fault: Option<ErrorKind>)
      requires updatingBlockDataDeltaMap.Valid() && Injective(blockIds)
      modifies this
      ensures S.Run(Abs(), fault) == S.Flush(old(Abs()))
    {
      var entries := updatingBlockDataDeltaMap.Entries();
      var i := 0;
      while i < |entries|
        invariant 0 <= i <= |entries|
        invariant blockIds == old(blockIds) && updatingBlockDataDeltaMap == old(updatingBlockDataDeltaMap)
        invariant S.FlushFrom(Abs(), entries[i..]) == S.Flush(old(Abs()))
      {
        var (blockId, objectData) := entries[i];
        var place := BlockIndexOf(blockIds, blockId);
        if place.Err? {
          return Some(place.error);
        }
        LocateUnique(blockIds, blockId, place.value.0, place.value.1);
        log := log + [S.UpdateBlockData(place.value.0, place.value.1, objectData, local)];
        assert entries[i..][1..] == entries[i + 1..];
        i := i + 1;
      }
      fault := None;
    }
  }

  // ---------------------------------------------------------------------
  // parseInsertBlockOnlyOp and parseBlockOp
  // ---------------------------------------------------------------------

  /** `parseInsertBlockOnlyOp`: `Ok(true)` when the op was a block insert
      followed only by attribute inserts and was reported as one insert. */
  method ParseInsertBlockOnlyOp(containerId: string, orgOps: Value, parser: InternalParser) returns (r: Result<bool>)
    modifies parser
    ensures match S.InsertOnly(orgOps)
      case Err(e) => r == Err(e) && parser.Abs() == old(parser.Abs())
      case Ok(None) => r == Ok(false) && parser.Abs() == old(parser.Abs())
      case Ok(Some(ins)) => r == Ok(true) && parser.Abs() == S.OnInsertBlock(old(parser.Abs()), containerId, ins.0, ins.1)
  {
    if !orgOps.Arr? {
      // `concat` exists on strings, whose first element is never a number.
      return if orgOps.Str? then Ok(false) else Err(TypeError);
    }
    var ops := orgOps.items;
    if ops == [] || !ops[0].Num? || |ops| == 2 {
      return Ok(false);
    }
    var blockIndex := ops[0].n;
    ops := ops[1..];
    var firstOp := At(ops, 0);
    if !TypeofObject(firstOp) {
      return Ok(false);
    }
    if firstOp.Null? {
      return Err(TypeError);
    }
    if !Truthy(Field(firstOp, "i")) || !(firstOp.Obj? && |firstOp.fields| == 1) {
      return Ok(false);
    }
    ghost var pairs := ops[1..];
    assert pairs == orgOps.items[2..];
    var i := 1;
    while i < |ops|
      invariant 1 <= i <= |ops|
      invariant S.InsertPairs(ops[i..]) == S.InsertPairs(pairs)
      invariant unchanged(parser)
    {
      var nextOp := ops[i];
      assert ops[i..][1..] == ops[i + 1..];
      if !nextOp.Arr? || |nextOp.items| != 2 || !nextOp.items[0].Str? {
        assert S.InsertPairs(pairs) == Ok(false);
        return Ok(false);
      }
      var op := nextOp.items[1];
      if !TypeofObject(op) {
        assert S.InsertPairs(pairs) == Ok(false);
        return Ok(false);
      }
      if op.Null? {
        assert S.InsertPairs(pairs) == Err(TypeError);
        return Err(TypeError);
      }
      if Field(op, "i") == Undefined || !(op.Obj? && |op.fields| == 1) {
        assert S.InsertPairs(pairs) == Ok(false);
        return Ok(false);
      }
      i := i + 1;
    }
    assert ops[i..] == [];
    assert S.InsertPairs(pairs) == Ok(true);
    var blockData := Field(firstOp, "i");
    if !Truthy(Field(blockData, "id")) || !Truthy(Field(blockData, "type")) {
      return Err(AssertionFailed);
    }
    var fields := blockData.fields;
    i := 1;
    while i < |ops|
      invariant 1 <= i <= |ops|
      invariant S.Merge(fields, ops[i..]) == S.Merge(blockData.fields, pairs)
      invariant unchanged(parser)
    {
      S.InsertPairsShape(pairs, i - 1);
      var nextOp := ops[i];
      assert ops[i..][1..] == ops[i + 1..];
      fields := fields[nextOp.items[0].s := Field(nextOp.items[1], "i")];
      i := i + 1;
    }
    assert ops[i..] == [];
    assert S.InsertOnly(orgOps) == Ok(Some((blockIndex, Obj(fields))));
    parser.OnInsertBlock(containerId, blockIndex, Obj(fields));
    return Ok(true);
  }

  /** One turn of the `while` loop of `parseBlockOp`: reads the ops at the
      front of `ops`, and returns the error that stops the block op, the ops
      left and the removals deferred so far. */
  method BlockOpTurn(containerId: string, blockIndex: int, ops: seq<Value>, actions: seq<S.RemoveAction>,
                     processType: S.Pass, processor: InternalParser)
    returns (fault: Option<ErrorKind>, rest: seq<Value>, removeActions: seq<S.RemoveAction>)
    requires ops != []
    modifies processor
    ensures var s := S.BlockOpStep(old(processor.Abs()), containerId, blockIndex, ops, actions, processType);
      && processor.Abs() == s.st && fault == s.fault
      && (fault.None? ==> rest == s.rest && removeActions == s.actions)
  {
    removeActions := actions;
    rest := ops;
    var data := ops[0];
    if data == Str("text") {
      var opData := At(ops, 1);
      if !TypeofObject(opData) {
        return Some(AssertionFailed), rest, removeActions;
      }
      if opData.Null? {
        return Some(TypeError), rest, removeActions;
      }
      if Field(opData, "et") != Str("rich-text") {
        return Some(AssertionFailed), rest, removeActions;
      }
      rest := rest[2..];
      if processType == S.Upsert {
        processor.OnUpdateBlockText(containerId, blockIndex, Field(opData, "e"));
      }
      if |rest| != 0 {
        return Some(AssertionFailed), rest, removeActions;
      }
    } else if data.Arr? {
      if |data.items| != 2 || !data.items[0].Str? {
        return Some(AssertionFailed), rest, removeActions;
      }
      var key, opData := data.items[0].s, data.items[1];
      if key == "text" {
        if !TypeofObject(opData) {
          return Some(AssertionFailed), rest, removeActions;
        }
        if opData.Null? {
          return Some(TypeError), rest, removeActions;
        }
        if Truthy(Field(opData, "i")) && processType == S.Upsert {
          processor.OnInsertBlockData(containerId, blockIndex, key, Field(opData, "i"));
        }
        if Truthy(Field(opData, "r")) && processType == S.Remove {
          processor.OnDeleteBlockData(containerId, blockIndex, key);
        }
        if Field(opData, "et") == Str("rich-text") && processType == S.Upsert {
          processor.OnUpdateBlockText(containerId, blockIndex, Field(opData, "e"));
        }
      } else {
        var v := Prop(opData, S.Keys(processType));
        if v.Err? {
          return Some(v.error), rest, removeActions;
        }
        if Truthy(v.value) {
          if processType == S.Remove {
            removeActions := removeActions + [S.DeleteBlockDataAction(key)];
          } else {
            processor.OnInsertBlockData(containerId, blockIndex, key, v.value);
          }
        }
      }
      rest := rest[1..];
    } else if TypeofObject(data) {
      var v := Prop(data, S.Keys(processType));
      if v.Err? {
        return Some(v.error), rest, removeActions;
      }
      if Truthy(v.value) {
        if processType == S.Remove {
          removeActions := removeActions + [S.DeleteBlockAction];
        } else {
          processor.OnInsertBlock(containerId, blockIndex, v.value);
        }
      }
      rest := rest[1..];
    } else {
      if !data.Str? || |ops| != 2 {
        return Some(AssertionFailed), rest, removeActions;
      }
      var key := data.s;
      var v := Prop(ops[1], S.Keys(processType));
      if v.Err? {
        return Some(v.error), rest, removeActions;
      }
      if Truthy(v.value) {
        if processType == S.Remove {
          removeActions := removeActions + [S.DeleteBlockDataAction(key)];
        } else {
          processor.OnInsertBlockData(containerId, blockIndex, key, v.value);
        }
      }
      rest := rest[2..];
    }
    fault := None;
  }

  /** The `removeActions.forEach` callback of `parseBlockOp`. */
  method RunRemoveAction(containerId: string, blockIndex: int, a: S.RemoveAction, processor: InternalParser)
    modifies processor
    ensures processor.Abs() == S.RunAction(old(processor.Abs()), containerId, blockIndex, a)
  {
    match a {
      case DeleteBlockAction =>
        processor.OnDeleteBlock(containerId, blockIndex);
      case DeleteBlockDataAction(key) =>
        processor.OnDeleteBlockData(containerId, blockIndex, key);
    }
  }

  /** `parseBlockOp`: `[index, ...path]` inside `containerId`. Removals of
      the block and of its attributes are deferred to the end, last first. */
  method ParseBlockOp(containerId: string, orgOps: Value, processType: S.Pass, processor: InternalParser)
    returns (fault: Option<ErrorKind>)
    modifies processor
    ensures S.Run(processor.Abs(), fault) == S.ParseBlockOp(old(processor.Abs()), containerId, orgOps, processType)
  {
    if processType == S.Upsert {
      var inserted := ParseInsertBlockOnlyOp(containerId, orgOps, processor);
      if inserted.Err? {
        return Some(inserted.error);
      }
      if inserted.value {
        return None;
      }
    }
    if !orgOps.Arr? {
      return Some(AssertionFailed);
    }
    var ops := orgOps.items;
    if |ops| <= 1 {
      return None;
    }
    if !ops[0].Num? {
      return Some(Unsupported);
    }
    var blockIndex := ops[0].n;
    ops := ops[1..];
    ghost var final := S.BlockOpLoop(processor.Abs(), containerId, blockIndex, ops, [], processType);
    assert S.ParseBlockOp(old(processor.Abs()), containerId, orgOps, processType)
      == if final.fault.Some? then S.Run(final.st, final.fault)
         else S.Done(S.RunActions(final.st, containerId, blockIndex, Reverse(final.actions)));
    var removeActions: seq<S.RemoveAction> := [];
    while |ops| > 0
      invariant S.BlockOpLoop(processor.Abs(), containerId, blockIndex, ops, removeActions, processType) == final
      decreases |ops|
    {
      fault, ops, removeActions := BlockOpTurn(containerId, blockIndex, ops, removeActions, processType, processor);
      if fault.Some? {
        return;
      }
    }
    assert final == S.Step(processor.Abs(), [], removeActions, None);
    ghost var st1 := processor.Abs();
    var actions := Reverse(removeActions);
    var i := 0;
    while i < |actions|
      invariant 0 <= i <= |actions|
      invariant S.RunActions(processor.Abs(), containerId, blockIndex, actions[i..])
        == S.RunActions(st1, containerId, blockIndex, actions)
    {
      assert actions[i..][1..] == actions[i + 1..];
      RunRemoveAction(containerId, blockIndex, actions[i], processor);
      i := i + 1;
    }
    fault := None;
  }

  // ---------------------------------------------------------------------
  // parseOp and parseOps
  // ---------------------------------------------------------------------

  /** `parseOp` on one op path. The handler's container callbacks are
      called directly, not through the parser. */
  method ParseOp(ops: seq<Value>, parseType: S.Pass, parser: InternalParser) returns (fault: Option<ErrorKind>)
    modifies parser
    ensures S.Run(parser.Abs(), fault) == S.ParseOp(old(parser.Abs()), ops, parseType)
    decreases S.MultiRank(ops), SizeSeq(ops), 0
  {
    var rootKey := At(ops, 0);
    if rootKey == Str("meta") {
      // `parseMetaOp` only logs a warning.
      return None;
    }
    if rootKey != Str("blocks") {
      return Some(AssertionFailed);
    }
    var containerId := At(ops, 1);
    if containerId.Arr? {
      assert SizeSeq(ops) == Size(ops[0]) + SizeSeq(ops[1..]);
      fault := ParseSubOps(ops[1..], parseType, parser);
      return;
    }
    if !containerId.Str? {
      return Some(AssertionFailed);
    }
    var c := containerId.s;
    var target := At(ops, 2);
    if target.Arr? {
      fault := ParseBlockOps(c, if parseType == S.Remove then Reverse(ops[2..]) else ops[2..], parseType, parser);
    } else if TypeofObject(target) {
      if target.Null? {
        return Some(TypeError);
      }
      if Truthy(Field(target, "r")) && parseType == S.Remove {
        parser.log := parser.log + [S.DeleteContainer(c, parser.local)];
      }
      if Truthy(Field(target, "i")) && parseType == S.Upsert {
        parser.log := parser.log + [S.CreateContainer(c, Field(target, "i"), parser.local)];
      }
      return None;
    } else {
      if !target.Num? {
        return Some(AssertionFailed);
      }
      fault := ParseBlockOp(c, Arr(ops[2..]), parseType, parser);
    }
  }

  /** The `subOps.forEach` of a multi-container op: every element after
      `blocks` is spread into a path of its own. */
  method ParseSubOps(subOps: seq<Value>, parseType: S.Pass, parser: InternalParser) returns (fault: Option<ErrorKind>)
    modifies parser
    ensures S.Run(parser.Abs(), fault) == S.SubOps(old(parser.Abs()), subOps, parseType)
    decreases 1, SizeSeq(subOps), 1
  {
    var i := 0;
    while i < |subOps|
      invariant 0 <= i <= |subOps|
      invariant S.SubOps(parser.Abs(), subOps[i..], parseType) == S.SubOps(old(parser.Abs()), subOps, parseType)
    {
      ghost var before := parser.Abs();
      assert subOps[i..][0] == subOps[i] && subOps[i..][1..] == subOps[i + 1..];
      var subOp := S.Spread(subOps[i]);
      if subOp.Err? {
        return Some(subOp.error);
      }
      var newOp := [Str("blocks")] + subOp.value;
      S.SubOpShrinks(subOps, i);
      fault := ParseOp(newOp, parseType, parser);
      assert S.SubOps(before, subOps[i..], parseType)
        == if fault.Some? then S.Run(parser.Abs(), fault) else S.SubOps(parser.Abs(), subOps[i + 1..], parseType);
      if fault.Some? {
        return;
      }
      i := i + 1;
    }
    fault := None;
  }

  /** The `forEach` over the block ops of one container. */
  method ParseBlockOps(containerId: string, blockOps: seq<Value>, parseType: S.Pass, parser: InternalParser)
    returns (fault: Option<ErrorKind>)
    modifies parser
    ensures S.Run(parser.Abs(), fault) == S.ParseBlockOps(old(parser.Abs()), containerId, blockOps, parseType)
  {
    var i := 0;
    while i < |blockOps|
      invariant 0 <= i <= |blockOps|
      invariant S.ParseBlockOps(parser.Abs(), containerId, blockOps[i..], parseType)
        == S.ParseBlockOps(old(parser.Abs()), containerId, blockOps, parseType)
    {
      ghost var before := parser.Abs();
      assert blockOps[i..][0] == blockOps[i] && blockOps[i..][1..] == blockOps[i + 1..];
      fault := ParseBlockOp(containerId, blockOps[i], parseType, parser);
      assert S.ParseBlockOps(before, containerId, blockOps[i..], parseType)
        == if fault.Some? then S.Run(parser.Abs(), fault) else S.ParseBlockOps(parser.Abs(), containerId, blockOps[i + 1..], parseType);
      if fault.Some? {
        return;
      }
      i := i + 1;
    }
    fault := None;
  }

  /** `parseOps`: interprets a batch of op paths with a fresh parser, the
      removal pass first, then the upsert pass, then the pending attribute
      deltas. Returns the handler calls made and the error that stopped the
      batch, if any. */
  method ParseOps(orgOps: seq<Value>, local: bool) returns (events: seq<S.Event>, fault: Option<ErrorKind>)
    ensures events == S.ParseOps(orgOps, local).st.log
    ensures fault == S.ParseOps(orgOps, local).fault
  {
    var parser := new InternalParser(local);
    ghost var r1 := S.ParsePass(S.Start(local), orgOps, S.Remove);
    var i := 0;
    while i < 2
      invariant 0 <= i <= 2
      invariant i == 0 ==> parser.Abs() == S.Start(local)
      invariant i == 1 ==> r1 == S.Done(parser.Abs())
      invariant i == 2 ==> r1.fault.None? && S.ParsePass(r1.st, orgOps, S.Upsert) == S.Done(parser.Abs())
    {
      var parseType := if i == 0 then S.Remove else S.Upsert;
      ghost var before := parser.Abs();
      var ops := orgOps;
      var first := At(ops, 0);
      if first.Arr? {
        var j := 0;
        while j < |ops|
          invariant 0 <= j <= |ops|
          invariant S.ParseEach(parser.Abs(), ops[j..], parseType) == S.ParseEach(before, ops, parseType)
        {
          assert ops[j..][1..] == ops[j + 1..];
          match ops[j] {
            case Arr(items) =>
              fault := ParseOp(items, parseType, parser);
            case Null =>
              fault := Some(TypeError);
            case Undefined =>
              fault := Some(TypeError);
            case Obj(_) =>
              fault := Some(Unsupported);
            case _ =>
              fault := Some(AssertionFailed);
          }
          if fault.Some? {
            events := parser.log;
            return;
          }
          j := j + 1;
        }
      } else {
        fault := ParseOp(ops, parseType, parser);
        if fault.Some? {
          events := parser.log;
          return;
        }
      }
      i := i + 1;
    }
    S.StartConsistent(local);
    S.ParsePassGrows(S.Start(local), orgOps, S.Remove);
    S.ParsePassGrows(r1.st, orgOps, S.Upsert);
    fault := parser.ExecuteUpdateBlockDataActions();
    events := parser.log;
  }
}
