/**
 * What interpreting a batch of json1 ops means: the handler calls the
 * parser makes, in order, as functions of the ops.
 *
 * A batch is read twice, first for removals and then for insertions and
 * updates, so that indexes stay meaningful. Attribute edits are not reported
 * at once: they are gathered per block id and reported after both passes, at
 * the block's index at that time. A failed `assert(...)` or a JavaScript
 * TypeError stops the batch; the handler calls made before it have happened
 * and are kept in the log.
 */
module OpParserSpec {
  import opened Js
  import opened BlockIdIndex
  import opened OpBlockDelta

  /** `ParseType`. */
  datatype Pass = Remove | Upsert

  /** A call of one of the six `OpParserHandler` callbacks. */
  datatype Event =
    | DeleteBlock(container: string, index: int, local: bool)
    | InsertBlock(container: string, index: int, data: Value, local: bool)
    | UpdateBlockData(container: string, index: int, delta: DeltaValue, local: bool)
    | UpdateBlockText(container: string, index: int, actions: Value, local: bool)
    | DeleteContainer(container: string, local: bool)
    | CreateContainer(container: string, blocks: Value, local: bool)

  /** The state of an `InternalParser`: the block index with its id counter,
      the pending attribute deltas by block id, and the handler calls made. */
  datatype PState = PState(local: bool, ids: Ids, nextId: Id, deltas: JsMap<Id, DeltaValue>, log: seq<Event>)

  /** The state reached, and the error that stopped the batch, if any. */
  datatype Run = Run(st: PState, fault: Option<ErrorKind>)

  function Done(st: PState): Run
  {
    Run(st, None)
  }

  function Fail(st: PState, e: ErrorKind): Run
  {
    Run(st, Some(e))
  }

  function Start(local: bool): PState
  {
    PState(local, map[], 0, EmptyMap(), [])
  }

  // ---------------------------------------------------------------------
  // InternalParser
  // ---------------------------------------------------------------------

  /** `onDeleteBlock`: the block's pending delta is dropped with it. */
  function OnDeleteBlock(st: PState, c: string, k: int): PState
  {
    var (id, ids, next) := GetBlockIdIn(st.ids, c, k, st.nextId);
    var deltas := if st.deltas.Has(id) then st.deltas.Delete(id) else st.deltas;
    st.(ids := DeleteIn(ids, c, k), nextId := next, deltas := deltas,
        log := st.log + [DeleteBlock(c, k, st.local)])
  }

  function OnInsertBlock(st: PState, c: string, k: int, data: Value): PState
  {
    st.(ids := InsertIn(st.ids, c, k, st.nextId), nextId := st.nextId + 1,
        log := st.log + [InsertBlock(c, k, data, st.local)])
  }

  function OnUpdateBlockText(st: PState, c: string, k: int, actions: Value): PState
  {
    st.(log := st.log + [UpdateBlockText(c, k, actions, st.local)])
  }

  /** The pending delta of the block at `k`, created empty on demand. */
  function DeltaOf(deltas: JsMap<Id, DeltaValue>, id: Id): DeltaValue
  {
    match deltas.Get(id)
    case Some(d) => d
    case None => EmptyDelta()
  }

  function OnDeleteBlockData(st: PState, c: string, k: int, key: string): PState
  {
    var (id, ids, next) := GetBlockIdIn(st.ids, c, k, st.nextId);
    st.(ids := ids, nextId := next, deltas := st.deltas.Set(id, DeltaOf(st.deltas, id).Delete(key)))
  }

  function OnInsertBlockData(st: PState, c: string, k: int, key: string, value: Value): PState
  {
    var (id, ids, next) := GetBlockIdIn(st.ids, c, k, st.nextId);
    st.(ids := ids, nextId := next, deltas := st.deltas.Set(id, DeltaOf(st.deltas, id).Insert(key, value)))
  }

  /** `executeUpdateBlockDataActions` from the given entry on. */
  ghost function FlushFrom(st: PState, entries: seq<(Id, DeltaValue)>): Run
    decreases |entries|
  {
    if entries == [] then Done(st)
    else
      match Locate(st.ids, entries[0].0)
      case None => Fail(st, AssertionFailed)
      case Some(place) =>
        var e := UpdateBlockData(place.0, place.1, entries[0].1, st.local);
        FlushFrom(st.(log := st.log + [e]), entries[1..])
  }

  /** `executeUpdateBlockDataActions`: every pending delta, in the order the
      map received them, at the block's current place. */
  ghost function Flush(st: PState): Run
    requires st.deltas.Valid()
  {
    FlushFrom(st, st.deltas.Entries())
  }

  // ---------------------------------------------------------------------
  // parseBlockOp
  // ---------------------------------------------------------------------

  /** A removal that `parseBlockOp` defers to the end of the block op. */
  datatype RemoveAction = DeleteBlockAction | DeleteBlockDataAction(key: string)

  /** One turn of the `while` loop of `parseBlockOp`: the state, the ops still
      to read, the deferred removals, and the error, if any. */
  datatype Step = Step(st: PState, rest: seq<Value>, actions: seq<RemoveAction>, fault: Option<ErrorKind>)

  function Keys(pass: Pass): string
  {
    if pass == Remove then "r" else "i"
  }

  /** An op on the `text` attribute: `'text', {et: 'rich-text', e}`, which must
      end the block op. */
  function TextOp(st: PState, c: string, k: int, ops: seq<Value>, actions: seq<RemoveAction>, pass: Pass): (r: Step)
    requires ops != []
    ensures |r.rest| < |ops|
    ensures r.actions == actions
  {
    var opData := At(ops, 1);
    if !TypeofObject(opData) then Step(st, ops[1..], actions, Some(AssertionFailed))
    else if opData.Null? then Step(st, ops[1..], actions, Some(TypeError))
    else if Field(opData, "et") != Str("rich-text") then Step(st, ops[1..], actions, Some(AssertionFailed))
    else
      var st1 := if pass == Upsert then OnUpdateBlockText(st, c, k, Field(opData, "e")) else st;
      var rest := ops[2..];
      Step(st1, rest, actions, if rest == [] then None else Some(AssertionFailed))
  }

  /** A `[key, op]` pair. On the `text` key removals happen at once and a
      rich-text edit may ride along; on other keys removals are deferred. */
  function PairOp(st: PState, c: string, k: int, ops: seq<Value>, actions: seq<RemoveAction>, pass: Pass): (r: Step)
    requires ops != [] && ops[0].Arr?
    ensures |r.rest| < |ops|
    ensures pass == Upsert ==> r.actions == actions
  {
    var d := ops[0].items;
    if |d| != 2 || !d[0].Str? then Step(st, ops[1..], actions, Some(AssertionFailed))
    else
      var key, opData := d[0].s, d[1];
      if key == "text" then
        if !TypeofObject(opData) then Step(st, ops[1..], actions, Some(AssertionFailed))
        else if opData.Null? then Step(st, ops[1..], actions, Some(TypeError))
        else
          var ins, rem := Field(opData, "i"), Field(opData, "r");
          var st1 := if Truthy(ins) && pass == Upsert then OnInsertBlockData(st, c, k, key, ins) else st;
          var st2 := if Truthy(rem) && pass == Remove then OnDeleteBlockData(st1, c, k, key) else st1;
          var st3 := if Field(opData, "et") == Str("rich-text") && pass == Upsert
            then OnUpdateBlockText(st2, c, k, Field(opData, "e")) else st2;
          Step(st3, ops[1..], actions, None)
      else
        KeyedOp(st, c, k, key, opData, ops[1..], actions, pass)
  }

  /** `key, op` on an attribute other than `text`: a removal is deferred, an
      insertion is recorded in the pending delta. */
  function KeyedOp(st: PState, c: string, k: int, key: string, opData: Value, rest: seq<Value>,
                   actions: seq<RemoveAction>, pass: Pass): (r: Step)
    ensures r.rest == rest
    ensures pass == Upsert ==> r.actions == actions
  {
    match Prop(opData, Keys(pass))
    case Err(e) => Step(st, rest, actions, Some(e))
    case Ok(v) =>
      if !Truthy(v) then Step(st, rest, actions, None)
      else if pass == Remove then Step(st, rest, actions + [DeleteBlockDataAction(key)], None)
      else Step(OnInsertBlockData(st, c, k, key, v), rest, actions, None)
  }

  /** `{r}` or `{i}` on the block itself. */
  function BlockItselfOp(st: PState, c: string, k: int, ops: seq<Value>, actions: seq<RemoveAction>, pass: Pass): (r: Step)
    requires ops != []
    ensures |r.rest| < |ops|
    ensures pass == Upsert ==> r.actions == actions
  {
    match Prop(ops[0], Keys(pass))
    case Err(e) => Step(st, ops[1..], actions, Some(e))
    case Ok(v) =>
      if !Truthy(v) then Step(st, ops[1..], actions, None)
      else if pass == Remove then Step(st, ops[1..], actions + [DeleteBlockAction], None)
      else Step(OnInsertBlock(st, c, k, v), ops[1..], actions, None)
  }

  /** A path ending in an attribute name: `key, op`, which must end the
      block op. (The check that `key` is not `text` cannot fail here: that
      case was taken by the first branch.) */
  function LastKeyOp(st: PState, c: string, k: int, ops: seq<Value>, actions: seq<RemoveAction>, pass: Pass): (r: Step)
    requires ops != []
    ensures |r.rest| < |ops|
    ensures pass == Upsert ==> r.actions == actions
  {
    if !ops[0].Str? || |ops| != 2 then Step(st, ops[1..], actions, Some(AssertionFailed))
    else KeyedOp(st, c, k, ops[0].s, ops[1], [], actions, pass)
  }

  function BlockOpStep(st: PState, c: string, k: int, ops: seq<Value>, actions: seq<RemoveAction>, pass: Pass): (r: Step)
    requires ops != []
    ensures |r.rest| < |ops|
    ensures pass == Upsert ==> r.actions == actions
  {
    if ops[0] == Str("text") then TextOp(st, c, k, ops, actions, pass)
    else if ops[0].Arr? then PairOp(st, c, k, ops, actions, pass)
    else if TypeofObject(ops[0]) then BlockItselfOp(st, c, k, ops, actions, pass)
    else LastKeyOp(st, c, k, ops, actions, pass)
  }

  /** The `while` loop of `parseBlockOp`. */
  function BlockOpLoop(st: PState, c: string, k: int, ops: seq<Value>, actions: seq<RemoveAction>, pass: Pass): (r: Step)
    ensures pass == Upsert ==> r.actions == actions
    decreases |ops|
  {
    if ops == [] then Step(st, [], actions, None)
    else
      var s := BlockOpStep(st, c, k, ops, actions, pass);
      if s.fault.Some? then s else BlockOpLoop(s.st, c, k, s.rest, s.actions, pass)
  }

  function RunAction(st: PState, c: string, k: int, a: RemoveAction): PState
  {
    match a
    case DeleteBlockAction => OnDeleteBlock(st, c, k)
    case DeleteBlockDataAction(key) => OnDeleteBlockData(st, c, k, key)
  }

  /** The deferred removals, in the order given. */
  function RunActions(st: PState, c: string, k: int, actions: seq<RemoveAction>): PState
    decreases |actions|
  {
    if actions == [] then st else RunActions(RunAction(st, c, k, actions[0]), c, k, actions[1..])
  }

  /** Whether every `[key, {i}]` pair after the block insert is a plain
      attribute insert; a `null` op is a TypeError. */
  function InsertPairs(pairs: seq<Value>): Result<bool>
    decreases |pairs|
  {
    if pairs == [] then Ok(true)
    else
      var p := pairs[0];
      if !p.Arr? || |p.items| != 2 || !p.items[0].Str? || !TypeofObject(p.items[1]) then Ok(false)
      else if p.items[1].Null? then Err(TypeError)
      else if Field(p.items[1], "i") == Undefined || !(p.items[1].Obj? && |p.items[1].fields| == 1) then Ok(false)
      else InsertPairs(pairs[1..])
  }

  /** Accepted pairs are exactly `[key, {i: value}]` attribute inserts. */
  lemma {:induction false} InsertPairsShape(pairs: seq<Value>, j: nat)
    requires InsertPairs(pairs) == Ok(true) && j < |pairs|
    ensures pairs[j].Arr? && |pairs[j].items| == 2 && pairs[j].items[0].Str?
    ensures pairs[j].items[1].Obj? && |pairs[j].items[1].fields| == 1 && "i" in pairs[j].items[1].fields
    decreases j
  {
    if j > 0 {
      InsertPairsShape(pairs[1..], j - 1);
    }
  }

  /** `blockData[key] = op.i` for every pair, in order. */
  function Merge(fields: map<string, Value>, pairs: seq<Value>): map<string, Value>
    decreases |pairs|
  {
    if pairs == [] then fields
    else
      var p := pairs[0];
      var fields' := if p.Arr? && |p.items| == 2 && p.items[0].Str?
        then fields[p.items[0].s := Field(p.items[1], "i")] else fields;
      Merge(fields', pairs[1..])
  }

  /** `parseInsertBlockOnlyOp`: a block insert followed by attribute inserts
      on it, merged into one block. `Ok(None)` declines the op. */
  function InsertOnly(op: Value): Result<Option<(int, Value)>>
  {
    if op.Str? then Ok(None)
    else if !op.Arr? then Err(TypeError)
    else
      var items := op.items;
      if items == [] || !items[0].Num? || |items| == 2 then Ok(None)
      else
        var first := At(items, 1);
        if !TypeofObject(first) then Ok(None)
        else if first.Null? then Err(TypeError)
        else if !Truthy(Field(first, "i")) || !(first.Obj? && |first.fields| == 1) then Ok(None)
        else
          match InsertPairs(items[2..])
          case Err(e) => Err(e)
          case Ok(ok) =>
            if !ok then Ok(None)
            else
              var data := Field(first, "i");
              if !Truthy(Field(data, "id")) || !Truthy(Field(data, "type")) then Err(AssertionFailed)
              else Ok(Some((items[0].n, Obj(Merge(data.fields, items[2..])))))
  }

  /** `parseBlockOp` after the insert-only fast path. */
  function GeneralBlockOp(st: PState, c: string, op: Value, pass: Pass): Run
  {
    if !op.Arr? then Fail(st, AssertionFailed)
    else if |op.items| <= 1 then Done(st)
    else if !op.items[0].Num? then Fail(st, Unsupported)
    else
      var k := op.items[0].n;
      var s := BlockOpLoop(st, c, k, op.items[1..], [], pass);
      if s.fault.Some? then Run(s.st, s.fault)
      else Done(RunActions(s.st, c, k, Reverse(s.actions)))
  }

  /** `parseBlockOp`: `[index, ...path]` inside container `c`. */
  function ParseBlockOp(st: PState, c: string, op: Value, pass: Pass): Run
  {
    if pass == Remove then GeneralBlockOp(st, c, op, pass)
    else
      match InsertOnly(op)
      case Err(e) => Fail(st, e)
      case Ok(None) => GeneralBlockOp(st, c, op, pass)
      case Ok(Some(ins)) => Done(OnInsertBlock(st, c, ins.0, ins.1))
  }

  /** `parseBlockOp` on each block op in turn. */
  function ParseBlockOps(st: PState, c: string, ops: seq<Value>, pass: Pass): Run
    decreases |ops|
  {
    if ops == [] then Done(st)
    else
      var r := ParseBlockOp(st, c, ops[0], pass);
      if r.fault.Some? then r else ParseBlockOps(r.st, c, ops[1..], pass)
  }

  // ---------------------------------------------------------------------
  // parseOp and parseOps
  // ---------------------------------------------------------------------

  /** `[...v]`: arrays and strings spread, anything else is a TypeError. */
  function Spread(v: Value): Result<seq<Value>>
  {
    match v
    case Arr(items) => Ok(items)
    case Str(s) => Ok(Chars(s))
    case _ => Err(TypeError)
  }

  function MultiRank(ops: seq<Value>): nat
  {
    if At(ops, 1).Arr? then 1 else 0
  }

  /** `parseOp` on one op path. */
  function ParseOp(st: PState, ops: seq<Value>, pass: Pass): Run
    decreases MultiRank(ops), SizeSeq(ops), 0
  {
    var root := At(ops, 0);
    if root == Str("meta") then Done(st)
    else if root != Str("blocks") then Fail(st, AssertionFailed)
    else
      var cid := At(ops, 1);
      if cid.Arr? then
        assert SizeSeq(ops) == Size(ops[0]) + SizeSeq(ops[1..]);
        SubOps(st, ops[1..], pass)
      else if !cid.Str? then Fail(st, AssertionFailed)
      else
        var c, target := cid.s, At(ops, 2);
        if target.Arr? then
          ParseBlockOps(st, c, if pass == Remove then Reverse(ops[2..]) else ops[2..], pass)
        else if TypeofObject(target) then
          ContainerOp(st, c, target, pass)
        else if !target.Num? then Fail(st, AssertionFailed)
        else ParseBlockOp(st, c, Arr(ops[2..]), pass)
  }

  /** A multi-container op: each element after `blocks` is its own path. */
  function SubOps(st: PState, subs: seq<Value>, pass: Pass): Run
    decreases 1, SizeSeq(subs), 1
  {
    if subs == [] then Done(st)
    else
      match Spread(subs[0])
      case Err(e) => Fail(st, e)
      case Ok(tail) =>
        var op := [Str("blocks")] + tail;
        SubOpShrinks(subs, 0);
        var r := ParseOp(st, op, pass);
        if r.fault.Some? then r else SubOps(r.st, subs[1..], pass)
  }

  /** The path spread from one element of a multi-container op is not
      itself multi-container, or is smaller than the whole op. */
  lemma SubOpShrinks(subs: seq<Value>, i: nat)
    requires i < |subs| && Spread(subs[i]).Ok?
    ensures var op := [Str("blocks")] + Spread(subs[i]).value;
      MultiRank(op) == 0 || SizeSeq(op) <= SizeSeq(subs)
  {
    var op := [Str("blocks")] + Spread(subs[i]).value;
    if subs[i].Arr? {
      assert op[1..] == subs[i].items;
      SizeSeqElement(subs, i);
    } else {
      assert Spread(subs[i]).value == Chars(subs[i].s);
    }
  }

  /** `{r}` removes a container, `{i: blocks}` creates one. */
  function ContainerOp(st: PState, c: string, action: Value, pass: Pass): Run
  {
    match Prop(action, Keys(pass))
    case Err(e) => Fail(st, e)
    case Ok(v) =>
      if !Truthy(v) then Done(st)
      else if pass == Remove then Done(st.(log := st.log + [DeleteContainer(c, st.local)]))
      else Done(st.(log := st.log + [CreateContainer(c, v, st.local)]))
  }

  /** One element of a batch of op paths. */
  function ParseEntry(st: PState, op: Value, pass: Pass): Run
  {
    match op
    case Arr(items) => ParseOp(st, items, pass)
    case Null => Fail(st, TypeError)
    case Undefined => Fail(st, TypeError)
    case Obj(_) => Fail(st, Unsupported)
    case _ => Fail(st, AssertionFailed)
  }

  function ParseEach(st: PState, ops: seq<Value>, pass: Pass): Run
    decreases |ops|
  {
    if ops == [] then Done(st)
    else
      var r := ParseEntry(st, ops[0], pass);
      if r.fault.Some? then r else ParseEach(r.st, ops[1..], pass)
  }

  /** One pass over the batch: a list of paths, or one path. */
  function ParsePass(st: PState, batch: seq<Value>, pass: Pass): Run
  {
    if At(batch, 0).Arr? then ParseEach(st, batch, pass) else ParseOp(st, batch, pass)
  }

  /** `parseOps`: the removal pass, the upsert pass, then the pending
      attribute deltas. */
  ghost function ParseOps(batch: seq<Value>, local: bool): Run
  {
    var r1 := ParsePass(Start(local), batch, Remove);
    if r1.fault.Some? then r1
    else
      var r2 := ParsePass(r1.st, batch, Upsert);
      if r2.fault.Some? then r2
      else
        ParsePassGrows(Start(local), batch, Remove);
        ParsePassGrows(r1.st, batch, Upsert);
        Flush(r2.st)
  }

  // ---------------------------------------------------------------------
  // What a pass keeps
  // ---------------------------------------------------------------------

  /** Ids are unique and below the counter, and every pending delta belongs
      to a block the index still tracks. */
  ghost predicate Consistent(st: PState)
  {
    && Injective(st.ids) && Below(st.ids, st.nextId)
    && st.deltas.Valid()
    && forall id | id in st.deltas.values :: Tracked(st.ids, id)
  }

  /** The handler calls a pass can make. */
  predicate PassEvent(e: Event, pass: Pass)
  {
    if pass == Remove then e.DeleteBlock? || e.DeleteContainer?
    else e.InsertBlock? || e.UpdateBlockText? || e.CreateContainer?
  }

  /** `b` follows `a` within one pass: consistency is kept and only calls of
      that pass are appended. */
  ghost predicate Grows(a: PState, b: PState, pass: Pass)
  {
    && b.local == a.local
    && (Consistent(a) ==> Consistent(b))
    && a.log <= b.log
    && forall i | |a.log| <= i < |b.log| :: PassEvent(b.log[i], pass)
  }

  lemma GrowsTrans(a: PState, b: PState, c: PState, pass: Pass)
    requires Grows(a, b, pass) && Grows(b, c, pass)
    ensures Grows(a, c, pass)
  {
    forall i | |a.log| <= i < |c.log|
      ensures PassEvent(c.log[i], pass)
    {
      if i < |b.log| {
        assert c.log[i] == b.log[i];
      }
    }
  }

  lemma StartConsistent(local: bool)
    ensures Consistent(Start(local))
  {
  }

  lemma OnDeleteBlockGrows(st: PState, c: string, k: int)
    ensures Grows(st, OnDeleteBlock(st, c, k), Remove)
  {
    var r := OnDeleteBlock(st, c, k);
    if Consistent(st) {
      var (id, ids, next) := GetBlockIdIn(st.ids, c, k, st.nextId);
      GetBlockIdKeepsInvariant(st.ids, c, k, st.nextId);
      DeleteInKeepsInvariant(ids, c, k, next);
      forall v | v in r.deltas.values
        ensures Tracked(r.ids, v)
      {
        GetBlockIdKeepsTracked(st.ids, c, k, st.nextId, v);
        DeleteInKeepsTracked(ids, c, k, v);
      }
    }
  }

  lemma OnInsertBlockGrows(st: PState, c: string, k: int, data: Value)
    ensures Grows(st, OnInsertBlock(st, c, k, data), Upsert)
  {
    var r := OnInsertBlock(st, c, k, data);
    if Consistent(st) {
      InsertInKeepsInvariant(st.ids, c, k, st.nextId);
      forall v | v in r.deltas.values
        ensures Tracked(r.ids, v)
      {
        InsertInKeepsTracked(st.ids, c, k, st.nextId, v);
      }
    }
  }

  lemma OnDeleteBlockDataGrows(st: PState, c: string, k: int, key: string, pass: Pass)
    ensures Grows(st, OnDeleteBlockData(st, c, k, key), pass)
  {
    var r := OnDeleteBlockData(st, c, k, key);
    if Consistent(st) {
      var (id, ids, next) := GetBlockIdIn(st.ids, c, k, st.nextId);
      GetBlockIdKeepsInvariant(st.ids, c, k, st.nextId);
      forall v | v in r.deltas.values
        ensures Tracked(r.ids, v)
      {
        if v != id {
          GetBlockIdKeepsTracked(st.ids, c, k, st.nextId, v);
        }
      }
    }
  }

  lemma OnInsertBlockDataGrows(st: PState, c: string, k: int, key: string, value: Value, pass: Pass)
    ensures Grows(st, OnInsertBlockData(st, c, k, key, value), pass)
  {
    var r := OnInsertBlockData(st, c, k, key, value);
    if Consistent(st) {
      var (id, ids, next) := GetBlockIdIn(st.ids, c, k, st.nextId);
      GetBlockIdKeepsInvariant(st.ids, c, k, st.nextId);
      forall v | v in r.deltas.values
        ensures Tracked(r.ids, v)
      {
        if v != id {
          GetBlockIdKeepsTracked(st.ids, c, k, st.nextId, v);
        }
      }
    }
  }

  lemma KeyedOpGrows(st: PState, c: string, k: int, key: string, opData: Value, rest: seq<Value>,
                     actions: seq<RemoveAction>, pass: Pass)
    ensures Grows(st, KeyedOp(st, c, k, key, opData, rest, actions, pass).st, pass)
  {
    var p := Prop(opData, Keys(pass));
    if p.Ok? && Truthy(p.value) && pass == Upsert {
      OnInsertBlockDataGrows(st, c, k, key, p.value, pass);
    }
  }

  lemma PairOpGrows(st: PState, c: string, k: int, ops: seq<Value>, actions: seq<RemoveAction>, pass: Pass)
    requires ops != [] && ops[0].Arr?
    ensures Grows(st, PairOp(st, c, k, ops, actions, pass).st, pass)
  {
    var d := ops[0].items;
    if |d| == 2 && d[0].Str? {
      var key, opData := d[0].s, d[1];
      if key == "text" && TypeofObject(opData) && !opData.Null? {
        TextPairGrows(st, c, k, opData, pass);
      } else if key != "text" {
        KeyedOpGrows(st, c, k, key, opData, ops[1..], actions, pass);
      }
    }
  }

  lemma TextPairGrows(st: PState, c: string, k: int, opData: Value, pass: Pass)
    ensures var ins, rem := Field(opData, "i"), Field(opData, "r");
      var st1 := if Truthy(ins) && pass == Upsert then OnInsertBlockData(st, c, k, "text", ins) else st;
      var st2 := if Truthy(rem) && pass == Remove then OnDeleteBlockData(st1, c, k, "text") else st1;
      var st3 := if Field(opData, "et") == Str("rich-text") && pass == Upsert
        then OnUpdateBlockText(st2, c, k, Field(opData, "e")) else st2;
      Grows(st, st3, pass)
  {
    var ins, rem := Field(opData, "i"), Field(opData, "r");
    if pass == Remove {
      if Truthy(rem) {
        OnDeleteBlockDataGrows(st, c, k, "text", pass);
      }
    } else {
      var st1 := if Truthy(ins) then OnInsertBlockData(st, c, k, "text", ins) else st;
      if Truthy(ins) {
        OnInsertBlockDataGrows(st, c, k, "text", ins, pass);
      }
      if Field(opData, "et") == Str("rich-text") {
        GrowsTrans(st, st1, OnUpdateBlockText(st1, c, k, Field(opData, "e")), pass);
      }
    }
  }

  lemma BlockOpStepGrows(st: PState, c: string, k: int, ops: seq<Value>, actions: seq<RemoveAction>, pass: Pass)
    requires ops != []
    ensures Grows(st, BlockOpStep(st, c, k, ops, actions, pass).st, pass)
  {
    if ops[0] == Str("text") {
    } else if ops[0].Arr? {
      PairOpGrows(st, c, k, ops, actions, pass);
    } else if TypeofObject(ops[0]) {
      var p := Prop(ops[0], Keys(pass));
      if p.Ok? && Truthy(p.value) && pass == Upsert {
        OnInsertBlockGrows(st, c, k, p.value);
      }
    } else if ops[0].Str? && |ops| == 2 {
      KeyedOpGrows(st, c, k, ops[0].s, ops[1], [], actions, pass);
    }
  }

  lemma {:induction false} BlockOpLoopGrows(st: PState, c: string, k: int, ops: seq<Value>,
                                            actions: seq<RemoveAction>, pass: Pass)
    ensures Grows(st, BlockOpLoop(st, c, k, ops, actions, pass).st, pass)
    decreases |ops|
  {
    if ops != [] {
      var s := BlockOpStep(st, c, k, ops, actions, pass);
      BlockOpStepGrows(st, c, k, ops, actions, pass);
      if s.fault.None? {
        BlockOpLoopGrows(s.st, c, k, s.rest, s.actions, pass);
        GrowsTrans(st, s.st, BlockOpLoop(s.st, c, k, s.rest, s.actions, pass).st, pass);
      }
    }
  }

  lemma RunActionGrows(st: PState, c: string, k: int, a: RemoveAction)
    ensures Grows(st, RunAction(st, c, k, a), Remove)
  {
    match a
    case DeleteBlockAction => OnDeleteBlockGrows(st, c, k);
    case DeleteBlockDataAction(key) => OnDeleteBlockDataGrows(st, c, k, key, Remove);
  }

  lemma {:induction false} RunActionsGrows(st: PState, c: string, k: int, actions: seq<RemoveAction>)
    ensures Grows(st, RunActions(st, c, k, actions), Remove)
    decreases |actions|
  {
    if actions != [] {
      var st1 := RunAction(st, c, k, actions[0]);
      RunActionGrows(st, c, k, actions[0]);
      RunActionsGrows(st1, c, k, actions[1..]);
      GrowsTrans(st, st1, RunActions(st1, c, k, actions[1..]), Remove);
    }
  }

  lemma GeneralBlockOpGrows(st: PState, c: string, op: Value, pass: Pass)
    ensures Grows(st, GeneralBlockOp(st, c, op, pass).st, pass)
  {
    if op.Arr? && |op.items| > 1 && op.items[0].Num? {
      var k := op.items[0].n;
      var s := BlockOpLoop(st, c, k, op.items[1..], [], pass);
      BlockOpLoopGrows(st, c, k, op.items[1..], [], pass);
      if s.fault.None? {
        if pass == Remove {
          RunActionsGrows(s.st, c, k, Reverse(s.actions));
          GrowsTrans(st, s.st, RunActions(s.st, c, k, Reverse(s.actions)), pass);
        } else {
          assert Reverse(s.actions) == [];
        }
      }
    }
  }

  lemma ParseBlockOpGrows(st: PState, c: string, op: Value, pass: Pass)
    ensures Grows(st, ParseBlockOp(st, c, op, pass).st, pass)
  {
    GeneralBlockOpGrows(st, c, op, pass);
    var ins := InsertOnly(op);
    if pass == Upsert && ins.Ok? && ins.value.Some? {
      OnInsertBlockGrows(st, c, ins.value.value.0, ins.value.value.1);
    }
  }

  lemma {:induction false} ParseBlockOpsGrows(st: PState, c: string, ops: seq<Value>, pass: Pass)
    ensures Grows(st, ParseBlockOps(st, c, ops, pass).st, pass)
    decreases |ops|
  {
    if ops != [] {
      var r := ParseBlockOp(st, c, ops[0], pass);
      ParseBlockOpGrows(st, c, ops[0], pass);
      if r.fault.None? {
        ParseBlockOpsGrows(r.st, c, ops[1..], pass);
        GrowsTrans(st, r.st, ParseBlockOps(r.st, c, ops[1..], pass).st, pass);
      }
    }
  }

  lemma {:induction false} ParseOpGrows(st: PState, ops: seq<Value>, pass: Pass)
    ensures Grows(st, ParseOp(st, ops, pass).st, pass)
    decreases MultiRank(ops), SizeSeq(ops), 0
  {
    var root, cid, target := At(ops, 0), At(ops, 1), At(ops, 2);
    if root == Str("blocks") {
      if cid.Arr? {
        assert SizeSeq(ops) == Size(ops[0]) + SizeSeq(ops[1..]);
        SubOpsGrows(st, ops[1..], pass);
      } else if cid.Str? {
        if target.Arr? {
          ParseBlockOpsGrows(st, cid.s, if pass == Remove then Reverse(ops[2..]) else ops[2..], pass);
        } else if target.Num? {
          ParseBlockOpGrows(st, cid.s, Arr(ops[2..]), pass);
        }
      }
    }
  }

  lemma {:induction false} SubOpsGrows(st: PState, subs: seq<Value>, pass: Pass)
    ensures Grows(st, SubOps(st, subs, pass).st, pass)
    decreases 1, SizeSeq(subs), 1
  {
    if subs != [] {
      var sp := Spread(subs[0]);
      if sp.Ok? {
        var op := [Str("blocks")] + sp.value;
        SubOpShrinks(subs, 0);
        var r := ParseOp(st, op, pass);
        ParseOpGrows(st, op, pass);
        if r.fault.None? {
          SubOpsGrows(r.st, subs[1..], pass);
          GrowsTrans(st, r.st, SubOps(r.st, subs[1..], pass).st, pass);
        }
      }
    }
  }

  lemma {:induction false} ParseEachGrows(st: PState, ops: seq<Value>, pass: Pass)
    ensures Grows(st, ParseEach(st, ops, pass).st, pass)
    decreases |ops|
  {
    if ops != [] {
      var r := ParseEntry(st, ops[0], pass);
      if ops[0].Arr? {
        ParseOpGrows(st, ops[0].items, pass);
      }
      if r.fault.None? {
        ParseEachGrows(r.st, ops[1..], pass);
        GrowsTrans(st, r.st, ParseEach(r.st, ops[1..], pass).st, pass);
      }
    }
  }

  /** A pass keeps the parser consistent and makes only its own calls. */
  lemma ParsePassGrows(st: PState, batch: seq<Value>, pass: Pass)
    ensures Grows(st, ParsePass(st, batch, pass).st, pass)
  {
    if At(batch, 0).Arr? {
      ParseEachGrows(st, batch, pass);
    } else {
      ParseOpGrows(st, batch, pass);
    }
  }
}
