/**
 * How the op parser reads particular shapes of op paths: container
 * operations, lists of block ops, multi-container paths, the insert-only
 * fast path, rich-text edits and attribute inserts.
 */
module OpParserShapes {
  import opened Js
  import opened OpParserSpec

  /** `[index, {r: true}]`: the removal of one block. */
  function DeleteOp(k: int): Value
  {
    Arr([Num(k), Obj(map["r" := Bool(true)])])
  }

  /** `[index, {i: data}]`: the insertion of one block. */
  function InsertOp(k: int, data: Value): Value
  {
    Arr([Num(k), Obj(map["i" := data])])
  }

  // ---------------------------------------------------------------------
  // Container operations
  // ---------------------------------------------------------------------

  /** `{r}` on a container is reported only by the removal pass and `{i}`
      only by the upsert pass; a falsy flag is not reported. */
  lemma ContainerOpPasses(st: PState, c: string, action: Value)
    requires action.Obj?
    ensures ParseOp(st, [Str("blocks"), Str(c), action], Remove)
      == Done(if Truthy(Field(action, "r")) then st.(log := st.log + [DeleteContainer(c, st.local)]) else st)
    ensures ParseOp(st, [Str("blocks"), Str(c), action], Upsert)
      == Done(if Truthy(Field(action, "i")) then st.(log := st.log + [CreateContainer(c, Field(action, "i"), st.local)]) else st)
  {
  }

  // ---------------------------------------------------------------------
  // Lists of block ops
  // ---------------------------------------------------------------------

  /** The block ops after a container id run last first in the removal pass
      and in order in the upsert pass. */
  lemma BlockOpsOrder(st: PState, c: string, ops: seq<Value>, pass: Pass)
    requires ops != [] && ops[0].Arr?
    ensures ParseOp(st, [Str("blocks"), Str(c)] + ops, pass)
      == ParseBlockOps(st, c, if pass == Remove then Reverse(ops) else ops, pass)
  {
    assert ([Str("blocks"), Str(c)] + ops)[2..] == ops;
  }

  /** The removal of one block in the removal pass. */
  lemma DeleteOneBlock(st: PState, c: string, k: int)
    ensures ParseBlockOp(st, c, DeleteOp(k), Remove) == Done(OnDeleteBlock(st, c, k))
  {
    var flag := Obj(map["r" := Bool(true)]);
    assert DeleteOp(k).items[1..] == [flag];
    assert BlockOpStep(st, c, k, [flag], [], Remove) == Step(st, [], [DeleteBlockAction], None);
    assert BlockOpLoop(st, c, k, [flag], [], Remove) == Step(st, [], [DeleteBlockAction], None);
    assert Reverse([DeleteBlockAction]) == [DeleteBlockAction];
    assert RunActions(st, c, k, [DeleteBlockAction]) == OnDeleteBlock(st, c, k);
  }

  /** The insertion of one block in the upsert pass; a falsy `data` is not
      reported. The insert-only fast path declines the bare `[index, {i}]`. */
  lemma InsertOneBlock(st: PState, c: string, k: int, data: Value)
    ensures InsertOnly(InsertOp(k, data)) == Ok(None)
    ensures ParseBlockOp(st, c, InsertOp(k, data), Upsert)
      == Done(if Truthy(data) then OnInsertBlock(st, c, k, data) else st)
  {
    var flag := Obj(map["i" := data]);
    var after := if Truthy(data) then OnInsertBlock(st, c, k, data) else st;
    assert InsertOp(k, data).items[1..] == [flag];
    assert BlockOpStep(st, c, k, [flag], [], Upsert) == Step(after, [], [], None);
    assert BlockOpLoop(st, c, k, [flag], [], Upsert) == Step(after, [], [], None);
  }

  /** Two block operations run one after the other, stopping at the first
      failure. */
  function Then(st: PState, c: string, first: Value, second: Value, pass: Pass): Run
  {
    var r := ParseBlockOp(st, c, first, pass);
    if r.fault.Some? then r else ParseBlockOp(r.st, c, second, pass)
  }

  lemma TwoBlockOps(st: PState, c: string, a: Value, b: Value, pass: Pass)
    ensures ParseBlockOps(st, c, [a, b], pass) == Then(st, c, a, b, pass)
  {
    var r := ParseBlockOp(st, c, a, pass);
    if r.fault.None? {
      assert ParseBlockOps(r.st, c, [b], pass) == ParseBlockOp(r.st, c, b, pass) by {
        assert [b][0] == b && [b][1..] == [];
      }
    }
    assert [a, b][0] == a && [a, b][1..] == [b];
  }

  /** Two block ops in one path are run second op first in the removal pass,
      so that the index of the first is still valid when it is removed. */
  lemma RemovalsLastFirst(st: PState, c: string, a: Value, b: Value)
    requires a.Arr?
    ensures ParseOp(st, [Str("blocks"), Str(c), a, b], Remove) == Then(st, c, b, a, Remove)
  {
    assert [Str("blocks"), Str(c), a, b] == [Str("blocks"), Str(c)] + [a, b];
    BlockOpsOrder(st, c, [a, b], Remove);
    assert Reverse([a, b]) == [b, a];
    TwoBlockOps(st, c, b, a, Remove);
  }

  /** ... and in their own order in the upsert pass. */
  lemma InsertionsInOrder(st: PState, c: string, a: Value, b: Value)
    requires a.Arr?
    ensures ParseOp(st, [Str("blocks"), Str(c), a, b], Upsert) == Then(st, c, a, b, Upsert)
  {
    assert [Str("blocks"), Str(c), a, b] == [Str("blocks"), Str(c)] + [a, b];
    BlockOpsOrder(st, c, [a, b], Upsert);
    TwoBlockOps(st, c, a, b, Upsert);
  }

  /** Removing blocks `k1` then `k2` in one path reports `k2` first. */
  lemma TwoRemovalsLog(st: PState, c: string, k1: int, k2: int)
    ensures var r := Then(st, c, DeleteOp(k2), DeleteOp(k1), Remove);
      && r == Done(OnDeleteBlock(OnDeleteBlock(st, c, k2), c, k1))
      && r.st.log == st.log + [DeleteBlock(c, k2, st.local), DeleteBlock(c, k1, st.local)]
  {
    DeleteOneBlock(st, c, k2);
    DeleteOneBlock(OnDeleteBlock(st, c, k2), c, k1);
  }

  /** Inserting two truthy blocks in one path reports them in order. */
  lemma TwoInsertionsLog(st: PState, c: string, k1: int, d1: Value, k2: int, d2: Value)
    requires Truthy(d1) && Truthy(d2)
    ensures var r := Then(st, c, InsertOp(k1, d1), InsertOp(k2, d2), Upsert);
      && r == Done(OnInsertBlock(OnInsertBlock(st, c, k1, d1), c, k2, d2))
      && r.st.log == st.log + [InsertBlock(c, k1, d1, st.local), InsertBlock(c, k2, d2, st.local)]
  {
    InsertOneBlock(st, c, k1, d1);
    InsertOneBlock(OnInsertBlock(st, c, k1, d1), c, k2, d2);
  }

  // ---------------------------------------------------------------------
  // Multi-container paths
  // ---------------------------------------------------------------------

  /** `['blocks', [...p1], [...p2]]` is read as `['blocks', ...p1]`
      followed by `['blocks', ...p2]`, stopping at the first failure. */
  lemma MultiContainerReplay(st: PState, p1: seq<Value>, p2: seq<Value>, pass: Pass)
    ensures ParseOp(st, [Str("blocks"), Arr(p1), Arr(p2)], pass)
      == var r1 := ParseOp(st, [Str("blocks")] + p1, pass);
         if r1.fault.Some? then r1 else ParseOp(r1.st, [Str("blocks")] + p2, pass)
  {
    var ops := [Str("blocks"), Arr(p1), Arr(p2)];
    assert ops[1..] == [Arr(p1), Arr(p2)];
    assert [Arr(p1), Arr(p2)][1..] == [Arr(p2)];
    var r1 := ParseOp(st, [Str("blocks")] + p1, pass);
    if r1.fault.None? {
      var r2 := ParseOp(r1.st, [Str("blocks")] + p2, pass);
      assert SubOps(r1.st, [Arr(p2)], pass) == if r2.fault.Some? then r2 else SubOps(r2.st, [], pass);
    }
  }

  // ---------------------------------------------------------------------
  // The insert-only fast path
  // ---------------------------------------------------------------------

  /** `[key, {i: value}]`. */
  predicate InsertPair(p: Value)
  {
    && p.Arr? && |p.items| == 2 && p.items[0].Str? && p.items[1].Obj?
    && p.items[1].fields.Keys == {"i"} && p.items[1].fields["i"] != Undefined
  }

  /** The value of the last pair on `key`, if any. */
  function PairValue(pairs: seq<Value>, key: string): Option<Value>
    decreases |pairs|
  {
    if pairs == [] then None
    else
      match PairValue(pairs[1..], key)
      case Some(v) => Some(v)
      case None =>
        var p := pairs[0];
        if p.Arr? && |p.items| == 2 && p.items[0] == Str(key) then Some(Field(p.items[1], "i")) else None
  }

  lemma {:induction false} InsertPairsAccept(pairs: seq<Value>)
    requires forall j | 0 <= j < |pairs| :: InsertPair(pairs[j])
    ensures InsertPairs(pairs) == Ok(true)
    decreases |pairs|
  {
    if pairs != [] {
      assert InsertPair(pairs[0]);
      InsertPairsAccept(pairs[1..]);
    }
  }

  /** The merged block has the inserted block's attributes and every paired
      key; a key takes the value of its last pair, later pairs overwriting
      earlier ones. */
  lemma {:induction false} MergeLastWins(fields: map<string, Value>, pairs: seq<Value>, key: string)
    ensures key in Merge(fields, pairs) <==> key in fields || PairValue(pairs, key).Some?
    ensures key in Merge(fields, pairs) ==>
      Merge(fields, pairs)[key] == if PairValue(pairs, key).Some? then PairValue(pairs, key).value else fields[key]
    decreases |pairs|
  {
    if pairs != [] {
      var p := pairs[0];
      var fields' := if p.Arr? && |p.items| == 2 && p.items[0].Str?
        then fields[p.items[0].s := Field(p.items[1], "i")] else fields;
      MergeLastWins(fields', pairs[1..], key);
    }
  }

  /** A block insert followed by attribute inserts on it is reported as one
      insertion, of the block with every attribute merged in. */
  lemma InsertOnlyMerges(st: PState, c: string, k: int, data: Value, pairs: seq<Value>)
    requires data.Obj? && Truthy(Field(data, "id")) && Truthy(Field(data, "type"))
    requires pairs != [] && forall j | 0 <= j < |pairs| :: InsertPair(pairs[j])
    ensures ParseBlockOp(st, c, Arr([Num(k), Obj(map["i" := data])] + pairs), Upsert)
      == Done(OnInsertBlock(st, c, k, Obj(Merge(data.fields, pairs))))
    ensures ParseBlockOp(st, c, Arr([Num(k), Obj(map["i" := data])] + pairs), Upsert).st.log
      == st.log + [InsertBlock(c, k, Obj(Merge(data.fields, pairs)), st.local)]
  {
    InsertOnlyAccepts(k, data, pairs);
  }

  lemma InsertOnlyAccepts(k: int, data: Value, pairs: seq<Value>)
    requires data.Obj? && Truthy(Field(data, "id")) && Truthy(Field(data, "type"))
    requires pairs != [] && forall j | 0 <= j < |pairs| :: InsertPair(pairs[j])
    ensures InsertOnly(Arr([Num(k), Obj(map["i" := data])] + pairs)) == Ok(Some((k, Obj(Merge(data.fields, pairs)))))
  {
    var first := Obj(map["i" := data]);
    var items := [Num(k), first] + pairs;
    assert items[0] == Num(k) && At(items, 1) == first && |items| != 2;
    assert items[2..] == pairs;
    assert Field(first, "i") == data && |first.fields| == 1;
    InsertPairsAccept(pairs);
  }

  // ---------------------------------------------------------------------
  // Text and attribute edits
  // ---------------------------------------------------------------------

  /** `'text', {et: 'rich-text', e}` is reported by the upsert pass only, and
      anything after it in the same block op fails the assertion, after the
      edit has been reported. */
  lemma TextOpLast(st: PState, c: string, k: int, e: Value, more: seq<Value>, pass: Pass)
    ensures var edit := Obj(map["e" := e, "et" := Str("rich-text")]);
      var st1 := if pass == Upsert then OnUpdateBlockText(st, c, k, e) else st;
      ParseBlockOp(st, c, Arr([Num(k), Str("text"), edit] + more), pass)
        == if more == [] then Done(st1) else Fail(st1, AssertionFailed)
  {
    var edit := Obj(map["e" := e, "et" := Str("rich-text")]);
    var items := [Num(k), Str("text"), edit] + more;
    var st1 := if pass == Upsert then OnUpdateBlockText(st, c, k, e) else st;
    assert items[1..] == [Str("text"), edit] + more;
    assert ([Str("text"), edit] + more)[2..] == more;
    var s := Step(st1, more, [], if more == [] then None else Some(AssertionFailed));
    assert BlockOpStep(st, c, k, items[1..], [], pass) == s;
    if more == [] {
      assert BlockOpLoop(st1, c, k, [], [], pass) == Step(st1, [], [], None);
    }
  }

  /** An attribute insert, as `key, {i}` or as `[key, {i}]`, is recorded in
      the block's pending delta in the upsert pass exactly when its value is
      truthy. */
  lemma AttributeInsert(st: PState, c: string, k: int, key: string, v: Value)
    requires key != "text"
    ensures var after := if Truthy(v) then OnInsertBlockData(st, c, k, key, v) else st;
      && ParseBlockOp(st, c, Arr([Num(k), Str(key), Obj(map["i" := v])]), Upsert) == Done(after)
      && ParseBlockOp(st, c, Arr([Num(k), Arr([Str(key), Obj(map["i" := v])])]), Upsert) == Done(after)
  {
    var op := Obj(map["i" := v]);
    var after := if Truthy(v) then OnInsertBlockData(st, c, k, key, v) else st;
    assert Arr([Num(k), Str(key), op]).items[1..] == [Str(key), op];
    assert BlockOpStep(st, c, k, [Str(key), op], [], Upsert) == Step(after, [], [], None);
    assert BlockOpLoop(st, c, k, [Str(key), op], [], Upsert) == Step(after, [], [], None);
    var pair := Arr([Str(key), op]);
    assert Arr([Num(k), pair]).items[1..] == [pair];
    assert BlockOpStep(st, c, k, [pair], [], Upsert) == Step(after, [], [], None);
    assert BlockOpLoop(st, c, k, [pair], [], Upsert) == Step(after, [], [], None);
  }
}
