/**
 * What the op parser makes of the op `updateBlockData` submits: one
 * `onUpdateBlockData` call for the block, whose delta inserts exactly the
 * inserted keys with a truthy value. As written, it deletes only the deleted
 * keys that are inserted again; the corrected op deletes every deleted key.
 */
module ShareDbClientProps {
  import opened Js
  import opened BlockIdIndex
  import opened OpBlockDelta
  import opened OpParserSpec
  import opened ShareDbClient

  // ---------------------------------------------------------------------
  // Attribute pairs and what they ask for
  // ---------------------------------------------------------------------

  /** `[key, {...}]` with a plain object that carries no rich-text edit. */
  predicate Attr(p: Value)
  {
    p.Arr? && |p.items| == 2 && p.items[0].Str? && p.items[1].Obj? && "et" !in p.items[1].fields
  }

  predicate Attrs(ps: seq<Value>)
  {
    forall j | 0 <= j < |ps| :: Attr(ps[j])
  }

  /** The keys the pairs remove: those whose `r` is truthy. */
  function Removed(ps: seq<Value>): (r: set<string>)
    decreases |ps|
  {
    if ps == [] then {}
    else
      var p := ps[|ps| - 1];
      Removed(ps[..|ps| - 1]) + if Attr(p) && Truthy(Field(p.items[1], "r")) then {p.items[0].s} else {}
  }

  /** One pair's insertion, when its `i` is truthy. */
  function PutOne(m: map<string, Value>, p: Value): map<string, Value>
  {
    if Attr(p) && Truthy(Field(p.items[1], "i")) then m[p.items[0].s := Field(p.items[1], "i")] else m
  }

  /** The values the pairs insert, later pairs overwriting earlier ones. */
  function Put(m: map<string, Value>, ps: seq<Value>): map<string, Value>
    decreases |ps|
  {
    if ps == [] then m else PutOne(Put(m, ps[..|ps| - 1]), ps[|ps| - 1])
  }

  lemma {:induction false} RemovedAppend(ps: seq<Value>, qs: seq<Value>)
    ensures Removed(ps + qs) == Removed(ps) + Removed(qs)
    decreases |qs|
  {
    if qs != [] {
      var n := |qs| - 1;
      assert (ps + qs)[..|ps + qs| - 1] == ps + qs[..n];
      RemovedAppend(ps, qs[..n]);
    } else {
      assert ps + qs == ps;
    }
  }

  lemma {:induction false} PutAppend(m: map<string, Value>, ps: seq<Value>, qs: seq<Value>)
    ensures Put(m, ps + qs) == Put(Put(m, ps), qs)
    decreases |qs|
  {
    if qs != [] {
      var n := |qs| - 1;
      assert (ps + qs)[..|ps + qs| - 1] == ps + qs[..n];
      PutAppend(m, ps, qs[..n]);
    } else {
      assert ps + qs == ps;
    }
  }

  /** The pairs read front to back. */
  lemma FirstPair(m: map<string, Value>, ps: seq<Value>)
    requires ps != []
    ensures Removed(ps) == Removed([ps[0]]) + Removed(ps[1..])
    ensures Put(m, ps) == Put(PutOne(m, ps[0]), ps[1..])
  {
    assert ps == [ps[0]] + ps[1..];
    RemovedAppend([ps[0]], ps[1..]);
    PutAppend(m, [ps[0]], ps[1..]);
    assert [ps[0]][..0] == [];
  }

  // ---------------------------------------------------------------------
  // The parser while it reads the attribute pairs of one block
  // ---------------------------------------------------------------------

  /** Nothing reported yet, and either untouched, or with block `k` of `c`
      registered as id 0 holding the one pending delta, which is not empty. */
  ghost predicate Only(st: PState, c: string, k: int, local: bool)
  {
    && st.local == local && st.log == []
    && (st == Start(local) || Touched(st, c, k))
  }

  ghost predicate Touched(st: PState, c: string, k: int)
  {
    && st.ids == map[c := map[k := 0]] && st.nextId == 1
    && st.deltas.keys == [0] && st.deltas.values.Keys == {0}
    && (st.deltas.values[0].deleted != [] || st.deltas.values[0].inserted.values != map[])
  }

  /** The pending delta of the block (empty while untouched). */
  function Pending(st: PState): DeltaValue
  {
    DeltaOf(st.deltas, 0)
  }

  lemma StartPending(local: bool)
    ensures Pending(Start(local)).deleted == [] && Pending(Start(local)).inserted.values == map[]
  {
  }

  lemma TouchIds(st: PState, c: string, k: int, local: bool)
    requires Only(st, c, k, local)
    ensures GetBlockIdIn(st.ids, c, k, st.nextId) == (0, map[c := map[k := 0]], 1)
  {
    if st == Start(local) {
      assert Container(st.ids, c) == map[];
      assert map[][k := 0] == map[k := 0];
    } else {
      assert Ensure(st.ids, c) == st.ids;
    }
  }

  lemma DeleteDataOnly(st: PState, c: string, k: int, local: bool, key: string)
    requires Only(st, c, k, local)
    ensures Only(OnDeleteBlockData(st, c, k, key), c, k, local)
    ensures Pending(OnDeleteBlockData(st, c, k, key)) == Pending(st).Delete(key)
  {
    TouchIds(st, c, k, local);
    var r := OnDeleteBlockData(st, c, k, key);
    assert r.deltas == st.deltas.Set(0, Pending(st).Delete(key));
    assert key in r.deltas.values[0].deleted;
  }

  lemma InsertDataOnly(st: PState, c: string, k: int, local: bool, key: string, v: Value)
    requires Only(st, c, k, local)
    ensures Only(OnInsertBlockData(st, c, k, key, v), c, k, local)
    ensures Pending(OnInsertBlockData(st, c, k, key, v)) == Pending(st).Insert(key, v)
  {
    TouchIds(st, c, k, local);
    var r := OnInsertBlockData(st, c, k, key, v);
    assert r.deltas == st.deltas.Set(0, Pending(st).Insert(key, v));
    assert key in r.deltas.values[0].inserted.values;
  }

  /** The deferred removals of attributes, and their keys. */
  predicate DataActions(actions: seq<RemoveAction>)
  {
    forall j | 0 <= j < |actions| :: actions[j].DeleteBlockDataAction?
  }

  function ActionKeys(actions: seq<RemoveAction>): set<string>
  {
    set a | a in actions && a.DeleteBlockDataAction? :: a.key
  }

  /** One pair in the removal pass: on `text` the removal happens at once,
      on any other key it is deferred. */
  lemma RemoveStep(st: PState, c: string, k: int, local: bool, ops: seq<Value>, actions: seq<RemoveAction>)
    requires ops != [] && Attr(ops[0]) && Only(st, c, k, local) && DataActions(actions)
    ensures var s := BlockOpStep(st, c, k, ops, actions, Remove);
      && s.fault == None && s.rest == ops[1..] && Only(s.st, c, k, local) && DataActions(s.actions)
      && Pending(s.st).inserted == Pending(st).inserted
      && forall key :: key in Pending(s.st).deleted || key in ActionKeys(s.actions) <==>
           key in Pending(st).deleted || key in ActionKeys(actions) || key in Removed([ops[0]])
  {
    var p := ops[0];
    var key, opData := p.items[0].s, p.items[1];
    assert [p][..0] == [];
    var s := BlockOpStep(st, c, k, ops, actions, Remove);
    assert s == PairOp(st, c, k, ops, actions, Remove);
    if key == "text" {
      if Truthy(Field(opData, "r")) {
        DeleteDataOnly(st, c, k, local, key);
      }
    } else {
      assert s == KeyedOp(st, c, k, key, opData, ops[1..], actions, Remove);
      if Truthy(Field(opData, "r")) {
        assert s.actions == actions + [DeleteBlockDataAction(key)];
        assert DeleteBlockDataAction(key) in s.actions;
      }
    }
  }

  lemma {:induction false} RemoveLoop(st: PState, c: string, k: int, local: bool, ops: seq<Value>, actions: seq<RemoveAction>)
    requires Attrs(ops) && Only(st, c, k, local) && DataActions(actions)
    ensures var s := BlockOpLoop(st, c, k, ops, actions, Remove);
      && s.fault == None && Only(s.st, c, k, local) && DataActions(s.actions)
      && Pending(s.st).inserted == Pending(st).inserted
      && forall key :: key in Pending(s.st).deleted || key in ActionKeys(s.actions) <==>
           key in Pending(st).deleted || key in ActionKeys(actions) || key in Removed(ops)
    decreases |ops|
  {
    if ops != [] {
      var s := BlockOpStep(st, c, k, ops, actions, Remove);
      RemoveStep(st, c, k, local, ops, actions);
      RemoveLoop(s.st, c, k, local, ops[1..], s.actions);
      FirstPair(map[], ops);
    }
  }

  /** The deferred removals, in whatever order. */
  lemma {:induction false} RunDataActions(st: PState, c: string, k: int, local: bool, actions: seq<RemoveAction>)
    requires Only(st, c, k, local) && DataActions(actions)
    ensures var r := RunActions(st, c, k, actions);
      && Only(r, c, k, local) && Pending(r).inserted == Pending(st).inserted
      && forall key :: key in Pending(r).deleted <==> key in Pending(st).deleted || key in ActionKeys(actions)
    decreases |actions|
  {
    if actions != [] {
      var a := actions[0];
      DeleteDataOnly(st, c, k, local, a.key);
      RunDataActions(OnDeleteBlockData(st, c, k, a.key), c, k, local, actions[1..]);
      assert forall b | b in actions :: b == a || b in actions[1..];
    }
  }

  lemma ReverseActions(actions: seq<RemoveAction>)
    requires DataActions(actions)
    ensures DataActions(Reverse(actions)) && ActionKeys(Reverse(actions)) == ActionKeys(actions)
  {
    var r := Reverse(actions);
    forall a | a in actions ensures a in r {
      var j :| 0 <= j < |actions| && actions[j] == a;
      assert r[|actions| - 1 - j] == a;
    }
  }

  /** One pair in the upsert pass: a truthy `i` is recorded. */
  lemma UpsertStep(st: PState, c: string, k: int, local: bool, ops: seq<Value>, actions: seq<RemoveAction>)
    requires ops != [] && Attr(ops[0]) && Only(st, c, k, local)
    ensures var s := BlockOpStep(st, c, k, ops, actions, Upsert);
      && s.fault == None && s.rest == ops[1..] && s.actions == actions && Only(s.st, c, k, local)
      && Pending(s.st).deleted == Pending(st).deleted
      && Pending(s.st).inserted.values == PutOne(Pending(st).inserted.values, ops[0])
  {
    var p := ops[0];
    var key, opData := p.items[0].s, p.items[1];
    var s := BlockOpStep(st, c, k, ops, actions, Upsert);
    assert s == PairOp(st, c, k, ops, actions, Upsert);
    if Truthy(Field(opData, "i")) {
      InsertDataOnly(st, c, k, local, key, Field(opData, "i"));
    }
  }

  lemma {:induction false} UpsertLoop(st: PState, c: string, k: int, local: bool, ops: seq<Value>)
    requires Attrs(ops) && Only(st, c, k, local)
    ensures var s := BlockOpLoop(st, c, k, ops, [], Upsert);
      && s.fault == None && s.actions == [] && Only(s.st, c, k, local)
      && Pending(s.st).deleted == Pending(st).deleted
      && Pending(s.st).inserted.values == Put(Pending(st).inserted.values, ops)
    decreases |ops|
  {
    if ops != [] {
      var s := BlockOpStep(st, c, k, ops, [], Upsert);
      UpsertStep(st, c, k, local, ops, []);
      UpsertLoop(s.st, c, k, local, ops[1..]);
      FirstPair(Pending(st).inserted.values, ops);
    }
  }

  // ---------------------------------------------------------------------
  // The whole batch
  // ---------------------------------------------------------------------

  /** The removal pass over `['blocks', c, k, ...pairs]`. */
  lemma RemovePass(c: string, k: int, local: bool, ps: seq<Value>)
    requires Attrs(ps)
    ensures var r := ParsePass(Start(local), [Str("blocks"), Str(c), Num(k)] + ps, Remove);
      && r.fault == None && Only(r.st, c, k, local) && Pending(r.st).inserted.values == map[]
      && forall key :: key in Pending(r.st).deleted <==> key in Removed(ps)
  {
    var st0 := Start(local);
    StartPending(local);
    var batch := [Str("blocks"), Str(c), Num(k)] + ps;
    BlockOpPath(st0, c, k, ps, Remove);
    var op := Arr([Num(k)] + ps);
    if ps == [] {
      assert ParsePass(st0, batch, Remove) == Done(st0);
    } else {
      assert op.items[1..] == ps;
      var s := BlockOpLoop(st0, c, k, ps, [], Remove);
      RemoveLoop(st0, c, k, local, ps, []);
      ReverseActions(s.actions);
      RunDataActions(s.st, c, k, local, Reverse(s.actions));
      assert ParsePass(st0, batch, Remove) == Done(RunActions(s.st, c, k, Reverse(s.actions)));
    }
  }

  /** The upsert pass: the insert-only fast path declines the pairs. */
  lemma UpsertPass(st: PState, c: string, k: int, local: bool, ps: seq<Value>)
    requires Attrs(ps) && Only(st, c, k, local)
    ensures var r := ParsePass(st, [Str("blocks"), Str(c), Num(k)] + ps, Upsert);
      && r.fault == None && Only(r.st, c, k, local)
      && Pending(r.st).deleted == Pending(st).deleted
      && Pending(r.st).inserted.values == Put(Pending(st).inserted.values, ps)
  {
    var batch := [Str("blocks"), Str(c), Num(k)] + ps;
    BlockOpPath(st, c, k, ps, Upsert);
    var op := Arr([Num(k)] + ps);
    assert InsertOnly(op) == Ok(None);
    if ps == [] {
      assert ParsePass(st, batch, Upsert) == Done(st);
    } else {
      assert op.items[1..] == ps;
      var s := BlockOpLoop(st, c, k, ps, [], Upsert);
      UpsertLoop(st, c, k, local, ps);
      assert Reverse(s.actions) == [];
      assert ParsePass(st, batch, Upsert) == Done(s.st);
    }
  }

  /** The flush reports the one pending delta, if there is one. */
  lemma FlushOnly(st: PState, c: string, k: int, local: bool)
    requires Only(st, c, k, local)
    ensures Flush(st) == Done(st.(log := if st == Start(local) then [] else [UpdateBlockData(c, k, Pending(st), local)]))
  {
    if st == Start(local) {
      assert st.deltas.Entries() == [];
    } else {
      var entries := st.deltas.Entries();
      assert entries == [(0, Pending(st))];
      LocateUnique(st.ids, 0, c, k);
      var e := UpdateBlockData(c, k, Pending(st), local);
      assert FlushFrom(st, entries) == FlushFrom(st.(log := st.log + [e]), entries[1..]);
      assert entries[1..] == [];
      assert st.log + [e] == [e];
    }
  }

  /** `['blocks', c, k, ...pairs]` makes at most one call: the pending delta
      of the block, deleting the removed keys and inserting the truthy
      inserted values. */
  lemma AttrPairsRoundTrip(c: string, k: int, local: bool, ps: seq<Value>)
    requires Attrs(ps)
    ensures var calls := ShareDbClient.Calls([Str("blocks"), Str(c), Num(k)] + ps, local);
      && calls.Some?
      && (calls.value == [] <==> Removed(ps) == {} && Put(map[], ps) == map[])
      && (calls.value != [] ==>
            && |calls.value| == 1 && calls.value[0].UpdateBlockData?
            && calls.value[0].container == c && calls.value[0].index == k && calls.value[0].local == local
            && (forall key :: key in calls.value[0].delta.deleted <==> key in Removed(ps))
            && calls.value[0].delta.inserted.values == Put(map[], ps))
  {
    var batch := [Str("blocks"), Str(c), Num(k)] + ps;
    var r1 := ParsePass(Start(local), batch, Remove);
    RemovePass(c, k, local, ps);
    var r2 := ParsePass(r1.st, batch, Upsert);
    UpsertPass(r1.st, c, k, local, ps);
    FlushOnly(r2.st, c, k, local);
    assert ParseOps(batch, local) == Flush(r2.st);
    StartPending(local);
    if r2.st == Start(local) {
      forall key ensures key !in Removed(ps) {
        assert key !in Pending(r1.st).deleted;
      }
    } else if Pending(r2.st).deleted != [] {
      assert Pending(r2.st).deleted[0] in Removed(ps);
    }
  }

  // ---------------------------------------------------------------------
  // The pairs updateBlockData builds
  // ---------------------------------------------------------------------

  /** The inserted values that the parser keeps: the truthy ones. */
  function TruthyPart(m: map<string, Value>): (r: map<string, Value>)
    ensures forall key :: key in r <==> key in m && Truthy(m[key])
  {
    map key | key in m && Truthy(m[key]) :: m[key]
  }

  function Lookup(m: map<string, Value>, key: string): Option<Value>
  {
    if key in m then Some(m[key]) else None
  }

  lemma AttrsAppend(ps: seq<Value>, qs: seq<Value>)
    requires Attrs(ps) && Attrs(qs)
    ensures Attrs(ps + qs)
  {
    assert forall j | |ps| <= j < |ps + qs| :: (ps + qs)[j] == qs[j - |ps|];
  }

  /** The last entry's pair, if the first loop emits one. */
  function ReplaceOne(key: string, value: Value, del: seq<string>): seq<Value>
  {
    if key in del then [KeyOp(key, map["r" := Bool(true), "i" := value])] else []
  }

  function InsertOne(key: string, value: Value, del: seq<string>): seq<Value>
  {
    if key in del then [] else [KeyOp(key, map["i" := value])]
  }

  function DeleteOne(key: string, inserted: map<string, Value>): seq<Value>
  {
    if key in inserted then [] else [KeyOp(key, map["r" := Bool(true)])]
  }

  lemma {:induction false} ReplaceOpsAttrs(es: seq<(string, Value)>, del: seq<string>)
    ensures Attrs(ReplaceOps(es, del))
    decreases |es|
  {
    if es != [] {
      var n := |es| - 1;
      ReplaceOpsAttrs(es[..n], del);
      AttrsAppend(ReplaceOps(es[..n], del), ReplaceOne(es[n].0, es[n].1, del));
    }
  }

  lemma {:induction false} InsertOnlyOpsAttrs(es: seq<(string, Value)>, del: seq<string>)
    ensures Attrs(InsertOnlyOps(es, del))
    decreases |es|
  {
    if es != [] {
      var n := |es| - 1;
      InsertOnlyOpsAttrs(es[..n], del);
      AttrsAppend(InsertOnlyOps(es[..n], del), InsertOne(es[n].0, es[n].1, del));
    }
  }

  lemma {:induction false} DeleteOnlyOpsAttrs(keys: seq<string>, inserted: map<string, Value>)
    ensures Attrs(DeleteOnlyOps(keys, inserted))
    decreases |keys|
  {
    if keys != [] {
      var n := |keys| - 1;
      DeleteOnlyOpsAttrs(keys[..n], inserted);
      AttrsAppend(DeleteOnlyOps(keys[..n], inserted), DeleteOne(keys[n], inserted));
    }
  }

  /** A prefix of the entries one longer. */
  lemma EntriesSnoc(ins: JsMap<string, Value>, n: nat)
    requires ins.Valid() && 0 < n <= |ins.keys|
    ensures ins.Entries()[..n][..n - 1] == ins.Entries()[..n - 1]
    ensures ins.Entries()[..n][n - 1] == (ins.keys[n - 1], ins.values[ins.keys[n - 1]])
    ensures ins.keys[..n] == ins.keys[..n - 1] + [ins.keys[n - 1]]
  {
  }

  lemma {:induction false} ReplaceOpsRemoved(ins: JsMap<string, Value>, del: seq<string>, n: nat, key: string)
    requires ins.Valid() && n <= |ins.keys|
    ensures key in Removed(ReplaceOps(ins.Entries()[..n], del)) <==> key in ins.keys[..n] && key in del
    decreases n
  {
    if n > 0 {
      var es := ins.Entries();
      EntriesSnoc(ins, n);
      ReplaceOpsRemoved(ins, del, n - 1, key);
      RemovedAppend(ReplaceOps(es[..n - 1], del), ReplaceOne(ins.keys[n - 1], ins.values[ins.keys[n - 1]], del));
    }
  }

  /** What one pair of each loop removes and inserts. */
  lemma ReplaceOneMeans(m: map<string, Value>, key: string, value: Value, del: seq<string>, other: string)
    ensures Removed(ReplaceOne(key, value, del)) == if key in del then {key} else {}
    ensures Lookup(Put(m, ReplaceOne(key, value, del)), other)
      == if other == key && key in del && Truthy(value) then Some(value) else Lookup(m, other)
  {
    if key in del {
      var p := KeyOp(key, map["r" := Bool(true), "i" := value]);
      assert [p][..0] == [];
      assert Put(m, [p]) == PutOne(m, p);
    }
  }

  lemma InsertOneMeans(m: map<string, Value>, key: string, value: Value, del: seq<string>, other: string)
    ensures Removed(InsertOne(key, value, del)) == {}
    ensures Lookup(Put(m, InsertOne(key, value, del)), other)
      == if other == key && key !in del && Truthy(value) then Some(value) else Lookup(m, other)
  {
    if key !in del {
      var p := KeyOp(key, map["i" := value]);
      assert [p][..0] == [];
      assert Put(m, [p]) == PutOne(m, p);
    }
  }

  lemma DeleteOneMeans(m: map<string, Value>, key: string, inserted: map<string, Value>)
    ensures Removed(DeleteOne(key, inserted)) == if key in inserted then {} else {key}
    ensures Put(m, DeleteOne(key, inserted)) == m
  {
    if key !in inserted {
      var p := KeyOp(key, map["r" := Bool(true)]);
      assert [p][..0] == [];
      assert Put(m, [p]) == PutOne(m, p);
    }
  }

  /** The keys of a map come without repeats. */
  lemma KeysDistinctLast(ins: JsMap<string, Value>, n: nat)
    requires ins.Valid() && 0 < n <= |ins.keys|
    ensures ins.keys[n - 1] !in ins.keys[..n - 1]
  {
    forall i | 0 <= i < n - 1
      ensures ins.keys[i] != ins.keys[n - 1]
    {
    }
  }

  /** Each loop's pairs for one more entry. */
  lemma ReplaceOpsSnoc(ins: JsMap<string, Value>, del: seq<string>, n: nat)
    requires ins.Valid() && 0 < n <= |ins.keys|
    ensures ReplaceOps(ins.Entries()[..n], del)
      == ReplaceOps(ins.Entries()[..n - 1], del) + ReplaceOne(ins.keys[n - 1], ins.values[ins.keys[n - 1]], del)
  {
    EntriesSnoc(ins, n);
  }

  lemma InsertOnlyOpsSnoc(ins: JsMap<string, Value>, del: seq<string>, n: nat)
    requires ins.Valid() && 0 < n <= |ins.keys|
    ensures InsertOnlyOps(ins.Entries()[..n], del)
      == InsertOnlyOps(ins.Entries()[..n - 1], del) + InsertOne(ins.keys[n - 1], ins.values[ins.keys[n - 1]], del)
  {
    EntriesSnoc(ins, n);
  }

  lemma {:induction false} ReplaceOpsPut(m: map<string, Value>, ins: JsMap<string, Value>, del: seq<string>, n: nat, key: string)
    requires ins.Valid() && n <= |ins.keys|
    ensures Lookup(Put(m, ReplaceOps(ins.Entries()[..n], del)), key)
      == if key in ins.keys[..n] && key in del && Truthy(ins.values[key]) then Some(ins.values[key]) else Lookup(m, key)
    decreases n
  {
    if n > 0 {
      var es := ins.Entries();
      var last := ins.keys[n - 1];
      EntriesSnoc(ins, n);
      ReplaceOpsSnoc(ins, del, n);
      ReplaceOpsPut(m, ins, del, n - 1, key);
      PutAppend(m, ReplaceOps(es[..n - 1], del), ReplaceOne(last, ins.values[last], del));
      ReplaceOneMeans(Put(m, ReplaceOps(es[..n - 1], del)), last, ins.values[last], del, key);
      if key == last {
        KeysDistinctLast(ins, n);
      }
    }
  }

  lemma {:induction false} InsertOnlyOpsRemoved(ins: JsMap<string, Value>, del: seq<string>, n: nat)
    requires ins.Valid() && n <= |ins.keys|
    ensures Removed(InsertOnlyOps(ins.Entries()[..n], del)) == {}
    decreases n
  {
    if n > 0 {
      var es := ins.Entries();
      var last := ins.keys[n - 1];
      InsertOnlyOpsSnoc(ins, del, n);
      InsertOnlyOpsRemoved(ins, del, n - 1);
      RemovedAppend(InsertOnlyOps(es[..n - 1], del), InsertOne(last, ins.values[last], del));
      InsertOneMeans(map[], last, ins.values[last], del, last);
    } else {
      assert ins.Entries()[..0] == [];
    }
  }

  lemma {:induction false} InsertOnlyOpsPut(m: map<string, Value>, ins: JsMap<string, Value>, del: seq<string>, n: nat, key: string)
    requires ins.Valid() && n <= |ins.keys|
    ensures Lookup(Put(m, InsertOnlyOps(ins.Entries()[..n], del)), key)
      == if key in ins.keys[..n] && key !in del && Truthy(ins.values[key]) then Some(ins.values[key]) else Lookup(m, key)
    decreases n
  {
    if n > 0 {
      var es := ins.Entries();
      var last := ins.keys[n - 1];
      EntriesSnoc(ins, n);
      InsertOnlyOpsSnoc(ins, del, n);
      InsertOnlyOpsPut(m, ins, del, n - 1, key);
      PutAppend(m, InsertOnlyOps(es[..n - 1], del), InsertOne(last, ins.values[last], del));
      InsertOneMeans(Put(m, InsertOnlyOps(es[..n - 1], del)), last, ins.values[last], del, key);
      if key == last {
        KeysDistinctLast(ins, n);
      }
    }
  }

  lemma {:induction false} DeleteOnlyOpsRemoved(keys: seq<string>, inserted: map<string, Value>, key: string)
    ensures key in Removed(DeleteOnlyOps(keys, inserted)) <==> key in keys && key !in inserted
    decreases |keys|
  {
    if keys != [] {
      var n := |keys| - 1;
      DeleteOnlyOpsRemoved(keys[..n], inserted, key);
      assert keys == keys[..n] + [keys[n]];
      RemovedAppend(DeleteOnlyOps(keys[..n], inserted), DeleteOne(keys[n], inserted));
      DeleteOneMeans(map[], keys[n], inserted);
    }
  }

  lemma {:induction false} DeleteOnlyOpsPut(m: map<string, Value>, keys: seq<string>, inserted: map<string, Value>)
    ensures Put(m, DeleteOnlyOps(keys, inserted)) == m
    decreases |keys|
  {
    if keys != [] {
      var n := |keys| - 1;
      DeleteOnlyOpsPut(m, keys[..n], inserted);
      PutAppend(m, DeleteOnlyOps(keys[..n], inserted), DeleteOne(keys[n], inserted));
      DeleteOneMeans(m, keys[n], inserted);
    }
  }

  /** The pairs of the corrected `updateBlockData`. */
  function UpdatePairs(ins: JsMap<string, Value>, del: seq<string>): seq<Value>
    requires ins.Valid()
  {
    var es := ins.Entries();
    ReplaceOps(es, del) + DeleteOnlyOps(del, ins.values) + InsertOnlyOps(es, del)
  }

  lemma UpdatePairsAttrs(ins: JsMap<string, Value>, del: seq<string>)
    requires ins.Valid()
    ensures Attrs(UpdatePairs(ins, del))
  {
    var es := ins.Entries();
    var rs, ds, xs := ReplaceOps(es, del), DeleteOnlyOps(del, ins.values), InsertOnlyOps(es, del);
    ReplaceOpsAttrs(es, del);
    DeleteOnlyOpsAttrs(del, ins.values);
    InsertOnlyOpsAttrs(es, del);
    AttrsAppend(rs, ds);
    AttrsAppend(rs + ds, xs);
  }

  lemma UpdatePairsRemoved(ins: JsMap<string, Value>, del: seq<string>, key: string)
    requires ins.Valid()
    ensures key in Removed(UpdatePairs(ins, del)) <==> key in del
  {
    var es := ins.Entries();
    var n := |ins.keys|;
    assert es[..n] == es && ins.keys[..n] == ins.keys;
    var rs, ds, xs := ReplaceOps(es, del), DeleteOnlyOps(del, ins.values), InsertOnlyOps(es, del);
    RemovedAppend(rs, ds);
    RemovedAppend(rs + ds, xs);
    InsertOnlyOpsRemoved(ins, del, n);
    ReplaceOpsRemoved(ins, del, n, key);
    DeleteOnlyOpsRemoved(del, ins.values, key);
    assert key in ins.keys <==> key in ins.values;
  }

  lemma UpdatePairsPut(ins: JsMap<string, Value>, del: seq<string>, key: string)
    requires ins.Valid()
    ensures Lookup(Put(map[], UpdatePairs(ins, del)), key) == Lookup(TruthyPart(ins.values), key)
  {
    var es := ins.Entries();
    var n := |ins.keys|;
    assert es[..n] == es && ins.keys[..n] == ins.keys;
    var rs, ds, xs := ReplaceOps(es, del), DeleteOnlyOps(del, ins.values), InsertOnlyOps(es, del);
    PutAppend(map[], rs, ds);
    PutAppend(map[], rs + ds, xs);
    DeleteOnlyOpsPut(Put(map[], rs), del, ins.values);
    ReplaceOpsPut(map[], ins, del, n, key);
    InsertOnlyOpsPut(Put(map[], rs), ins, del, n, key);
    assert key in ins.keys <==> key in ins.values;
  }

  /** Two maps that agree on every lookup are equal. */
  lemma LookupEqual(m1: map<string, Value>, m2: map<string, Value>)
    requires forall key :: Lookup(m1, key) == Lookup(m2, key)
    ensures m1 == m2
  {
    forall key | key in m1
      ensures key in m2 && m1[key] == m2[key]
    {
      assert Lookup(m1, key) == Some(m1[key]);
    }
    forall key | key in m2
      ensures key in m1
    {
      assert Lookup(m2, key) == Some(m2[key]);
    }
  }

  /** The pairs of the corrected `updateBlockData` remove exactly the deleted
      keys and insert exactly the inserted values that are truthy. */
  lemma UpdatePairsMean(ins: JsMap<string, Value>, del: seq<string>)
    requires ins.Valid()
    ensures Attrs(UpdatePairs(ins, del))
    ensures forall key :: key in Removed(UpdatePairs(ins, del)) <==> key in del
    ensures Put(map[], UpdatePairs(ins, del)) == TruthyPart(ins.values)
  {
    UpdatePairsAttrs(ins, del);
    forall key
      ensures key in Removed(UpdatePairs(ins, del)) <==> key in del
    {
      UpdatePairsRemoved(ins, del, key);
    }
    forall key
      ensures Lookup(Put(map[], UpdatePairs(ins, del)), key) == Lookup(TruthyPart(ins.values), key)
    {
      UpdatePairsPut(ins, del, key);
    }
    LookupEqual(Put(map[], UpdatePairs(ins, del)), TruthyPart(ins.values));
  }

  /** The corrected `updateBlockData` op, read back: nothing is submitted
      for an empty delta; otherwise the op makes at most one call, an
      `onUpdateBlockData` for the block whose delta deletes exactly the
      deleted keys and inserts exactly the inserted keys whose value is
      truthy, and it makes none only when there is nothing of either. */
  lemma UpdateBlockDataRoundTrip(containerId: string, index: int, delta: DocBlockDelta, local: bool)
    requires delta.insert.Valid()
    ensures UpdateBlockDataOp(containerId, index, delta).None? <==> delta.delete == [] && delta.insert.keys == []
    ensures UpdateBlockDataOp(containerId, index, delta).Some? ==>
      var calls := Calls(UpdateBlockDataOp(containerId, index, delta).value, local);
      && calls.Some?
      && (calls.value == [] <==> delta.delete == [] && TruthyPart(delta.insert.values) == map[])
      && (calls.value != [] ==>
            && |calls.value| == 1 && calls.value[0].UpdateBlockData?
            && calls.value[0].container == containerId && calls.value[0].index == index
            && calls.value[0].local == local
            && (forall key :: key in calls.value[0].delta.deleted <==> key in delta.delete)
            && calls.value[0].delta.inserted.values == TruthyPart(delta.insert.values))
  {
    var op := UpdateBlockDataOp(containerId, index, delta);
    if op.Some? {
      var ps := UpdatePairs(delta.insert, delta.delete);
      assert op.value == [Str("blocks"), Str(containerId), Num(index)] + ps;
      UpdatePairsMean(delta.insert, delta.delete);
      AttrPairsRoundTrip(containerId, index, local, ps);
      if delta.delete != [] {
        assert delta.delete[0] in Removed(ps);
      }
    }
  }

  // ---------------------------------------------------------------------
  // updateBlockData as written
  // ---------------------------------------------------------------------

  /** The second loop as written emits nothing for keys that are all in the
      set it tests against. */
  lemma {:induction false} DeleteOnlyOpsAsWrittenSkipsAll(keys: seq<string>, deleted: seq<string>)
    requires forall j | 0 <= j < |keys| :: keys[j] in deleted
    ensures DeleteOnlyOpsAsWritten(keys, deleted) == []
    decreases |keys|
  {
    if keys != [] {
      DeleteOnlyOpsAsWrittenSkipsAll(keys[..|keys| - 1], deleted);
    }
  }

  /** The pairs of `updateBlockData` as written. */
  function AsWrittenPairs(ins: JsMap<string, Value>, del: seq<string>): seq<Value>
    requires ins.Valid()
  {
    var es := ins.Entries();
    ReplaceOps(es, del) + DeleteOnlyOpsAsWritten(del, del) + InsertOnlyOps(es, del)
  }

  lemma AsWrittenPairsRemoved(ins: JsMap<string, Value>, del: seq<string>, key: string)
    requires ins.Valid()
    ensures key in Removed(AsWrittenPairs(ins, del)) <==> key in del && key in ins.values
  {
    var es := ins.Entries();
    var n := |ins.keys|;
    assert es[..n] == es && ins.keys[..n] == ins.keys;
    DeleteOnlyOpsAsWrittenSkipsAll(del, del);
    var rs, xs := ReplaceOps(es, del), InsertOnlyOps(es, del);
    assert AsWrittenPairs(ins, del) == rs + xs;
    RemovedAppend(rs, xs);
    InsertOnlyOpsRemoved(ins, del, n);
    ReplaceOpsRemoved(ins, del, n, key);
    assert key in ins.keys <==> key in ins.values;
  }

  lemma AsWrittenPairsPut(ins: JsMap<string, Value>, del: seq<string>, key: string)
    requires ins.Valid()
    ensures Lookup(Put(map[], AsWrittenPairs(ins, del)), key) == Lookup(TruthyPart(ins.values), key)
  {
    var es := ins.Entries();
    var n := |ins.keys|;
    assert es[..n] == es && ins.keys[..n] == ins.keys;
    DeleteOnlyOpsAsWrittenSkipsAll(del, del);
    var rs, xs := ReplaceOps(es, del), InsertOnlyOps(es, del);
    assert AsWrittenPairs(ins, del) == rs + xs;
    PutAppend(map[], rs, xs);
    ReplaceOpsPut(map[], ins, del, n, key);
    InsertOnlyOpsPut(Put(map[], rs), ins, del, n, key);
    assert key in ins.keys <==> key in ins.values;
  }

  /** The pairs of `updateBlockData` as written remove exactly the deleted
      keys that are also inserted, and put exactly the truthy inserted
      values. */
  lemma AsWrittenPairsMean(ins: JsMap<string, Value>, del: seq<string>)
    requires ins.Valid()
    ensures Attrs(AsWrittenPairs(ins, del))
    ensures forall key :: key in Removed(AsWrittenPairs(ins, del)) <==> key in del && key in ins.values
    ensures Put(map[], AsWrittenPairs(ins, del)) == TruthyPart(ins.values)
  {
    var es := ins.Entries();
    DeleteOnlyOpsAsWrittenSkipsAll(del, del);
    var rs, xs := ReplaceOps(es, del), InsertOnlyOps(es, del);
    assert AsWrittenPairs(ins, del) == rs + xs;
    ReplaceOpsAttrs(es, del);
    InsertOnlyOpsAttrs(es, del);
    AttrsAppend(rs, xs);
    forall key
      ensures key in Removed(AsWrittenPairs(ins, del)) <==> key in del && key in ins.values
    {
      AsWrittenPairsRemoved(ins, del, key);
    }
    forall key
      ensures Lookup(Put(map[], AsWrittenPairs(ins, del)), key) == Lookup(TruthyPart(ins.values), key)
    {
      AsWrittenPairsPut(ins, del, key);
    }
    LookupEqual(Put(map[], AsWrittenPairs(ins, del)), TruthyPart(ins.values));
  }

  /** As written, the op of `updateBlockData` removes only the deleted keys
      that are inserted again in the same delta. */
  lemma AsWrittenRemoved(containerId: string, index: int, delta: DocBlockDelta, key: string)
    requires delta.insert.Valid()
    requires UpdateBlockDataOpAsWritten(containerId, index, delta).Some?
    ensures var op := UpdateBlockDataOpAsWritten(containerId, index, delta).value;
      key in Removed(op[3..]) <==> key in delta.delete && key in delta.insert.values
  {
    assert UpdateBlockDataOpAsWritten(containerId, index, delta).value[3..] == AsWrittenPairs(delta.insert, delta.delete);
    AsWrittenPairsRemoved(delta.insert, delta.delete, key);
  }

  /** The op of `updateBlockData` as written, read back: nothing is
      submitted for an empty delta; otherwise the op makes at most one call,
      an `onUpdateBlockData` for the block whose delta inserts exactly the
      truthy inserted values but deletes only the deleted keys that are also
      inserted, and it makes none exactly when there is nothing of either. */
  lemma UpdateBlockDataAsWrittenRoundTrip(containerId: string, index: int, delta: DocBlockDelta, local: bool)
    requires delta.insert.Valid()
    ensures UpdateBlockDataOpAsWritten(containerId, index, delta).None? <==> delta.delete == [] && delta.insert.keys == []
    ensures UpdateBlockDataOpAsWritten(containerId, index, delta).Some? ==>
      var calls := Calls(UpdateBlockDataOpAsWritten(containerId, index, delta).value, local);
      && calls.Some?
      && (calls.value == [] <==>
            (forall key :: !(key in delta.delete && key in delta.insert.values))
            && TruthyPart(delta.insert.values) == map[])
      && (calls.value != [] ==>
            && |calls.value| == 1 && calls.value[0].UpdateBlockData?
            && calls.value[0].container == containerId && calls.value[0].index == index
            && calls.value[0].local == local
            && (forall key :: key in calls.value[0].delta.deleted <==> key in delta.delete && key in delta.insert.values)
            && calls.value[0].delta.inserted.values == TruthyPart(delta.insert.values))
  {
    var op := UpdateBlockDataOpAsWritten(containerId, index, delta);
    if op.Some? {
      var ps := AsWrittenPairs(delta.insert, delta.delete);
      assert op.value == [Str("blocks"), Str(containerId), Num(index)] + ps;
      AsWrittenPairsMean(delta.insert, delta.delete);
      AttrPairsRoundTrip(containerId, index, local, ps);
      if Removed(ps) != {} {
        var key :| key in Removed(ps);
        assert key in delta.delete && key in delta.insert.values;
      }
    }
  }

  /** A delta that only deletes `x`: as written the op is submitted, but the
      parser reads no change from it, so the deletion is lost; the corrected
      op reports it. */
  lemma AsWrittenLosesDeletion(containerId: string, index: int, local: bool)
    ensures var delta := DocBlockDelta(EmptyMap(), ["x"]);
      && UpdateBlockDataOpAsWritten(containerId, index, delta) == Some([Str("blocks"), Str(containerId), Num(index)])
      && Calls(UpdateBlockDataOpAsWritten(containerId, index, delta).value, local) == Some([])
      && UpdateBlockDataOp(containerId, index, delta).Some?
      && var fixed := Calls(UpdateBlockDataOp(containerId, index, delta).value, local);
      && fixed.Some? && |fixed.value| == 1 && fixed.value[0].UpdateBlockData?
      && "x" in fixed.value[0].delta.deleted
  {
    var delta := DocBlockDelta(EmptyMap<string, Value>(), ["x"]);
    var es := delta.insert.Entries();
    assert es == [];
    DeleteOnlyOpsAsWrittenSkipsAll(["x"], ["x"]);
    var op := [Str("blocks"), Str(containerId), Num(index)];
    assert UpdateBlockDataOpAsWritten(containerId, index, delta).value == op + [] + [] + [];
    assert op + [] == op;
    AttrPairsRoundTrip(containerId, index, local, []);
    assert op + [] == op;
    UpdateBlockDataRoundTrip(containerId, index, delta, local);
  }
}
