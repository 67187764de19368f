/**
 * What the op parser promises about a whole batch: the order of the
 * handler calls, the pending attribute deltas it reports at the end, and
 * how it treats the root key of a path.
 */
module OpParserProps {
  import opened Js
  import opened BlockIdIndex
  import opened OpBlockDelta
  import opened OpParserSpec

  // ---------------------------------------------------------------------
  // The final flush
  // ---------------------------------------------------------------------

  /** The calls `executeUpdateBlockDataActions` makes for entries whose blocks
      are all still tracked: each delta at the block's current place. */
  ghost function Reports(ids: Ids, local: bool, entries: seq<(Id, DeltaValue)>): (r: seq<Event>)
    requires forall j | 0 <= j < |entries| :: Tracked(ids, entries[j].0)
    ensures |r| == |entries|
    decreases |entries|
  {
    if entries == [] then []
    else
      var place := Locate(ids, entries[0].0).value;
      [UpdateBlockData(place.0, place.1, entries[0].1, local)] + Reports(ids, local, entries[1..])
  }

  lemma {:induction false} ReportsAt(ids: Ids, local: bool, entries: seq<(Id, DeltaValue)>, j: nat)
    requires forall j | 0 <= j < |entries| :: Tracked(ids, entries[j].0)
    requires j < |entries|
    ensures var e := Reports(ids, local, entries)[j];
      && e.UpdateBlockData? && e.delta == entries[j].1 && e.local == local
      && e.container in ids && e.index in ids[e.container] && ids[e.container][e.index] == entries[j].0
    decreases j
  {
    if j > 0 {
      ReportsAt(ids, local, entries[1..], j - 1);
    }
  }

  lemma {:induction false} FlushFromReports(st: PState, entries: seq<(Id, DeltaValue)>)
    requires forall j | 0 <= j < |entries| :: Tracked(st.ids, entries[j].0)
    ensures FlushFrom(st, entries) == Done(st.(log := st.log + Reports(st.ids, st.local, entries)))
    decreases |entries|
  {
    if entries != [] {
      var place := Locate(st.ids, entries[0].0).value;
      var st1 := st.(log := st.log + [UpdateBlockData(place.0, place.1, entries[0].1, st.local)]);
      FlushFromReports(st1, entries[1..]);
      assert st1.log + Reports(st.ids, st.local, entries[1..]) == st.log + Reports(st.ids, st.local, entries);
    }
  }

  /** Every pending delta of a consistent parser belongs to a tracked block. */
  lemma EntriesTracked(st: PState)
    requires Consistent(st)
    ensures forall j | 0 <= j < |st.deltas.Entries()| :: Tracked(st.ids, st.deltas.Entries()[j].0)
  {
    var entries := st.deltas.Entries();
    forall j | 0 <= j < |entries|
      ensures Tracked(st.ids, entries[j].0)
    {
      assert entries[j].0 in st.deltas.values;
    }
  }

  /** `e` is the `onUpdateBlockData` call for the pending delta of block `id`,
      at the place the block has in `st`. */
  ghost predicate ReportsDelta(st: PState, e: Event, id: Id)
    requires st.deltas.Valid()
  {
    && e.UpdateBlockData? && e.local == st.local
    && id in st.deltas.values && e.delta == st.deltas.values[id]
    && e.container in st.ids && e.index in st.ids[e.container]
    && st.ids[e.container][e.index] == id
  }

  /** On a consistent parser the flush cannot fail: it appends one
      `onUpdateBlockData` per pending delta, in the order the map received
      them, each at the place the block has now, and changes nothing else. */
  lemma FlushReportsEach(st: PState)
    requires Consistent(st)
    ensures Flush(st).fault == None
    ensures Flush(st).st == st.(log := Flush(st).st.log)
    ensures |Flush(st).st.log| == |st.log| + |st.deltas.keys|
    ensures Flush(st).st.log[..|st.log|] == st.log
    ensures forall j | 0 <= j < |st.deltas.keys| :: ReportsDelta(st, Flush(st).st.log[|st.log| + j], st.deltas.keys[j])
  {
    var entries := st.deltas.Entries();
    EntriesTracked(st);
    FlushFromReports(st, entries);
    var reports := Reports(st.ids, st.local, entries);
    var log := st.log + reports;
    assert Flush(st).st.log == log;
    assert log[..|st.log|] == st.log;
    forall j | 0 <= j < |st.deltas.keys|
      ensures ReportsDelta(st, Flush(st).st.log[|st.log| + j], st.deltas.keys[j])
    {
      assert log[|st.log| + j] == reports[j];
      ReportsAt(st.ids, st.local, entries, j);
    }
  }

  // ---------------------------------------------------------------------
  // The order of the handler calls
  // ---------------------------------------------------------------------

  /** 0 for the calls of the removal pass, 1 for those of the upsert pass,
      2 for the attribute deltas reported at the end. */
  function Phase(e: Event): nat
  {
    if e.DeleteBlock? || e.DeleteContainer? then 0
    else if e.UpdateBlockData? then 2
    else 1
  }

  lemma PassPhase(e: Event, pass: Pass)
    requires PassEvent(e, pass)
    ensures Phase(e) == if pass == Remove then 0 else 1
  {
  }

  /** The log holds calls of phase 0 up to `n1`, of phase 1 up to `n2` and
      of phase 2 after that. */
  ghost predicate Layered(log: seq<Event>, n1: nat, n2: nat)
  {
    forall a | 0 <= a < |log| :: Phase(log[a]) == if a < n1 then 0 else if a < n2 then 1 else 2
  }

  lemma LayeredSorted(log: seq<Event>, n1: nat, n2: nat)
    requires n1 <= n2 && Layered(log, n1, n2)
    ensures forall a, b | 0 <= a < b < |log| :: Phase(log[a]) <= Phase(log[b])
  {
  }

  /** Extending a log of the phases before `pass` by calls of `pass`. */
  lemma {:induction false} GrowsLayered(a: PState, b: PState, pass: Pass, n1: nat)
    requires Grows(a, b, pass)
    requires pass == Remove ==> n1 == 0
    requires n1 <= |a.log|
    requires Layered(a.log, n1, |a.log|)
    requires pass == Remove ==> |a.log| == 0
    ensures pass == Remove ==> Layered(b.log, |b.log|, |b.log|)
    ensures pass == Upsert ==> Layered(b.log, n1, |b.log|)
  {
    forall i | 0 <= i < |b.log|
      ensures Phase(b.log[i]) == if pass == Remove then 0 else if i < n1 then 0 else 1
    {
      if i < |a.log| {
        assert b.log[i] == a.log[i];
      } else {
        PassPhase(b.log[i], pass);
      }
    }
  }

  lemma {:induction false} FlushLayered(st: PState, n1: nat)
    requires Consistent(st) && n1 <= |st.log| && Layered(st.log, n1, |st.log|)
    ensures Layered(Flush(st).st.log, n1, |st.log|)
  {
    FlushReportsEach(st);
    var log := Flush(st).st.log;
    forall a | 0 <= a < |log|
      ensures Phase(log[a]) == if a < n1 then 0 else if a < |st.log| then 1 else 2
    {
      if a < |st.log| {
        assert log[..|st.log|][a] == log[a];
      } else {
        var j := a - |st.log|;
        assert log[a] == log[|st.log| + j];
        assert st.deltas.keys[j] in st.deltas.keys;
      }
    }
  }

  /** Every removal is reported before every insertion or text edit, and
      those before every attribute delta, whether or not the batch fails. */
  lemma ParseOpsPhases(batch: seq<Value>, local: bool)
    ensures var log := ParseOps(batch, local).st.log;
      forall a, b | 0 <= a < b < |log| :: Phase(log[a]) <= Phase(log[b])
  {
    var st0 := Start(local);
    var r1 := ParsePass(st0, batch, Remove);
    ParsePassGrows(st0, batch, Remove);
    StartConsistent(local);
    var n1 := |r1.st.log|;
    GrowsLayered(st0, r1.st, Remove, 0);
    if r1.fault.Some? {
      LayeredSorted(r1.st.log, n1, n1);
    } else {
      var r2 := ParsePass(r1.st, batch, Upsert);
      ParsePassGrows(r1.st, batch, Upsert);
      GrowsLayered(r1.st, r2.st, Upsert, n1);
      var n2 := |r2.st.log|;
      if r2.fault.Some? {
        LayeredSorted(r2.st.log, n1, n2);
      } else {
        assert ParseOps(batch, local) == Flush(r2.st);
        FlushLayered(r2.st, n1);
        LayeredSorted(Flush(r2.st).st.log, n1, n2);
      }
    }
  }

  /** A batch whose two passes succeed ends with the flush of every pending
      attribute delta, which cannot fail. */
  lemma ParseOpsFaults(batch: seq<Value>, local: bool)
    ensures var r1 := ParsePass(Start(local), batch, Remove);
      var r2 := ParsePass(r1.st, batch, Upsert);
      ParseOps(batch, local).fault == if r1.fault.Some? then r1.fault else r2.fault
  {
    var r1 := ParsePass(Start(local), batch, Remove);
    StartConsistent(local);
    ParsePassGrows(Start(local), batch, Remove);
    if r1.fault.None? {
      var r2 := ParsePass(r1.st, batch, Upsert);
      ParsePassGrows(r1.st, batch, Upsert);
      if r2.fault.None? {
        FlushReportsEach(r2.st);
      }
    }
  }

  // ---------------------------------------------------------------------
  // Deleting a block drops its pending delta
  // ---------------------------------------------------------------------

  /** `onDeleteBlock` forgets the pending delta of the deleted block and keeps
      every other one, and the deleted block's id is no longer tracked. */
  lemma DeleteDropsDelta(st: PState, c: string, k: int)
    requires Consistent(st)
    ensures var id := GetBlockIdIn(st.ids, c, k, st.nextId).0;
      var r := OnDeleteBlock(st, c, k);
      && !r.deltas.Has(id) && !Tracked(r.ids, id)
      && forall other | other != id :: r.deltas.Get(other) == st.deltas.Get(other)
  {
    var (id, ids, next) := GetBlockIdIn(st.ids, c, k, st.nextId);
    var r := OnDeleteBlock(st, c, k);
    GetBlockIdKeepsInvariant(st.ids, c, k, st.nextId);
    DeleteShiftIds(ids[c], k);
    forall c', k' | c' in r.ids && k' in r.ids[c']
      ensures r.ids[c'][k'] != id
    {
      if c' == c {
        assert r.ids[c'][k'] in IdsOf(DeleteShift(ids[c], k));
      } else {
        assert r.ids[c'][k'] == ids[c'][k'];
      }
    }
  }

  // ---------------------------------------------------------------------
  // The root of a path
  // ---------------------------------------------------------------------

  /** Ops on the document's `meta` key make no handler call and do not fail. */
  lemma MetaOpIgnored(batch: seq<Value>, local: bool)
    requires At(batch, 0) == Str("meta")
    ensures ParseOps(batch, local) == Done(Start(local))
  {
    assert ParsePass(Start(local), batch, Remove) == Done(Start(local));
    assert ParsePass(Start(local), batch, Upsert) == Done(Start(local));
    assert Start(local).deltas.Entries() == [];
  }

  /** An op on any other root key than `blocks` or `meta` fails its
      assertion before any handler call. */
  lemma UnknownRootRejected(batch: seq<Value>, local: bool)
    requires At(batch, 0).Str? && At(batch, 0) != Str("meta") && At(batch, 0) != Str("blocks")
    ensures ParseOps(batch, local) == Fail(Start(local), AssertionFailed)
  {
  }
}
