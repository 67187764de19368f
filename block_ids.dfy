/**
 * The block identity index of the ShareDB document.
 *
 * json1 ops address blocks by (container id, index). The client gives every
 * block it has seen a stable id, kept per container as an index -> id map,
 * and shifts the map whenever a block is inserted or deleted, so that a
 * pending attribute delta keeps pointing at the same block while indexes move.
 *
 * Ids come from a generator of fresh strings; here they are naturals taken
 * from a counter, so that "fresh" means "not below the counter".
 */
module BlockIdIndex {
  import opened Js

  type Id = nat

  /** The index -> id maps of every container. */
  type Ids = map<string, map<int, Id>>

  // ---------------------------------------------------------------------
  // One container
  // ---------------------------------------------------------------------

  /** `o` with the entries at the indexes in `moved` moved by `d`. */
  function Relocated(o: map<int, Id>, moved: set<int>, d: int): (r: map<int, Id>)
    requires moved <= o.Keys
    ensures forall x {:trigger x in r} :: x in r <==> (x in o && x !in moved) || x - d in moved
    ensures forall x {:trigger r[x]} | x in r && x - d in moved :: r[x] == o[x - d]
    ensures forall x {:trigger r[x]} | x in r && x - d !in moved :: r[x] == o[x]
  {
    var dom := (o.Keys - moved) + set y | y in moved :: y + d;
    assert forall x | x - d in moved :: x in dom by {
      forall x | x - d in moved ensures x in dom {
        var y := x - d;
        assert y + d == x;
      }
    }
    map x | x in dom :: if x - d in moved then o[x - d] else o[x]
  }

  lemma RelocatedNothing(o: map<int, Id>, d: int)
    ensures Relocated(o, {}, d) == o
  {
  }

  /** One step of a shifting loop: moving the entry at `p` once the entries
      that would collide with it have already been moved. */
  lemma RelocateStep(o: map<int, Id>, moved: set<int>, d: int, p: int)
    requires p in o && p !in moved && moved <= o.Keys
    requires p - d !in moved
    requires p + d in o ==> p + d in moved
    ensures p in Relocated(o, moved, d) && Relocated(o, moved, d)[p] == o[p]
    ensures p + d !in Relocated(o, moved, d)
    ensures Relocated(o, moved + {p}, d) == (Relocated(o, moved, d) - {p})[p + d := o[p]]
  {
    var before := Relocated(o, moved, d);
    var after := Relocated(o, moved + {p}, d);
    var expected := (before - {p})[p + d := o[p]];
    assert p + d - d == p;
    forall x
      ensures x in after <==> x in expected
    {
      assert x - d in moved + {p} <==> x - d in moved || x == p + d;
    }
    forall x | x in after
      ensures after[x] == expected[x]
    {
      if x == p + d {
        assert after[x] == o[p];
      } else {
        assert x - d in moved + {p} <==> x - d in moved;
      }
    }
  }

  /** The map after a block is inserted at `k`: what `onInsertBlock` computes. */
  function InsertShift(m: map<int, Id>, k: int, newId: Id): (r: map<int, Id>)
    ensures forall x {:trigger x in r} :: x in r <==> (x in m && x < k) || (x - 1 in m && x - 1 >= k) || x == k
    ensures forall x {:trigger r[x]} | x in r && x < k :: r[x] == m[x]
    ensures forall x {:trigger r[x]} | x in r && x > k :: r[x] == m[x - 1]
    ensures k in r && r[k] == newId
  {
    Relocated(m, set x | x in m && x >= k, 1)[k := newId]
  }

  /** The map after the block at `k` is deleted: what `onDeleteBlock` computes. */
  function DeleteShift(m: map<int, Id>, k: int): (r: map<int, Id>)
    ensures forall x {:trigger x in r} :: x in r <==> (x in m && x < k) || (x + 1 in m && x + 1 > k)
    ensures forall x {:trigger r[x]} | x in r && x < k :: r[x] == m[x]
    ensures forall x {:trigger r[x]} | x in r && x >= k :: r[x] == m[x + 1]
  {
    Relocated(m - {k}, set x | x in m && x > k, -1)
  }

  /** No id is lost and no id is duplicated by a shift. */
  ghost predicate Distinct(m: map<int, Id>)
  {
    forall x, y | x in m && y in m && x != y :: m[x] != m[y]
  }

  function IdsOf(m: map<int, Id>): set<Id>
  {
    set x | x in m :: m[x]
  }

  /** The index of `m` whose entry ends up at `x` after inserting at `k`. */
  function InsertSource(k: int, x: int): int
  {
    if x < k then x else x - 1
  }

  lemma InsertShiftAt(m: map<int, Id>, k: int, newId: Id, x: int)
    requires x in InsertShift(m, k, newId) && x != k
    ensures InsertSource(k, x) in m && InsertShift(m, k, newId)[x] == m[InsertSource(k, x)]
  {
    if x > k {
      assert x - 1 in m;
      assert (x - 1) + 1 == x;
    }
  }

  lemma {:induction false} InsertShiftDistinct(m: map<int, Id>, k: int, newId: Id)
    requires Distinct(m) && newId !in IdsOf(m)
    ensures Distinct(InsertShift(m, k, newId))
  {
    var r := InsertShift(m, k, newId);
    forall x, y | x in r && y in r && x != y
      ensures r[x] != r[y]
    {
      if x != k {
        InsertShiftAt(m, k, newId, x);
      }
      if y != k {
        InsertShiftAt(m, k, newId, y);
      }
    }
  }

  lemma InsertShiftIdAt(m: map<int, Id>, k: int, newId: Id, v: Id)
    ensures v in IdsOf(InsertShift(m, k, newId)) <==> v in IdsOf(m) || v == newId
  {
    var r := InsertShift(m, k, newId);
    if v in IdsOf(r) {
      var x :| x in r && r[x] == v;
      if x != k {
        InsertShiftAt(m, k, newId, x);
      }
    }
    if v in IdsOf(m) {
      var x :| x in m && m[x] == v;
      var t := if x < k then x else x + 1;
      assert t in r && r[t] == v;
    }
  }

  lemma {:induction false} InsertShiftIds(m: map<int, Id>, k: int, newId: Id)
    requires Distinct(m) && newId !in IdsOf(m)
    ensures Distinct(InsertShift(m, k, newId))
    ensures IdsOf(InsertShift(m, k, newId)) == IdsOf(m) + {newId}
  {
    InsertShiftDistinct(m, k, newId);
    forall v
      ensures v in IdsOf(InsertShift(m, k, newId)) <==> v in IdsOf(m) + {newId}
    {
      InsertShiftIdAt(m, k, newId, v);
    }
  }

  /** The index of `m` whose entry ends up at `x` after deleting at `k`. */
  function DeleteSource(k: int, x: int): int
  {
    if x < k then x else x + 1
  }

  lemma DeleteShiftAt(m: map<int, Id>, k: int, x: int)
    requires x in DeleteShift(m, k)
    ensures DeleteSource(k, x) in m && DeleteSource(k, x) != k
    ensures DeleteShift(m, k)[x] == m[DeleteSource(k, x)]
  {
    if x >= k {
      assert x + 1 in m;
      assert (x + 1) - 1 == x;
    }
  }

  lemma {:induction false} DeleteShiftDistinct(m: map<int, Id>, k: int)
    requires Distinct(m)
    ensures Distinct(DeleteShift(m, k))
  {
    var r := DeleteShift(m, k);
    forall x, y | x in r && y in r && x != y
      ensures r[x] != r[y]
    {
      DeleteShiftAt(m, k, x);
      DeleteShiftAt(m, k, y);
    }
  }

  lemma DeleteShiftIdAt(m: map<int, Id>, k: int, v: Id)
    requires Distinct(m)
    ensures v in IdsOf(DeleteShift(m, k)) <==> v in IdsOf(m) && !(k in m && m[k] == v)
  {
    var r := DeleteShift(m, k);
    if v in IdsOf(r) {
      var x :| x in r && r[x] == v;
      DeleteShiftAt(m, k, x);
    }
    if v in IdsOf(m) && !(k in m && m[k] == v) {
      var x :| x in m && m[x] == v;
      var t := if x < k then x else x - 1;
      assert t in r && r[t] == v;
    }
  }

  lemma {:induction false} DeleteShiftIds(m: map<int, Id>, k: int)
    requires Distinct(m)
    ensures Distinct(DeleteShift(m, k))
    ensures IdsOf(DeleteShift(m, k)) == IdsOf(m) - (if k in m then {m[k]} else {})
  {
    DeleteShiftDistinct(m, k);
    forall v
      ensures v in IdsOf(DeleteShift(m, k)) <==> v in IdsOf(m) - (if k in m then {m[k]} else {})
    {
      DeleteShiftIdAt(m, k, v);
    }
  }

  /** Inserting a block and deleting it again leaves the map as it was. */
  lemma {:induction false} DeleteUndoesInsert(m: map<int, Id>, k: int, newId: Id)
    ensures DeleteShift(InsertShift(m, k, newId), k) == m
  {
    forall x
      ensures x in DeleteShift(InsertShift(m, k, newId), k) <==> x in m
      ensures x in m ==> DeleteShift(InsertShift(m, k, newId), k)[x] == m[x]
    {
      InsertThenDeleteAt(m, k, newId, x);
    }
  }

  lemma InsertThenDeleteAt(m: map<int, Id>, k: int, newId: Id, x: int)
    ensures x in DeleteShift(InsertShift(m, k, newId), k) <==> x in m
    ensures x in m ==> DeleteShift(InsertShift(m, k, newId), k)[x] == m[x]
  {
    var ins := InsertShift(m, k, newId);
    var r := DeleteShift(ins, k);
    if x in r {
      DeleteShiftAt(ins, k, x);
      InsertShiftAt(m, k, newId, DeleteSource(k, x));
    }
    if x in m && x >= k {
      assert x + 1 in ins && x + 1 > k;
      assert (x + 1) - 1 == x;
    }
  }

  // ---------------------------------------------------------------------
  // All containers
  // ---------------------------------------------------------------------

  /** The map of container `c`, empty when the container was never seen. */
  function Container(ids: Ids, c: string): map<int, Id>
  {
    if c in ids then ids[c] else map[]
  }

  /** Ids are unique across all containers. */
  ghost predicate Injective(ids: Ids)
  {
    forall c1, k1, c2, k2 | c1 in ids && k1 in ids[c1] && c2 in ids && k2 in ids[c2] && ids[c1][k1] == ids[c2][k2] ::
      c1 == c2 && k1 == k2
  }

  /** Every id was handed out before the counter reached `next`. */
  ghost predicate Below(ids: Ids, next: Id)
  {
    forall c, k | c in ids && k in ids[c] :: ids[c][k] < next
  }

  ghost predicate Tracked(ids: Ids, id: Id)
  {
    exists c, k :: c in ids && k in ids[c] && ids[c][k] == id
  }

  /** Where the id sits now: the answer of `getBlockIndexById`. */
  ghost function Locate(ids: Ids, id: Id): (r: Option<(string, int)>)
    ensures r.Some? <==> Tracked(ids, id)
    ensures r.Some? ==> r.value.0 in ids && r.value.1 in ids[r.value.0] && ids[r.value.0][r.value.1] == id
  {
    if Tracked(ids, id) then
      var c, k :| c in ids && k in ids[c] && ids[c][k] == id; Some((c, k))
    else None
  }

  lemma LocateUnique(ids: Ids, id: Id, c: string, k: int)
    requires Injective(ids)
    requires c in ids && k in ids[c] && ids[c][k] == id
    ensures Locate(ids, id) == Some((c, k))
  {
  }

  /** `getBlockIndexById` on the index held as a value: the containers are
      searched one by one; an id no container holds fails the assertion. */
  method BlockIndexOf(ids: Ids, id: Id) returns (r: Result<(string, int)>)
    ensures r.Ok? <==> Tracked(ids, id)
    ensures r.Ok? ==> r.value.0 in ids && r.value.1 in ids[r.value.0] && ids[r.value.0][r.value.1] == id
    ensures r.Err? ==> r.error == AssertionFailed
  {
    var rest := ids.Keys;
    while rest != {}
      invariant rest <= ids.Keys
      invariant forall c, k | c in ids && c !in rest && k in ids[c] :: ids[c][k] != id
      decreases |rest|
    {
      NonEmpty(rest);
      var c :| c in rest;
      if exists k | k in ids[c] :: ids[c][k] == id {
        var k :| k in ids[c] && ids[c][k] == id;
        return Ok((c, k));
      }
      rest := rest - {c};
    }
    r := Err(AssertionFailed);
  }

  /** `getContainerIds`: the container is created empty on demand. */
  function Ensure(ids: Ids, c: string): (r: Ids)
    ensures c in r && r[c] == Container(ids, c)
    ensures forall c' | c' in ids :: c' in r && r[c'] == ids[c']
    ensures r.Keys == ids.Keys + {c}
  {
    if c in ids then ids else ids[c := map[]]
  }

  lemma EnsureKeepsInvariant(ids: Ids, c: string, next: Id)
    requires Injective(ids) && Below(ids, next)
    ensures Injective(Ensure(ids, c)) && Below(Ensure(ids, c), next)
  {
  }

  /** `ContainerBlockIds.onInsertBlock`, with `next` the id the generator hands out. */
  function InsertIn(ids: Ids, c: string, k: int, next: Id): (r: Ids)
    ensures r.Keys == ids.Keys + {c}
    ensures forall c' | c' in ids && c' != c :: r[c'] == ids[c']
  {
    ids[c := InsertShift(Container(ids, c), k, next)]
  }

  /** `ContainerBlockIds.onDeleteBlock`. */
  function DeleteIn(ids: Ids, c: string, k: int): (r: Ids)
    ensures r.Keys == ids.Keys + {c}
    ensures forall c' | c' in ids && c' != c :: r[c'] == ids[c']
  {
    ids[c := DeleteShift(Container(ids, c), k)]
  }

  /** `ContainerBlockIds.getBlockId`: the tracked id, or a fresh one that is
      recorded; returns the id, the new maps and the new counter. */
  function GetBlockIdIn(ids: Ids, c: string, k: int, next: Id): (r: (Id, Ids, Id))
    ensures k in Container(ids, c) ==> r.0 == ids[c][k] && r.2 == next
    ensures k !in Container(ids, c) ==> r.0 == next && r.2 == next + 1
    ensures r.1.Keys == ids.Keys + {c}
    ensures c in r.1 && k in r.1[c] && r.1[c][k] == r.0
    ensures forall c', k' | c' in ids && k' in ids[c'] :: c' in r.1 && k' in r.1[c'] && r.1[c'][k'] == ids[c'][k']
    ensures forall c' | c' in r.1 && c' != c :: r.1[c'] == ids[c']
  {
    var m := Container(ids, c);
    if k in m then (m[k], Ensure(ids, c), next)
    else (next, ids[c := m[k := next]], next + 1)
  }

  /** A lookup right after another lookup of the same block returns the same
      id and changes nothing. */
  lemma GetBlockIdIdempotent(ids: Ids, c: string, k: int, next: Id)
    ensures var (id, ids', next') := GetBlockIdIn(ids, c, k, next);
      GetBlockIdIn(ids', c, k, next') == (id, ids', next')
  {
  }

  // The index stays consistent: ids remain unique and below the counter.

  lemma {:induction false} InsertInKeepsInvariant(ids: Ids, c: string, k: int, next: Id)
    requires Injective(ids) && Below(ids, next)
    ensures Injective(InsertIn(ids, c, k, next)) && Below(InsertIn(ids, c, k, next), next + 1)
  {
    var m := Container(ids, c);
    assert Distinct(m);
    assert next !in IdsOf(m);
    InsertShiftIds(m, k, next);
    var r := InsertIn(ids, c, k, next);
    forall c', k' | c' in r && k' in r[c']
      ensures r[c'][k'] <= next
      ensures r[c'][k'] == next ==> c' == c
      ensures c' == c && r[c'][k'] != next ==> exists x :: x in m && m[x] == r[c'][k']
    {
      if c' == c {
        assert r[c'][k'] in IdsOf(r[c]);
      }
    }
  }

  lemma {:induction false} DeleteInKeepsInvariant(ids: Ids, c: string, k: int, next: Id)
    requires Injective(ids) && Below(ids, next)
    ensures Injective(DeleteIn(ids, c, k)) && Below(DeleteIn(ids, c, k), next)
  {
    var m := Container(ids, c);
    assert Distinct(m);
    DeleteShiftIds(m, k);
    var r := DeleteIn(ids, c, k);
    forall c', k' | c' in r && k' in r[c']
      ensures c' != c ==> r[c'][k'] == ids[c'][k']
      ensures c' == c ==> r[c'][k'] in IdsOf(m)
    {
      if c' == c {
        assert r[c'][k'] in IdsOf(r[c]);
      }
    }
  }

  lemma GetBlockIdKeepsInvariant(ids: Ids, c: string, k: int, next: Id)
    requires Injective(ids) && Below(ids, next)
    ensures var (_, ids', next') := GetBlockIdIn(ids, c, k, next);
      Injective(ids') && Below(ids', next') && next <= next'
  {
  }

  // Ids stay tracked: a pending attribute delta keeps finding its block.

  lemma GetBlockIdKeepsTracked(ids: Ids, c: string, k: int, next: Id, v: Id)
    requires Tracked(ids, v)
    ensures Tracked(GetBlockIdIn(ids, c, k, next).1, v)
  {
    var c', k' :| c' in ids && k' in ids[c'] && ids[c'][k'] == v;
    assert GetBlockIdIn(ids, c, k, next).1[c'][k'] == v;
  }

  lemma InsertInKeepsTracked(ids: Ids, c: string, k: int, next: Id, v: Id)
    requires Tracked(ids, v)
    ensures Tracked(InsertIn(ids, c, k, next), v)
  {
    var c', k' :| c' in ids && k' in ids[c'] && ids[c'][k'] == v;
    var r := InsertIn(ids, c, k, next);
    if c' == c {
      assert v in IdsOf(ids[c]);
      InsertShiftIdAt(ids[c], k, next, v);
      var x :| x in r[c] && r[c][x] == v;
    } else {
      assert r[c'][k'] == v;
    }
  }

  /** Deleting a block keeps every id tracked except the deleted block's. */
  lemma DeleteInKeepsTracked(ids: Ids, c: string, k: int, v: Id)
    requires Injective(ids) && Tracked(ids, v)
    requires !(c in ids && k in ids[c] && ids[c][k] == v)
    ensures Tracked(DeleteIn(ids, c, k), v)
  {
    var c', k' :| c' in ids && k' in ids[c'] && ids[c'][k'] == v;
    var r := DeleteIn(ids, c, k);
    if c' == c {
      assert Distinct(ids[c]);
      assert v in IdsOf(ids[c]);
      DeleteShiftIdAt(ids[c], k, v);
      var x :| x in r[c] && r[c][x] == v;
    } else {
      assert r[c'][k'] == v;
    }
  }

  // ---------------------------------------------------------------------
  // The imperative index
  // ---------------------------------------------------------------------

  /** `a` comes first in the order `sort` is asked for. */
  predicate Before(a: int, b: int, descending: bool)
  {
    if descending then a > b else a < b
  }

  lemma NonEmpty<T>(s: set<T>)
    requires s != {}
    ensures exists z :: z in s
  {
    if forall z :: z !in s {
      assert false;
    }
  }

  /** Some element of a non-empty set. */
  lemma Pick<T>(s: set<T>) returns (z: T)
    requires s != {}
    ensures z in s
  {
    NonEmpty(s);
    z :| z in s;
  }

  /** `x` is the element of `s` that the sort puts first. */
  predicate First(x: int, s: set<int>, descending: bool)
  {
    x in s && forall y | y in s :: x == y || Before(x, y, descending)
  }

  lemma {:induction false} FirstExists(s: set<int>, descending: bool)
    requires s != {}
    ensures exists x :: First(x, s, descending)
    decreases |s|
  {
    var z := Pick(s);
    if s == {z} {
      assert First(z, s, descending);
    } else {
      FirstExists(s - {z}, descending);
      var x :| First(x, s - {z}, descending);
      if Before(x, z, descending) {
        assert First(x, s, descending);
      } else {
        forall y | y in s
          ensures z == y || Before(z, y, descending)
        {
          if y != z && y != x {
            assert Before(x, y, descending);
          }
        }
        assert First(z, s, descending);
      }
    }
  }

  /** `Array.from(keys).sort(...)` with `(n1, n2) => n2 - n1` when
      `descending` and `(n1, n2) => n1 - n2` otherwise. */
  method SortedIndexes(keys: set<int>, descending: bool) returns (s: seq<int>)
    ensures forall x :: x in s <==> x in keys
    ensures forall i, j | 0 <= i < j < |s| :: Before(s[i], s[j], descending)
  {
    s := [];
    var rest := keys;
    while rest != {}
      invariant forall x :: x in keys <==> x in s || x in rest
      invariant forall i, j | 0 <= i < j < |s| :: Before(s[i], s[j], descending)
      invariant forall i, y | 0 <= i < |s| && y in rest :: Before(s[i], y, descending)
      decreases |rest|
    {
      FirstExists(rest, descending);
      var x :| First(x, rest, descending);
      s := s + [x];
      rest := rest - {x};
    }
  }

  /** The ids of one listing step: `onInsertBlock` moves indexes >= k up,
      highest first; `onDeleteBlock` moves indexes > k down, lowest first. */
  predicate Eligible(x: int, k: int, descending: bool)
  {
    if descending then x >= k else x > k
  }

  function Offset(descending: bool): int
  {
    if descending then 1 else -1
  }

  /** The indexes a shifting loop over the sorted listing `s` of `o` has
      moved once it reaches position `i`. */
  ghost function Moved(o: map<int, Id>, k: int, s: seq<int>, i: nat, descending: bool): (r: set<int>)
    ensures r <= o.Keys
  {
    set x | x in o && Eligible(x, k, descending) && (i < |s| ==> Before(x, s[i], descending))
  }

  ghost predicate SortedListing(s: seq<int>, o: map<int, Id>, descending: bool)
  {
    && (forall x :: x in s <==> x in o)
    && (forall i, j | 0 <= i < j < |s| :: Before(s[i], s[j], descending))
  }

  lemma ShiftStart(o: map<int, Id>, k: int, s: seq<int>, descending: bool)
    requires SortedListing(s, o, descending)
    ensures Relocated(o, Moved(o, k, s, 0, descending), Offset(descending)) == o
  {
    forall x | x in o
      ensures x !in Moved(o, k, s, 0, descending)
    {
      var j :| 0 <= j < |s| && s[j] == x;
      if j > 0 {
        assert Before(s[0], s[j], descending);
      }
    }
    assert Moved(o, k, s, 0, descending) == {};
    RelocatedNothing(o, Offset(descending));
  }

  /** Between `s[i]` and `s[i + 1]` the listing holds no index. */
  lemma ListingGap(o: map<int, Id>, s: seq<int>, i: nat, descending: bool, x: int)
    requires SortedListing(s, o, descending) && i < |s| && x in o
    ensures x == s[i] || Before(x, s[i], descending) || (i + 1 < |s| && (x == s[i + 1] || Before(s[i + 1], x, descending)))
  {
    var j :| 0 <= j < |s| && s[j] == x;
    if j > i + 1 {
      assert Before(s[i + 1], s[j], descending);
    } else if j < i {
      assert Before(s[j], s[i], descending);
    }
  }

  /** Reaching position `i + 1` adds `s[i]` to the moved indexes when it is
      eligible. */
  lemma MovedNext(o: map<int, Id>, k: int, s: seq<int>, i: nat, descending: bool)
    requires SortedListing(s, o, descending) && i < |s|
    ensures s[i] in o
    ensures Moved(o, k, s, i + 1, descending) ==
      if Eligible(s[i], k, descending) then Moved(o, k, s, i, descending) + {s[i]} else Moved(o, k, s, i, descending)
  {
    assert s[i] in s;
    var next := if Eligible(s[i], k, descending) then Moved(o, k, s, i, descending) + {s[i]} else Moved(o, k, s, i, descending);
    forall x
      ensures x in Moved(o, k, s, i + 1, descending) <==> x in next
    {
      if x in o {
        ListingGap(o, s, i, descending, x);
      }
    }
  }

  /** One iteration of the shifting loop moves the entry at `s[i]` when it
      is eligible, and nothing otherwise. */
  lemma ShiftStep(o: map<int, Id>, k: int, s: seq<int>, i: nat, descending: bool)
    requires SortedListing(s, o, descending) && i < |s|
    requires descending || k !in o
    ensures var before := Relocated(o, Moved(o, k, s, i, descending), Offset(descending));
      && (Eligible(s[i], k, descending) ==> s[i] in before)
      && Relocated(o, Moved(o, k, s, i + 1, descending), Offset(descending)) == MoveOne(before, s[i], k, descending)
  {
    var p, d := s[i], Offset(descending);
    MovedNext(o, k, s, i, descending);
    if Eligible(p, k, descending) {
      var moved := Moved(o, k, s, i, descending);
      assert p + d in o ==> p + d in moved;
      RelocateStep(o, moved, d, p);
      assert p + d == (if descending then p + 1 else p - 1);
    }
  }

  /** One iteration of a shifting loop: the entry at `p` moves by one place
      when `p` is eligible. */
  function MoveOne(m: map<int, Id>, p: int, k: int, descending: bool): map<int, Id>
  {
    if Eligible(p, k, descending) && p in m then
      (m - {p})[(if descending then p + 1 else p - 1) := m[p]]
    else m
  }

  /** The map after the first `i` iterations over the listing `s`. */
  ghost function Prefix(o: map<int, Id>, k: int, s: seq<int>, i: nat, descending: bool): map<int, Id>
    requires i <= |s|
  {
    if i == 0 then o else MoveOne(Prefix(o, k, s, i - 1, descending), s[i - 1], k, descending)
  }

  lemma PrefixNext(o: map<int, Id>, k: int, s: seq<int>, i: nat, descending: bool)
    requires i < |s|
    ensures Prefix(o, k, s, i + 1, descending) == MoveOne(Prefix(o, k, s, i, descending), s[i], k, descending)
  {
  }

  lemma {:induction false} PrefixIsRelocated(o: map<int, Id>, k: int, s: seq<int>, i: nat, descending: bool)
    requires SortedListing(s, o, descending) && i <= |s|
    requires descending || k !in o
    ensures Prefix(o, k, s, i, descending) == Relocated(o, Moved(o, k, s, i, descending), Offset(descending))
  {
    if i == 0 {
      ShiftStart(o, k, s, descending);
    } else {
      PrefixIsRelocated(o, k, s, i - 1, descending);
      ShiftStep(o, k, s, i - 1, descending);
      var before := Relocated(o, Moved(o, k, s, i - 1, descending), Offset(descending));
      assert Prefix(o, k, s, i, descending) == MoveOne(before, s[i - 1], k, descending);
    }
  }

  /** The next index of the listing is still tracked when the loop reaches it. */
  lemma PrefixTracksNext(o: map<int, Id>, k: int, s: seq<int>, i: nat, descending: bool)
    requires SortedListing(s, o, descending) && i < |s|
    requires descending || k !in o
    ensures Eligible(s[i], k, descending) ==> s[i] in Prefix(o, k, s, i, descending)
  {
    PrefixIsRelocated(o, k, s, i, descending);
    ShiftStep(o, k, s, i, descending);
  }

  /** Running the `onInsertBlock` loop to the end and storing the new id
      gives `InsertShift`. */
  lemma InsertLoopDone(o: map<int, Id>, k: int, s: seq<int>, newId: Id)
    requires SortedListing(s, o, true)
    ensures Prefix(o, k, s, |s|, true)[k := newId] == InsertShift(o, k, newId)
  {
    PrefixIsRelocated(o, k, s, |s|, true);
    assert Moved(o, k, s, |s|, true) == set x | x in o && x >= k;
  }

  /** Running the `onDeleteBlock` loop to the end gives `DeleteShift`. */
  lemma DeleteLoopDone(m: map<int, Id>, k: int, s: seq<int>)
    requires SortedListing(s, m - {k}, false)
    ensures Prefix(m - {k}, k, s, |s|, false) == DeleteShift(m, k)
  {
    PrefixIsRelocated(m - {k}, k, s, |s|, false);
    assert Moved(m - {k}, k, s, |s|, false) == set x | x in m && x > k;
  }

  /** The index -> id map of one container. */
  class BlockIds {
    var ids: map<int, Id>

    constructor ()
      ensures ids == map[]
    {
      ids := map[];
    }

    /** Every tracked index >= k moves up by one, highest first so that no
        entry is overwritten, and then `newId` is stored at k. */
    method OnInsertBlock(blockIndex: int, newId: Id)
      modifies this
      ensures ids == InsertShift(old(ids), blockIndex, newId)
    {
      var indexes := SortedIndexes(ids.Keys, true);
      ghost var o := ids;
      var i := 0;
      while i < |indexes|
        invariant 0 <= i <= |indexes|
        invariant ids == Prefix(o, blockIndex, indexes, i, true)
      {
        var index := indexes[i];
        ghost var before := ids;
        if index >= blockIndex {
          PrefixTracksNext(o, blockIndex, indexes, i, true);
          var oldId := ids[index];
          ids := ids - {index};
          ids := ids[index + 1 := oldId];
        }
        assert ids == MoveOne(before, index, blockIndex, true);
        PrefixNext(o, blockIndex, indexes, i, true);
        i := i + 1;
      }
      InsertLoopDone(o, blockIndex, indexes, newId);
      ids := ids[blockIndex := newId];
    }

    /** The entry at k goes, and every tracked index > k moves down by one,
        lowest first. */
    method OnDeleteBlock(blockIndex: int)
      modifies this
      ensures ids == DeleteShift(old(ids), blockIndex)
    {
      ids := ids - {blockIndex};
      var indexes := SortedIndexes(ids.Keys, false);
      ghost var o := ids;
      var i := 0;
      while i < |indexes|
        invariant 0 <= i <= |indexes|
        invariant ids == Prefix(o, blockIndex, indexes, i, false)
      {
        var index := indexes[i];
        ghost var before := ids;
        if index > blockIndex {
          PrefixTracksNext(o, blockIndex, indexes, i, false);
          var oldId := ids[index];
          ids := ids - {index};
          ids := ids[index - 1 := oldId];
        }
        assert ids == MoveOne(before, index, blockIndex, false);
        PrefixNext(o, blockIndex, indexes, i, false);
        i := i + 1;
      }
      DeleteLoopDone(old(ids), blockIndex, indexes);
    }

    /** `getId`: the tracked id, or `freshId` recorded at k. */
    method GetId(blockIndex: int, freshId: Id) returns (id: Id)
      modifies this
      ensures blockIndex in old(ids) ==> id == old(ids)[blockIndex] && ids == old(ids)
      ensures blockIndex !in old(ids) ==> id == freshId && ids == old(ids)[blockIndex := freshId]
    {
      if blockIndex in ids {
        id := ids[blockIndex];
      } else {
        id := freshId;
        ids := ids[blockIndex := id];
      }
    }

    /** `getById`: an entry holding the id, if any. */
    method GetById(id: Id) returns (r: Option<(int, Id)>)
      ensures r.Some? <==> id in IdsOf(ids)
      ensures r.Some? ==> r.value.0 in ids && ids[r.value.0] == id && r.value.1 == id
      ensures r.Some? && Distinct(ids) ==> forall x | x in ids && ids[x] == id :: x == r.value.0
    {
      if exists x | x in ids :: ids[x] == id {
        var x :| x in ids && ids[x] == id;
        r := Some((x, id));
      } else {
        r := None;
      }
    }
  }

  /** The per-container maps together with the id generator. */
  class ContainerBlockIds {
    var containers: map<string, BlockIds>
    /** The next id the generator hands out. */
    var nextId: Id
    /** The index -> id map of every container created so far. */
    ghost var model: Ids
    ghost var Repr: set<object>

    ghost predicate Valid()
      reads this, Repr
    {
      && this in Repr
      && containers.Keys == model.Keys
      && (forall c | c in containers :: containers[c] in Repr && containers[c].ids == model[c])
      && (forall c1, c2 | c1 in containers && c2 in containers && c1 != c2 :: containers[c1] != containers[c2])
      && Injective(model)
      && Below(model, nextId)
    }

    constructor ()
      ensures Valid() && fresh(Repr)
      ensures model == map[] && nextId == 0
    {
      containers := map[];
      nextId := 0;
      model := map[];
      Repr := {this};
    }

    /** `getContainerIds`: the container's map, created empty on demand. */
    method GetContainerIds(containerId: string) returns (b: BlockIds)
      requires Valid()
      modifies this
      ensures Valid() && fresh(Repr - old(Repr)) && b in Repr
      ensures containerId in containers && b == containers[containerId]
      ensures model == Ensure(old(model), containerId) && nextId == old(nextId)
    {
      if containerId in containers {
        b := containers[containerId];
      } else {
        EnsureKeepsInvariant(model, containerId, nextId);
        b := new BlockIds();
        containers := containers[containerId := b];
        model := Ensure(model, containerId);
        Repr := Repr + {b};
      }
    }

    method OnInsertBlock(containerId: string, blockIndex: int)
      requires Valid()
      modifies Repr
      ensures Valid() && fresh(Repr - old(Repr))
      ensures model == InsertIn(old(model), containerId, blockIndex, old(nextId))
      ensures nextId == old(nextId) + 1
    {
      ghost var before := model;
      InsertInKeepsInvariant(model, containerId, blockIndex, nextId);
      var b := GetContainerIds(containerId);
      var newId := nextId;
      nextId := nextId + 1;
      b.OnInsertBlock(blockIndex, newId);
      model := InsertIn(before, containerId, blockIndex, newId);
      forall c | c in containers && c != containerId
        ensures containers[c].ids == model[c]
      {
        assert containers[c] != b;
      }
    }

    method OnDeleteBlock(containerId: string, blockIndex: int)
      requires Valid()
      modifies Repr
      ensures Valid() && fresh(Repr - old(Repr))
      ensures model == DeleteIn(old(model), containerId, blockIndex)
      ensures nextId == old(nextId)
    {
      ghost var before := model;
      DeleteInKeepsInvariant(model, containerId, blockIndex, nextId);
      var b := GetContainerIds(containerId);
      b.OnDeleteBlock(blockIndex);
      model := DeleteIn(before, containerId, blockIndex);
      forall c | c in containers && c != containerId
        ensures containers[c].ids == model[c]
      {
        assert containers[c] != b;
      }
    }

    /** `getBlockId`; the generator is drawn from only when the index is
        not tracked yet, as `getId` does. */
    method GetBlockId(containerId: string, blockIndex: int) returns (id: Id)
      requires Valid()
      modifies Repr
      ensures Valid() && fresh(Repr - old(Repr))
      ensures (id, model, nextId) == GetBlockIdIn(old(model), containerId, blockIndex, old(nextId))
    {
      ghost var before := model;
      ghost var next := nextId;
      GetBlockIdKeepsInvariant(model, containerId, blockIndex, nextId);
      var b := GetContainerIds(containerId);
      if blockIndex in b.ids {
        id := b.GetId(blockIndex, 0);
      } else {
        var freshId := nextId;
        nextId := nextId + 1;
        id := b.GetId(blockIndex, freshId);
      }
      model := GetBlockIdIn(before, containerId, blockIndex, next).1;
      forall c | c in containers && c != containerId
        ensures containers[c].ids == model[c]
      {
        assert containers[c] != b;
      }
    }

    /** `getBlockIndexById`: every container is searched (ids are unique, so
        the order does not matter); an untracked id fails the assertion. */
    method GetBlockIndexById(id: Id) returns (r: Result<(string, int)>)
      requires Valid()
      ensures r.Ok? <==> Tracked(model, id)
      ensures r.Ok? ==> Locate(model, id) == Some(r.value)
      ensures r.Err? ==> r.error == AssertionFailed
    {
      var rest := containers.Keys;
      while rest != {}
        invariant rest <= containers.Keys
        invariant forall c, k | c in model && c !in rest && k in model[c] :: model[c][k] != id
        decreases |rest|
      {
        NonEmpty(rest);
        var c :| c in rest;
        var ret := containers[c].GetById(id);
        if ret.Some? {
          LocateUnique(model, id, c, ret.value.0);
          return Ok((c, ret.value.0));
        }
        rest := rest - {c};
      }
      r := Err(AssertionFailed);
    }
  }
}
