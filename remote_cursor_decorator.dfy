/**
 * The carets of remote users in the text of a block.
 *
 * The decorator takes the simple collapsed cursors of the block, grouped by
 * offset, and turns each cursor message into a `remote-cursor` insertion at
 * its offset; an offset past the end of the text is drawn at the end, where
 * the groups that land on the same place are drawn one after another.
 *
 * Insertion ids come from a generator of fresh strings; here they are
 * naturals taken from a counter.
 */
module RemoteCursorDecorator {
  import opened Js
  import opened RemoteUsers

  /** The insertion drawn for one cursor message. */
  datatype Insertion = Insertion(id: nat, kind: string, name: string, time: int, rainbowIndex: int)

  type Groups = JsMap<int, seq<CursorMessage>>
  type Insertions = JsMap<int, seq<Insertion>>

  /** Where a caret at `offset` is drawn in a text of `length`. */
  function Clamp(offset: int, length: int): (r: int)
    ensures r <= length
    ensures r == offset || (offset > length && r == length)
  {
    if offset > length then length else offset
  }

  /** `messages.map(...)`: one insertion per message, in order, with ids
      taken from `firstId` on. */
  function ToInsertions(messages: seq<CursorMessage>, firstId: nat): (r: seq<Insertion>)
    ensures |r| == |messages|
    ensures forall j | 0 <= j < |messages| ::
      r[j] == Insertion(firstId + j, "remote-cursor", messages[j].user.name, messages[j].time, messages[j].user.rainbowIndex)
  {
    seq(|messages|, j requires 0 <= j < |messages| =>
      Insertion(firstId + j, "remote-cursor", messages[j].user.name, messages[j].time, messages[j].user.rainbowIndex))
  }

  /** The number of messages in the groups. */
  function Total(entries: seq<(int, seq<CursorMessage>)>): nat
    decreases |entries|
  {
    if entries == [] then 0 else Total(entries[..|entries| - 1]) + |entries[|entries| - 1].1|
  }

  /** The `forEach` of `decorateText` over the groups in map order: each
      group's insertions go to its clamped offset, after those already
      there. */
  function Decorate(entries: seq<(int, seq<CursorMessage>)>, length: int, firstId: nat): Insertions
    decreases |entries|
  {
    if entries == [] then EmptyMap()
    else
      var n := |entries| - 1;
      Place(Decorate(entries[..n], length, firstId), Clamp(entries[n].0, length),
            ToInsertions(entries[n].1, firstId + Total(entries[..n])))
  }

  /** One group drawn at `offset`: appended to the insertions there, or as
      the first ones there. */
  function Place<V>(m: JsMap<int, seq<V>>, offset: int, data: seq<V>): JsMap<int, seq<V>>
  {
    m.Set(offset, (if m.Has(offset) then m.values[offset] else []) + data)
  }

  /** `Decorate` for one more group. */
  lemma DecorateSnoc(entries: seq<(int, seq<CursorMessage>)>, length: int, firstId: nat)
    requires entries != []
    ensures Decorate(entries, length, firstId)
      == Place(Decorate(entries[..|entries| - 1], length, firstId), Clamp(entries[|entries| - 1].0, length),
               ToInsertions(entries[|entries| - 1].1, firstId + Total(entries[..|entries| - 1])))
  {
  }

  /** `DecorateSnoc` for the prefixes of one list of groups. */
  lemma DecoratePrefix(entries: seq<(int, seq<CursorMessage>)>, i: nat, length: int, firstId: nat)
    requires i < |entries|
    ensures Decorate(entries[..i + 1], length, firstId)
      == Place(Decorate(entries[..i], length, firstId), Clamp(entries[i].0, length),
               ToInsertions(entries[i].1, firstId + Total(entries[..i])))
    ensures Total(entries[..i + 1]) == Total(entries[..i]) + |entries[i].1|
  {
    assert entries[..i + 1][..i] == entries[..i] && entries[..i + 1][i] == entries[i];
    DecorateSnoc(entries[..i + 1], length, firstId);
  }

  /** The insertions drawn at `place`, group by group. */
  function DrawnAt(entries: seq<(int, seq<CursorMessage>)>, length: int, firstId: nat, place: int): seq<Insertion>
    decreases |entries|
  {
    if entries == [] then []
    else
      var n := |entries| - 1;
      DrawnAt(entries[..n], length, firstId, place)
        + if Clamp(entries[n].0, length) == place then ToInsertions(entries[n].1, firstId + Total(entries[..n])) else []
  }

  /** The number of elements in the lists of a map, over its keys. */
  function Count<V>(keys: seq<int>, values: map<int, seq<V>>): nat
    requires forall j | 0 <= j < |keys| :: keys[j] in values
    decreases |keys|
  {
    if keys == [] then 0 else Count(keys[..|keys| - 1], values) + |values[keys[|keys| - 1]]|
  }

  function CountAll<V>(m: JsMap<int, seq<V>>): nat
    requires m.Valid()
  {
    Count(m.keys, m.values)
  }

  // ---------------------------------------------------------------------
  // Properties
  // ---------------------------------------------------------------------

  /** Every caret is drawn at an offset no greater than the text length. */
  lemma {:induction false} DecorateWithinText(entries: seq<(int, seq<CursorMessage>)>, length: int, firstId: nat)
    ensures Decorate(entries, length, firstId).Valid()
    ensures forall place | place in Decorate(entries, length, firstId).values :: place <= length
    decreases |entries|
  {
    if entries != [] {
      DecorateWithinText(entries[..|entries| - 1], length, firstId);
    }
  }

  /** The map holds at each place exactly the insertions of the groups
      clamped to it, earlier groups first, and a place only if some group
      lands there. */
  lemma {:induction false} DecorateExact(entries: seq<(int, seq<CursorMessage>)>, length: int, firstId: nat, place: int)
    requires forall j | 0 <= j < |entries| :: entries[j].1 != []
    ensures Decorate(entries, length, firstId).Valid()
    ensures place in Decorate(entries, length, firstId).values <==> DrawnAt(entries, length, firstId, place) != []
    ensures place in Decorate(entries, length, firstId).values ==>
      Decorate(entries, length, firstId).values[place] == DrawnAt(entries, length, firstId, place)
    decreases |entries|
  {
    if entries != [] {
      var n := |entries| - 1;
      DecorateExact(entries[..n], length, firstId, place);
      DecorateWithinText(entries[..n], length, firstId);
    }
  }

  lemma {:induction false} CountOther<V>(keys: seq<int>, values: map<int, seq<V>>, k: int, v: seq<V>)
    requires forall j | 0 <= j < |keys| :: keys[j] in values
    requires k !in keys
    ensures Count(keys, values[k := v]) == Count(keys, values)
    decreases |keys|
  {
    if keys != [] {
      CountOther(keys[..|keys| - 1], values, k, v);
    }
  }

  lemma {:induction false} CountUpdate<V>(keys: seq<int>, values: map<int, seq<V>>, k: int, v: seq<V>)
    requires forall j | 0 <= j < |keys| :: keys[j] in values
    requires NoDup(keys) && k in keys
    ensures Count(keys, values[k := v]) + |values[k]| == Count(keys, values) + |v|
    decreases |keys|
  {
    var n := |keys| - 1;
    if keys[n] == k {
      assert k !in keys[..n];
      CountOther(keys[..n], values, k, v);
    } else {
      assert k in keys[..n];
      CountUpdate(keys[..n], values, k, v);
    }
  }

  /** Placing a group adds its insertions to the count. */
  lemma CountPlace<V>(m: JsMap<int, seq<V>>, offset: int, data: seq<V>)
    requires m.Valid()
    ensures Place(m, offset, data).Valid() && CountAll(Place(m, offset, data)) == CountAll(m) + |data|
  {
    var after := Place(m, offset, data);
    if m.Has(offset) {
      CountUpdate(m.keys, m.values, offset, m.values[offset] + data);
    } else {
      assert [] + data == data;
      assert after.keys == m.keys + [offset] && after.values == m.values[offset := data];
      assert after.keys[..|after.keys| - 1] == m.keys;
      assert Count(after.keys, after.values) == Count(m.keys, after.values) + |data|;
      CountOther(m.keys, m.values, offset, data);
    }
  }

  /** Drawing one more group adds its messages to the count. */
  lemma CountLast(entries: seq<(int, seq<CursorMessage>)>, length: int, firstId: nat)
    requires entries != [] && Decorate(entries[..|entries| - 1], length, firstId).Valid()
    ensures Decorate(entries, length, firstId).Valid()
    ensures CountAll(Decorate(entries, length, firstId))
      == CountAll(Decorate(entries[..|entries| - 1], length, firstId)) + |entries[|entries| - 1].1|
  {
    DecorateSnoc(entries, length, firstId);
    CountPlace(Decorate(entries[..|entries| - 1], length, firstId), Clamp(entries[|entries| - 1].0, length),
               ToInsertions(entries[|entries| - 1].1, firstId + Total(entries[..|entries| - 1])));
  }

  /** One insertion is drawn per cursor message. */
  lemma {:induction false} DecorateCount(entries: seq<(int, seq<CursorMessage>)>, length: int, firstId: nat)
    ensures Decorate(entries, length, firstId).Valid()
    ensures CountAll(Decorate(entries, length, firstId)) == Total(entries)
    decreases |entries|
  {
    if entries != [] {
      DecorateCount(entries[..|entries| - 1], length, firstId);
      CountLast(entries, length, firstId);
    }
  }

  // ---------------------------------------------------------------------
  // The loop
  // ---------------------------------------------------------------------

  /** The grouping loop of `decorateText`, for the carets of one block and
      the length of its text. */
  method DecorateText(cursorMessages: Groups, length: int, firstId: nat) returns (insertions: Insertions)
    requires cursorMessages.Valid()
    ensures insertions == Decorate(cursorMessages.Entries(), length, firstId)
  {
    var entries := cursorMessages.Entries();
    insertions := EmptyMap();
    var nextId := firstId;
    for i := 0 to |entries|
      invariant insertions == Decorate(entries[..i], length, firstId)
      invariant nextId == firstId + Total(entries[..i])
    {
      ghost var before := insertions;
      var (offset, messages) := entries[i];
      if offset > length {
        offset := length;
      }
      var insertionsData := ToInsertions(messages, nextId);
      nextId := nextId + |messages|;
      assert offset == Clamp(entries[i].0, length);
      if insertions.Has(offset) {
        insertions := insertions.Set(offset, insertions.values[offset] + insertionsData);
        assert insertions == Place(before, offset, insertionsData);
      } else {
        insertions := insertions.Set(offset, insertionsData);
        assert [] + insertionsData == insertionsData;
        assert insertions == Place(before, offset, insertionsData);
      }
      DecoratePrefix(entries, i, length, firstId);
    }
    assert entries[..|entries|] == entries;
  }

  // ---------------------------------------------------------------------
  // From the cursor registry to the drawn carets
  // ---------------------------------------------------------------------

  /** `Total` over the entries of a map is its `Count`. */
  lemma {:induction false} TotalEntries(m: Groups, i: nat)
    requires m.Valid() && i <= |m.keys|
    ensures Total(m.Entries()[..i]) == Count(m.keys[..i], m.values)
    decreases i
  {
    if i > 0 {
      TotalEntries(m, i - 1);
      assert m.Entries()[..i][..i - 1] == m.Entries()[..i - 1];
      assert m.keys[..i][..i - 1] == m.keys[..i - 1];
    }
  }

  /** Grouping by offset keeps every message. */
  lemma {:induction false} GroupByOffsetCount(messages: seq<CursorMessage>)
    ensures GroupByOffset(messages).Valid()
    ensures CountAll(GroupByOffset(messages)) == |messages|
    decreases |messages|
  {
    if messages != [] {
      var n := |messages| - 1;
      GroupByOffsetCount(messages[..n]);
      CountPlace(GroupByOffset(messages[..n]), messages[n].range.start.offset, [messages[n]]);
    }
  }

  /** Every simple collapsed caret of a block that `getSimpleCursors`
      returns is drawn exactly once. */
  lemma DrawsEveryCaret(messages: seq<CursorMessage>, length: int, firstId: nat)
    ensures GroupByOffset(messages).Valid()
    ensures Decorate(GroupByOffset(messages).Entries(), length, firstId).Valid()
    ensures CountAll(Decorate(GroupByOffset(messages).Entries(), length, firstId)) == |messages|
  {
    var groups := GroupByOffset(messages);
    GroupByOffsetCount(messages);
    TotalEntries(groups, |groups.keys|);
    assert groups.Entries()[..|groups.keys|] == groups.Entries();
    assert groups.keys[..|groups.keys|] == groups.keys;
    DecorateCount(groups.Entries(), length, firstId);
  }
}
