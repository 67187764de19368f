/**
 * The registry of remote collaborators and their cursors.
 *
 * It keeps the users and the latest cursor message of each remote client,
 * keyed by client id, answers which cursors lie in a block, and moves the
 * offsets of the cursors in a block when its text is edited. The events it
 * emits (`change` with the roster, `remote-cursor-change` with the blocks to
 * redraw) are appended to a log.
 *
 * The editor library decides whether a range is simple (both ends are text
 * offsets) or collapsed, and how a rich-text edit moves an offset; those
 * decisions are parameters here.
 */
module RemoteUsers {
  import opened Js

  datatype User = User(clientId: string, name: string, rainbowIndex: int)

  /** A position in a block; the offset is only read for simple ranges. */
  datatype Pos = Pos(blockId: string, offset: int)

  datatype Range = Range(start: Pos, end: Pos)

  /** A cursor message of a remote client, with the time it was sent. */
  datatype CursorMessage = CursorMessage(user: User, range: Range, time: int)

  datatype Emitted =
    | Change(users: seq<User>)
    | RemoteCursorChange(blockIds: seq<string>)

  /** The data of a block whose text was edited; `text` is `undefined` for a
      block without text. */
  datatype DocBlock = DocBlock(id: string, text: Value)

  type Users = JsMap<string, User>
  type Cursors = JsMap<string, CursorMessage>

  // ---------------------------------------------------------------------
  // The roster
  // ---------------------------------------------------------------------

  /** Every user is stored under its own client id. */
  ghost predicate UsersKeyed(users: Users)
  {
    forall id | id in users.values :: users.values[id].clientId == id
  }

  /** Every cursor is stored under its sender's client id. */
  ghost predicate CursorsKeyed(cursors: Cursors)
  {
    forall id | id in cursors.values :: cursors.values[id].user.clientId == id
  }

  /** The roster after `addUser` of each of `us` in turn. */
  function AddAll(users: Users, us: seq<User>): (r: Users)
    ensures users.Valid() ==> r.Valid()
    decreases |us|
  {
    if us == [] then users
    else
      var u := us[|us| - 1];
      AddAll(users, us[..|us| - 1]).Set(u.clientId, u)
  }

  /** The last of `us` with the given client id. */
  function LastWith(us: seq<User>, id: string): (r: Option<User>)
    ensures r.Some? ==> r.value in us && r.value.clientId == id
    ensures r.None? <==> forall j | 0 <= j < |us| :: us[j].clientId != id
    decreases |us|
  {
    if us == [] then None
    else if us[|us| - 1].clientId == id then Some(us[|us| - 1])
    else LastWith(us[..|us| - 1], id)
  }

  /** Adding users keeps one entry per client id: the last user added with
      that id, or the earlier one if none was; nothing is ever dropped. */
  lemma {:induction false} AddAllLookup(users: Users, us: seq<User>, id: string)
    requires users.Valid()
    ensures AddAll(users, us).Valid()
    ensures AddAll(users, us).Get(id) == if LastWith(us, id).Some? then LastWith(us, id) else users.Get(id)
    decreases |us|
  {
    if us != [] {
      AddAllLookup(users, us[..|us| - 1], id);
    }
  }

  lemma {:induction false} AddAllKeyed(users: Users, us: seq<User>)
    requires UsersKeyed(users)
    ensures UsersKeyed(AddAll(users, us))
    decreases |us|
  {
    if us != [] {
      AddAllKeyed(users, us[..|us| - 1]);
    }
  }

  /** The client ids of `us`, in order. */
  function ClientIds(us: seq<User>): (r: seq<string>)
    ensures |r| == |us|
    ensures forall j | 0 <= j < |us| :: r[j] == us[j].clientId
  {
    seq(|us|, j requires 0 <= j < |us| => us[j].clientId)
  }

  /** The users of `us` whose client id is not `id`, in order. */
  function Without(us: seq<User>, id: string): (r: seq<User>)
    ensures forall u :: u in r <==> u in us && u.clientId != id
    decreases |us|
  {
    if us == [] then []
    else if us[0].clientId == id then Without(us[1..], id)
    else
      var rest := Without(us[1..], id);
      assert forall u | u in rest :: u in us[1..];
      [us[0]] + rest
  }

  lemma {:induction false} WithoutIds(us: seq<User>, id: string)
    ensures ClientIds(Without(us, id)) == Remove(ClientIds(us), id)
    decreases |us|
  {
    if us != [] {
      assert ClientIds(us)[1..] == ClientIds(us[1..]);
      WithoutIds(us[1..], id);
      if us[0].clientId != id {
        var rest := Without(us[1..], id);
        assert ClientIds([us[0]] + rest) == [us[0].clientId] + ClientIds(rest);
      }
    }
  }

  /** Users with distinct client ids, added to an empty roster, are kept in
      their own order, each under its own id. */
  lemma {:induction false} AddAllFresh(us: seq<User>)
    requires NoDup(ClientIds(us))
    ensures AddAll(EmptyMap(), us).keys == ClientIds(us)
    ensures forall j | 0 <= j < |us| :: AddAll(EmptyMap(), us).values[us[j].clientId] == us[j]
    decreases |us|
  {
    if us != [] {
      var n := |us| - 1;
      var pre := us[..n];
      assert ClientIds(us) == ClientIds(pre) + [us[n].clientId];
      AddAllFresh(pre);
      var r := AddAll(EmptyMap(), pre);
      assert r.Valid();
      assert us[n].clientId !in r.values;
    }
  }

  /** Removing one client from a roster built by `addUsers` of users with
      distinct ids leaves every other user, in the order they were added. */
  lemma RemoveAfterAddAll(us: seq<User>, id: string)
    requires NoDup(ClientIds(us))
    ensures AddAll(EmptyMap(), us).Delete(id).Values() == Without(us, id)
  {
    var r := AddAll(EmptyMap(), us);
    AddAllFresh(us);
    WithoutIds(us, id);
    var d := r.Delete(id);
    var w := Without(us, id);
    assert d.keys == ClientIds(w);
    forall i | 0 <= i < |w|
      ensures d.Values()[i] == w[i]
    {
      var j :| 0 <= j < |us| && us[j] == w[i];
      assert d.keys[i] == us[j].clientId;
    }
  }

  // ---------------------------------------------------------------------
  // The blocks a cursor move redraws
  // ---------------------------------------------------------------------

  /** `new Set([range.start.blockId, range.end.blockId])`. */
  function Blocks(range: Range): (r: seq<string>)
    ensures NoDup(r)
    ensures forall b :: b in r <==> b == range.start.blockId || b == range.end.blockId
  {
    Dedup([range.start.blockId, range.end.blockId])
  }

  /** The old blocks the new set lacks, in order. */
  function Missing(oldBlocks: seq<string>, newBlocks: seq<string>): seq<string>
    decreases |oldBlocks|
  {
    if oldBlocks == [] then []
    else
      var b := oldBlocks[|oldBlocks| - 1];
      Missing(oldBlocks[..|oldBlocks| - 1], newBlocks) + if b in newBlocks then [] else [b]
  }

  /** `Missing` for one more old block. */
  lemma MissingPrefix(oldBlocks: seq<string>, newBlocks: seq<string>, i: nat)
    requires i < |oldBlocks|
    ensures Missing(oldBlocks[..i + 1], newBlocks)
      == Missing(oldBlocks[..i], newBlocks) + if oldBlocks[i] in newBlocks then [] else [oldBlocks[i]]
  {
    assert oldBlocks[..i + 1][..i] == oldBlocks[..i] && oldBlocks[..i + 1][i] == oldBlocks[i];
  }

  /** The blocks `setCursor` reports for a move from `old` to `message`. */
  function CursorChanges(message: CursorMessage, previous: Option<CursorMessage>): seq<string>
  {
    var newBlocks := Blocks(message.range);
    if previous.None? then newBlocks else newBlocks + Missing(Blocks(previous.value.range), newBlocks)
  }

  lemma {:induction false} MissingMeans(oldBlocks: seq<string>, newBlocks: seq<string>)
    requires NoDup(oldBlocks)
    ensures NoDup(Missing(oldBlocks, newBlocks))
    ensures forall b :: b in Missing(oldBlocks, newBlocks) <==> b in oldBlocks && b !in newBlocks
    decreases |oldBlocks|
  {
    if oldBlocks != [] {
      var n := |oldBlocks| - 1;
      assert oldBlocks == oldBlocks[..n] + [oldBlocks[n]];
      MissingMeans(oldBlocks[..n], newBlocks);
      assert oldBlocks[n] !in oldBlocks[..n];
    }
  }

  /** A cursor move redraws the new cursor's blocks first, then the blocks the
      old cursor touched that the new one does not, each block once. */
  lemma CursorChangesMeans(message: CursorMessage, previous: Option<CursorMessage>)
    ensures var r := CursorChanges(message, previous);
      && NoDup(r)
      && r[..|Blocks(message.range)|] == Blocks(message.range)
      && forall b :: b in r <==>
           || b == message.range.start.blockId || b == message.range.end.blockId
           || (previous.Some? && (b == previous.value.range.start.blockId || b == previous.value.range.end.blockId))
  {
    var newBlocks := Blocks(message.range);
    if previous.Some? {
      var missing := Missing(Blocks(previous.value.range), newBlocks);
      MissingMeans(Blocks(previous.value.range), newBlocks);
      var r := newBlocks + missing;
      assert r[..|newBlocks|] == newBlocks;
      forall i, j | 0 <= i < j < |r|
        ensures r[i] != r[j]
      {
        if j >= |newBlocks| && i < |newBlocks| {
          assert r[j] == missing[j - |newBlocks|];
          assert r[j] in missing;
        } else if i >= |newBlocks| {
          assert r[i] == missing[i - |newBlocks|] && r[j] == missing[j - |newBlocks|];
        }
      }
    }
  }

  // ---------------------------------------------------------------------
  // Block-scoped cursor queries
  // ---------------------------------------------------------------------

  /** The message's range starts or ends in the block. */
  predicate Touches(message: CursorMessage, blockId: string)
  {
    message.range.start.blockId == blockId || message.range.end.blockId == blockId
  }

  /** `messages.filter(...)` for the cursors of a block, in order. */
  function Touching(messages: seq<CursorMessage>, blockId: string): (r: seq<CursorMessage>)
    ensures forall m :: m in r <==> m in messages && Touches(m, blockId)
    decreases |messages|
  {
    if messages == [] then []
    else
      var m := messages[|messages| - 1];
      Touching(messages[..|messages| - 1], blockId) + if Touches(m, blockId) then [m] else []
  }

  /** A caret of a simple collapsed range that starts in the block. */
  predicate Caret(message: CursorMessage, blockId: string, isSimple: Range -> bool, isCollapsed: Range -> bool)
  {
    message.range.start.blockId == blockId && isSimple(message.range) && isCollapsed(message.range)
  }

  function Carets(messages: seq<CursorMessage>, blockId: string, isSimple: Range -> bool, isCollapsed: Range -> bool)
    : (r: seq<CursorMessage>)
    ensures forall m :: m in r <==> m in messages && Caret(m, blockId, isSimple, isCollapsed)
    decreases |messages|
  {
    if messages == [] then []
    else
      var m := messages[|messages| - 1];
      Carets(messages[..|messages| - 1], blockId, isSimple, isCollapsed)
        + if Caret(m, blockId, isSimple, isCollapsed) then [m] else []
  }

  /** The messages whose start offset is `offset`, in order. */
  function AtOffset(messages: seq<CursorMessage>, offset: int): (r: seq<CursorMessage>)
    ensures forall j | 0 <= j < |r| :: r[j].range.start.offset == offset
    decreases |messages|
  {
    if messages == [] then []
    else
      var m := messages[|messages| - 1];
      AtOffset(messages[..|messages| - 1], offset) + if m.range.start.offset == offset then [m] else []
  }

  /** The grouping loop of `getSimpleCursors`: each message is pushed onto
      the list of its start offset, a new offset getting a new list. */
  function GroupByOffset(messages: seq<CursorMessage>): JsMap<int, seq<CursorMessage>>
    decreases |messages|
  {
    if messages == [] then EmptyMap()
    else
      var m := messages[|messages| - 1];
      var groups := GroupByOffset(messages[..|messages| - 1]);
      var offset := m.range.start.offset;
      groups.Set(offset, (if groups.Has(offset) then groups.values[offset] else []) + [m])
  }

  /** The groups list under each offset exactly the messages with that start
      offset, in their order, and there is a group only for offsets that
      some message has. */
  lemma {:induction false} GroupByOffsetExact(messages: seq<CursorMessage>, offset: int)
    ensures GroupByOffset(messages).Valid()
    ensures offset in GroupByOffset(messages).values <==> AtOffset(messages, offset) != []
    ensures offset in GroupByOffset(messages).values ==>
      GroupByOffset(messages).values[offset] == AtOffset(messages, offset)
    decreases |messages|
  {
    if messages != [] {
      GroupByOffsetExact(messages[..|messages| - 1], offset);
    }
  }

  // ---------------------------------------------------------------------
  // Moving cursors under a text edit
  // ---------------------------------------------------------------------

  /** A position of the edited block moves as the edit says; others stay. */
  function MovePos(pos: Pos, blockId: string, actions: Value, local: bool, transform: (int, Value, bool) -> int): Pos
  {
    if pos.blockId == blockId then pos.(offset := transform(pos.offset, actions, local)) else pos
  }

  /** What `onUpdateBlockText` does to one cursor message. */
  function MoveCursor(message: CursorMessage, blockId: string, actions: Value, local: bool,
                      isSimple: Range -> bool, transform: (int, Value, bool) -> int): CursorMessage
  {
    if Touches(message, blockId) && isSimple(message.range) then
      message.(range := Range(MovePos(message.range.start, blockId, actions, local, transform),
                              MovePos(message.range.end, blockId, actions, local, transform)))
    else message
  }

  /** Every cursor moved by the edit of block `blockId`. */
  function MoveCursors(cursors: Cursors, blockId: string, actions: Value, local: bool,
                       isSimple: Range -> bool, transform: (int, Value, bool) -> int): Cursors
  {
    JsMap(cursors.keys, map id | id in cursors.values ::
                          MoveCursor(cursors.values[id], blockId, actions, local, isSimple, transform))
  }

  /** A text edit keeps every cursor's client, user, time and blocks; only a
      simple range's ends in the edited block get new offsets, computed from
      their old ones, and every other offset stays. */
  lemma MoveCursorsMeans(cursors: Cursors, blockId: string, actions: Value, local: bool,
                         isSimple: Range -> bool, transform: (int, Value, bool) -> int, id: string)
    requires cursors.Valid() && id in cursors.values
    ensures var r := MoveCursors(cursors, blockId, actions, local, isSimple, transform);
      var before := cursors.values[id];
      && r.Valid() && r.keys == cursors.keys && id in r.values
      && var after := r.values[id];
      && after.user == before.user && after.time == before.time
      && after.range.start.blockId == before.range.start.blockId
      && after.range.end.blockId == before.range.end.blockId
      && after.range.start.offset ==
           (if isSimple(before.range) && before.range.start.blockId == blockId
            then transform(before.range.start.offset, actions, local) else before.range.start.offset)
      && after.range.end.offset ==
           (if isSimple(before.range) && before.range.end.blockId == blockId
            then transform(before.range.end.offset, actions, local) else before.range.end.offset)
  {
  }

  lemma MoveCursorsKeyed(cursors: Cursors, blockId: string, actions: Value, local: bool,
                         isSimple: Range -> bool, transform: (int, Value, bool) -> int)
    requires cursors.Valid() && CursorsKeyed(cursors)
    ensures var r := MoveCursors(cursors, blockId, actions, local, isSimple, transform);
      r.Valid() && CursorsKeyed(r) && r.values.Keys == cursors.values.Keys
  {
  }

  /** The cursors a text edit rewrites are exactly the simple ones among
      those `getCursors` returns for the block. */
  lemma MovedAreReturned(cursors: Cursors, blockId: string, actions: Value, local: bool,
                         isSimple: Range -> bool, transform: (int, Value, bool) -> int, id: string)
    requires cursors.Valid() && id in cursors.values
    ensures var r := MoveCursors(cursors, blockId, actions, local, isSimple, transform);
      r.values[id] != cursors.values[id] ==>
        cursors.values[id] in Touching(cursors.Values(), blockId) && isSimple(cursors.values[id].range)
  {
    var i :| 0 <= i < |cursors.keys| && cursors.keys[i] == id;
    assert cursors.Values()[i] == cursors.values[id];
  }

  // ---------------------------------------------------------------------
  // The registry
  // ---------------------------------------------------------------------

  class RemoteUsers {
    var users: Users
    var cursors: Cursors
    var addingUser: bool
    /** The emitted events, oldest first. */
    var events: seq<Emitted>

    /** Each user and cursor sits under its client id, and only known users
        have a cursor. */
    ghost predicate Valid()
      reads this
    {
      && users.Valid() && cursors.Valid()
      && UsersKeyed(users) && CursorsKeyed(cursors)
      && forall id | id in cursors.values :: id in users.values
    }

    constructor ()
      ensures Valid() && !addingUser && events == []
      ensures users == EmptyMap() && cursors == EmptyMap()
    {
      users := EmptyMap();
      cursors := EmptyMap();
      addingUser := false;
      events := [];
    }

    /** `addUser`: the user replaces any earlier one of its client, and the
        roster is emitted unless a batch of users is being added. */
    method AddUser(user: User)
      requires Valid()
      modifies this
      ensures Valid()
      ensures users == old(users).Set(user.clientId, user)
      ensures cursors == old(cursors) && addingUser == old(addingUser)
      ensures events == old(events) + if addingUser then [] else [Change(users.Values())]
    {
      users := users.Set(user.clientId, user);
      if !addingUser {
        events := events + [Change(users.Values())];
      }
    }

    /** `addUsers`: adds each user with the roster events held back, then
        emits the roster once. */
    method AddUsers(us: seq<User>)
      requires Valid()
      modifies this
      ensures Valid()
      ensures users == AddAll(old(users), us)
      ensures cursors == old(cursors) && !addingUser
      ensures events == old(events) + [Change(users.Values())]
    {
      addingUser := true;
      for i := 0 to |us|
        invariant Valid() && addingUser
        invariant users == AddAll(old(users), us[..i])
        invariant cursors == old(cursors) && events == old(events)
      {
        AddUser(us[i]);
        assert us[..i + 1][..i] == us[..i];
      }
      assert us[..|us|] == us;
      addingUser := false;
      events := events + [Change(users.Values())];
    }

    /** `removeUser`: the client's user and cursor both go, and the remaining
        roster is emitted. */
    method RemoveUser(clientId: string)
      requires Valid()
      modifies this
      ensures Valid()
      ensures users == old(users).Delete(clientId) && cursors == old(cursors).Delete(clientId)
      ensures addingUser == old(addingUser)
      ensures events == old(events) + [Change(users.Values())]
    {
      users := users.Delete(clientId);
      cursors := cursors.Delete(clientId);
      events := events + [Change(users.Values())];
    }

    /** `setCursor`: registers the sender, stores the message as its cursor
        and emits the blocks to redraw. */
    method SetCursor(message: CursorMessage)
      requires Valid()
      modifies this
      ensures Valid()
      ensures users == old(users).Set(message.user.clientId, message.user)
      ensures cursors == old(cursors).Set(message.user.clientId, message)
      ensures addingUser == old(addingUser)
      ensures events == old(events)
        + (if addingUser then [] else [Change(users.Values())])
        + [RemoteCursorChange(CursorChanges(message, old(cursors).Get(message.user.clientId)))]
    {
      AddUser(message.user);
      var previous := cursors.Get(message.user.clientId);
      cursors := cursors.Set(message.user.clientId, message);
      var changes := ChangedBlocks(message, previous);
      events := events + [RemoteCursorChange(changes)];
    }

    /** The block set `setCursor` builds: the new range's blocks, then each
        block of the old range that is not among them. */
    static method ChangedBlocks(message: CursorMessage, previous: Option<CursorMessage>) returns (changes: seq<string>)
      ensures changes == CursorChanges(message, previous)
    {
      var newBlocks := Blocks(message.range);
      changes := newBlocks;
      if previous.Some? {
        var oldBlocks := Blocks(previous.value.range);
        for i := 0 to |oldBlocks|
          invariant changes == newBlocks + Missing(oldBlocks[..i], newBlocks)
        {
          MissingPrefix(oldBlocks, newBlocks, i);
          if oldBlocks[i] !in newBlocks {
            assert changes + [oldBlocks[i]] == newBlocks + (Missing(oldBlocks[..i], newBlocks) + [oldBlocks[i]]);
            changes := changes + [oldBlocks[i]];
          } else {
            assert Missing(oldBlocks[..i], newBlocks) + [] == Missing(oldBlocks[..i], newBlocks);
          }
        }
        assert oldBlocks[..|oldBlocks|] == oldBlocks;
      }
    }

    /** `getCursors`: the cursors that start or end in the block, in the
        order their clients were first seen. */
    function GetCursors(blockId: string): (r: seq<CursorMessage>)
      requires Valid()
      reads this
      ensures forall m :: m in r <==> (exists id | id in cursors.values :: cursors.values[id] == m) && Touches(m, blockId)
    {
      var all := cursors.Values();
      assert forall id | id in cursors.values :: exists i | 0 <= i < |all| :: all[i] == cursors.values[id];
      Touching(all, blockId)
    }

    /** `getSimpleCursors`: the carets in the block, grouped by offset. */
    method GetSimpleCursors(blockId: string, isSimple: Range -> bool, isCollapsed: Range -> bool)
      returns (ret: JsMap<int, seq<CursorMessage>>)
      requires Valid()
      ensures ret == GroupByOffset(Carets(cursors.Values(), blockId, isSimple, isCollapsed))
    {
      var messages := Carets(cursors.Values(), blockId, isSimple, isCollapsed);
      ret := EmptyMap();
      for i := 0 to |messages|
        invariant ret == GroupByOffset(messages[..i])
      {
        var message := messages[i];
        var offset := message.range.start.offset;
        var users := [];
        if ret.Has(offset) {
          users := ret.values[offset];
        }
        ret := ret.Set(offset, users + [message]);
        assert messages[..i + 1][..i] == messages[..i];
      }
      assert messages[..|messages|] == messages;
    }

    /** The `forEach` of `onUpdateBlockText`, over the stored cursors: each
        one of the block with a simple range is rewritten. */
    static method MoveEach(cs: Cursors, blockId: string, actions: Value, local: bool,
                           isSimple: Range -> bool, transform: (int, Value, bool) -> int)
      returns (r: Cursors)
      requires cs.Valid()
      ensures r == MoveCursors(cs, blockId, actions, local, isSimple, transform)
    {
      r := cs;
      var keys := cs.keys;
      for i := 0 to |keys|
        invariant r.keys == keys && r.values.Keys == cs.values.Keys
        invariant forall j | 0 <= j < |keys| ::
          r.values[keys[j]] == if j < i then MoveCursor(cs.values[keys[j]], blockId, actions, local, isSimple, transform)
                               else cs.values[keys[j]]
      {
        var id := keys[i];
        var cursor := r.values[id];
        if Touches(cursor, blockId) && isSimple(cursor.range) {
          r := r.Set(id, MoveCursor(cursor, blockId, actions, local, isSimple, transform));
        }
      }
      assert r.values == MoveCursors(cs, blockId, actions, local, isSimple, transform).values;
    }

    /** `onUpdateBlockText`: nothing for a block without text; otherwise each
        cursor of the block whose range is simple has the ends in the block
        moved by the edit. */
    method OnUpdateBlockText(blockData: DocBlock, actions: Value, local: bool,
                             isSimple: Range -> bool, transform: (int, Value, bool) -> int)
      requires Valid()
      modifies this
      ensures Valid()
      ensures users == old(users) && addingUser == old(addingUser) && events == old(events)
      ensures cursors == if Truthy(blockData.text)
                         then MoveCursors(old(cursors), blockData.id, actions, local, isSimple, transform)
                         else old(cursors)
    {
      if !Truthy(blockData.text) {
        return;
      }
      MoveCursorsKeyed(cursors, blockData.id, actions, local, isSimple, transform);
      cursors := MoveEach(cursors, blockData.id, actions, local, isSimple, transform);
    }
  }
}
