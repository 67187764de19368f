/**
 * The ShareDB document as the editor sees it.
 *
 * Every op batch the backend delivers, echoing a local edit or carrying a
 * remote one, goes through the op parser with the document as handler; the
 * document forwards each handler call to the callbacks the editor
 * registered, with the origin flag, and refuses calls once no callbacks are
 * registered and any call that would delete or create the root container.
 * Local edits read the block data they return and submit an op.
 */
module ShareDbDoc {
  import opened Js
  import opened OpBlockDelta
  import opened OpParserSpec
  import OpParser
  import ShareDbClient
  import ShareDbClientProps

  /** Which optional callbacks of `NextEditorDocCallbacks` the editor set. */
  datatype Callbacks = Callbacks(
    deleteBlock: bool, insertBlock: bool, updateBlockData: bool, updateBlockText: bool,
    deleteChildContainer: bool, insertChildContainer: bool)

  /** A call of one of the editor's callbacks. */
  datatype DocCall =
    | DeleteBlockCall(container: string, index: int, local: bool)
    | InsertBlockCall(container: string, index: int, data: Value, local: bool)
    | UpdateBlockDataCall(container: string, index: int, delta: DocBlockDelta, local: bool)
    | UpdateBlockTextCall(container: string, index: int, actions: Value, local: bool)
    | DeleteChildContainerCall(container: string, local: bool)
    | InsertChildContainerCall(container: string, blocks: Value, local: bool)

  /** The outcome of forwarding handler calls: the callbacks reached, and the
      failed assertion that stopped the forwarding, if any. */
  datatype Forwarded = Forwarded(calls: seq<DocCall>, fault: Option<ErrorKind>)

  // ---------------------------------------------------------------------
  // The handler methods
  // ---------------------------------------------------------------------

  /** The editor callback a parser event maps to. */
  function CallOf(e: Event): DocCall
  {
    match e
    case DeleteBlock(c, k, local) => DeleteBlockCall(c, k, local)
    case InsertBlock(c, k, data, local) => InsertBlockCall(c, k, data, local)
    case UpdateBlockData(c, k, delta, local) => UpdateBlockDataCall(c, k, delta.ToDoc(), local)
    case UpdateBlockText(c, k, actions, local) => UpdateBlockTextCall(c, k, actions, local)
    case DeleteContainer(c, local) => DeleteChildContainerCall(c, local)
    case CreateContainer(c, blocks, local) => InsertChildContainerCall(c, blocks, local)
  }

  /** The editor set the callback an event is forwarded to. */
  predicate HasCallback(cbs: Callbacks, e: Event)
  {
    match e
    case DeleteBlock(_, _, _) => cbs.deleteBlock
    case InsertBlock(_, _, _, _) => cbs.insertBlock
    case UpdateBlockData(_, _, _, _) => cbs.updateBlockData
    case UpdateBlockText(_, _, _, _) => cbs.updateBlockText
    case DeleteContainer(_, _) => cbs.deleteChildContainer
    case CreateContainer(_, _, _) => cbs.insertChildContainer
  }

  /** The handler method for one event: an assertion failure without
      callbacks or for the root container, else the callback if it is set. */
  function Forward(callbacks: Option<Callbacks>, e: Event): Result<seq<DocCall>>
  {
    if callbacks.None? then Err(AssertionFailed)
    else if (e.DeleteContainer? || e.CreateContainer?) && e.container == "root" then Err(AssertionFailed)
    else if HasCallback(callbacks.value, e) then Ok([CallOf(e)])
    else Ok([])
  }

  /** The handler methods for each event in turn, up to the first failure. */
  function ForwardAll(callbacks: Option<Callbacks>, events: seq<Event>): Forwarded
    decreases |events|
  {
    if events == [] then Forwarded([], None)
    else
      match Forward(callbacks, events[0])
      case Err(e) => Forwarded([], Some(e))
      case Ok(calls) =>
        var rest := ForwardAll(callbacks, events[1..]);
        Forwarded(calls + rest.calls, rest.fault)
  }

  /** Each handler method fails exactly without callbacks or on the root
      container; otherwise it makes the callback's call, with the same
      container, index and origin flag and the delta converted, if and only
      if the editor set that callback. */
  lemma ForwardMeans(callbacks: Option<Callbacks>, e: Event)
    ensures Forward(callbacks, e).Err? <==>
      callbacks.None? || ((e.DeleteContainer? || e.CreateContainer?) && e.container == "root")
    ensures Forward(callbacks, e).Ok? ==>
      && (Forward(callbacks, e).value != [] <==> HasCallback(callbacks.value, e))
      && forall call | call in Forward(callbacks, e).value ::
           && call.container == e.container && call.local == e.local
           && (e.UpdateBlockData? ==>
                 (call.UpdateBlockDataCall? && call.index == e.index
                  && call.delta.insert == e.delta.inserted && call.delta.delete == e.delta.deleted))
  {
  }

  /** Once the callbacks are gone, the first event of a batch already fails
      and nothing reaches the editor. */
  lemma {:induction false} DestroyedRefusesAll(events: seq<Event>)
    requires events != []
    ensures ForwardAll(None, events) == Forwarded([], Some(AssertionFailed))
  {
  }

  /** An editor with every callback set sees one call per event, in order,
      as long as no event is about the root container. */
  lemma {:induction false} ForwardAllComplete(cbs: Callbacks, events: seq<Event>)
    requires cbs == Callbacks(true, true, true, true, true, true)
    requires forall j | 0 <= j < |events| ::
      (events[j].DeleteContainer? || events[j].CreateContainer?) ==> events[j].container != "root"
    ensures ForwardAll(Some(cbs), events).fault == None
    ensures |ForwardAll(Some(cbs), events).calls| == |events|
    ensures forall j | 0 <= j < |events| :: ForwardAll(Some(cbs), events).calls[j] == CallOf(events[j])
    decreases |events|
  {
    if events != [] {
      ForwardAllComplete(cbs, events[1..]);
      var rest := ForwardAll(Some(cbs), events[1..]);
      assert ForwardAll(Some(cbs), events).calls == [CallOf(events[0])] + rest.calls;
    }
  }

  lemma ForwardOne(callbacks: Option<Callbacks>, e: Event)
    ensures ForwardAll(callbacks, [e]) ==
      if Forward(callbacks, e).Err? then Forwarded([], Some(Forward(callbacks, e).error))
      else Forwarded(Forward(callbacks, e).value, None)
  {
    assert [e][1..] == [];
  }

  /** `ForwardAll` from the event at `i` on. */
  lemma ForwardAllFrom(callbacks: Option<Callbacks>, events: seq<Event>, i: nat)
    requires i < |events|
    ensures ForwardAll(callbacks, events[i..]) ==
      match Forward(callbacks, events[i])
      case Err(e) => Forwarded([], Some(e))
      case Ok(calls) =>
        Forwarded(calls + ForwardAll(callbacks, events[i + 1..]).calls, ForwardAll(callbacks, events[i + 1..]).fault)
  {
    assert events[i..][0] == events[i] && events[i..][1..] == events[i + 1..];
  }

  // ---------------------------------------------------------------------
  // The document
  // ---------------------------------------------------------------------

  /** `getBlockData`: the block at the index of an existing container, which
      must be there. */
  function GetBlockData(blocks: map<string, seq<Value>>, containerId: string, blockIndex: int): (r: Result<Value>)
    ensures r.Ok? <==> containerId in blocks && 0 <= blockIndex < |blocks[containerId]|
                       && Truthy(blocks[containerId][blockIndex])
    ensures r.Ok? ==> r.value == blocks[containerId][blockIndex]
    ensures r.Err? ==> r.error == AssertionFailed
  {
    if containerId !in blocks then Err(AssertionFailed)
    else if 0 <= blockIndex < |blocks[containerId]| && Truthy(blocks[containerId][blockIndex]) then
      Ok(blocks[containerId][blockIndex])
    else Err(AssertionFailed)
  }

  class ShareDbDocument {
    /** The registered editor callbacks; `None` before registration and
        after `destroy`. */
    var callbacks: Option<Callbacks>
    /** The blocks of each container in the client's copy of the document. */
    var blocks: map<string, seq<Value>>
    /** The calls that reached the editor, oldest first. */
    var forwarded: seq<DocCall>
    /** The ops handed to the client for submission, oldest first. */
    var submitted: seq<seq<Value>>

    constructor (blocks: map<string, seq<Value>>)
      ensures this.blocks == blocks && callbacks == None && forwarded == [] && submitted == []
    {
      this.blocks := blocks;
      callbacks := None;
      forwarded := [];
      submitted := [];
    }

    method RegisterCallbacks(cbs: Callbacks)
      modifies this
      ensures callbacks == Some(cbs)
      ensures blocks == old(blocks) && forwarded == old(forwarded) && submitted == old(submitted)
    {
      callbacks := Some(cbs);
    }

    /** `destroy`: the callbacks go, so that every later event fails. */
    method Destroy()
      modifies this
      ensures callbacks == None
      ensures blocks == old(blocks) && forwarded == old(forwarded) && submitted == old(submitted)
    {
      callbacks := None;
    }

    /** One handler method of `OpParserHandler`. */
    method Handle(e: Event) returns (fault: Option<ErrorKind>)
      modifies this
      ensures Forward(callbacks, e).Ok? ==> fault == None && forwarded == old(forwarded) + Forward(callbacks, e).value
      ensures Forward(callbacks, e).Err? ==> fault == Some(Forward(callbacks, e).error) && forwarded == old(forwarded)
      ensures callbacks == old(callbacks) && blocks == old(blocks) && submitted == old(submitted)
    {
      if callbacks.None? {
        return Some(AssertionFailed);
      }
      var cbs := callbacks.value;
      match e {
        case DeleteBlock(c, k, local) =>
          if cbs.deleteBlock {
            forwarded := forwarded + [DeleteBlockCall(c, k, local)];
          }
        case InsertBlock(c, k, data, local) =>
          if cbs.insertBlock {
            forwarded := forwarded + [InsertBlockCall(c, k, data, local)];
          }
        case UpdateBlockData(c, k, delta, local) =>
          if cbs.updateBlockData {
            forwarded := forwarded + [UpdateBlockDataCall(c, k, delta.ToDoc(), local)];
          }
        case UpdateBlockText(c, k, actions, local) =>
          if cbs.updateBlockText {
            forwarded := forwarded + [UpdateBlockTextCall(c, k, actions, local)];
          }
        case DeleteContainer(c, local) =>
          if c == "root" {
            return Some(AssertionFailed);
          }
          if cbs.deleteChildContainer {
            forwarded := forwarded + [DeleteChildContainerCall(c, local)];
          }
        case CreateContainer(c, bs, local) =>
          if c == "root" {
            return Some(AssertionFailed);
          }
          if cbs.insertChildContainer {
            forwarded := forwarded + [InsertChildContainerCall(c, bs, local)];
          }
      }
      fault := None;
    }

    /** `handleOp`: the batch is parsed with the origin flag `!!source`, and
        the handler calls reach the editor in order. A failing handler stops
        the batch; otherwise the parser's own error, if any, ends it. */
    method HandleOp(ops: seq<Value>, source: Value) returns (fault: Option<ErrorKind>)
      modifies this
      ensures var run := ParseOps(ops, Truthy(source));
        var out := ForwardAll(old(callbacks), run.st.log);
        && forwarded == old(forwarded) + out.calls
        && fault == if out.fault.Some? then out.fault else run.fault
      ensures callbacks == old(callbacks) && blocks == old(blocks) && submitted == old(submitted)
    {
      var events, parseFault := OpParser.ParseOps(ops, Truthy(source));
      fault := HandleAll(events);
      if fault.None? {
        fault := parseFault;
      }
    }

    /** The handler methods for the events the parser reports, in order,
        up to the first that fails. */
    method HandleAll(events: seq<Event>) returns (fault: Option<ErrorKind>)
      modifies this
      ensures forwarded == old(forwarded) + ForwardAll(old(callbacks), events).calls
      ensures fault == ForwardAll(old(callbacks), events).fault
      ensures callbacks == old(callbacks) && blocks == old(blocks) && submitted == old(submitted)
    {
      ghost var cbs := callbacks;
      ghost var done: seq<DocCall> := [];
      var i := 0;
      while i < |events|
        invariant 0 <= i <= |events|
        invariant callbacks == cbs && blocks == old(blocks) && submitted == old(submitted)
        invariant forwarded == old(forwarded) + done
        invariant ForwardAll(cbs, events)
          == Forwarded(done + ForwardAll(cbs, events[i..]).calls, ForwardAll(cbs, events[i..]).fault)
      {
        ForwardAllFrom(cbs, events, i);
        fault := Handle(events[i]);
        if fault.Some? {
          assert done + [] == done;
          return;
        }
        assert done + Forward(cbs, events[i]).value + ForwardAll(cbs, events[i + 1..]).calls
          == done + (Forward(cbs, events[i]).value + ForwardAll(cbs, events[i + 1..]).calls);
        done := done + Forward(cbs, events[i]).value;
        i := i + 1;
      }
      assert done + [] == done;
      fault := None;
    }

    /** `localDeleteBlock`: the block data read before the delete op is
        submitted; nothing is submitted when there is no such block. */
    method LocalDeleteBlock(containerId: string, blockIndex: int) returns (r: Result<Value>)
      modifies this
      ensures r == GetBlockData(old(blocks), containerId, blockIndex)
      ensures submitted == old(submitted) + if r.Ok? then [ShareDbClient.DeleteBlockOp(containerId, blockIndex)] else []
      ensures callbacks == old(callbacks) && forwarded == old(forwarded)
    {
      r := GetBlockData(blocks, containerId, blockIndex);
      if r.Err? {
        return;
      }
      submitted := submitted + [ShareDbClient.DeleteBlockOp(containerId, blockIndex)];
    }

    /** `localUpdateBlockData`: a copy of the block data taken before the
        update is submitted; an empty delta submits nothing. */
    method LocalUpdateBlockData(containerId: string, blockIndex: int, delta: DocBlockDelta) returns (r: Result<Value>)
      requires delta.insert.Valid()
      modifies this
      ensures r == GetBlockData(old(blocks), containerId, blockIndex)
      ensures var op := ShareDbClient.UpdateBlockDataOpAsWritten(containerId, blockIndex, delta);
        submitted == old(submitted) + if r.Ok? && op.Some? then [op.value] else []
      ensures callbacks == old(callbacks) && forwarded == old(forwarded)
    {
      r := GetBlockData(blocks, containerId, blockIndex);
      if r.Err? {
        return;
      }
      var op := ShareDbClient.UpdateBlockData(containerId, blockIndex, delta);
      if op.Some? {
        submitted := submitted + [op.value];
      }
    }

    /** `localInsertChildContainer`: one op creating the container. */
    method LocalInsertChildContainer(containerId: string, blocks: seq<Value>)
      modifies this
      ensures submitted == old(submitted) + [ShareDbClient.InsertChildContainerOp(containerId, blocks)]
      ensures callbacks == old(callbacks) && forwarded == old(forwarded) && this.blocks == old(this.blocks)
    {
      submitted := submitted + [ShareDbClient.InsertChildContainerOp(containerId, blocks)];
    }

    /** `localDeleteChildContainers`: one delete op per container, in order. */
    method LocalDeleteChildContainers(containerIds: seq<string>)
      modifies this
      ensures submitted == old(submitted) + DeleteContainerOps(containerIds)
      ensures callbacks == old(callbacks) && forwarded == old(forwarded) && blocks == old(blocks)
    {
      for i := 0 to |containerIds|
        invariant submitted == old(submitted) + DeleteContainerOps(containerIds[..i])
        invariant callbacks == old(callbacks) && forwarded == old(forwarded) && blocks == old(blocks)
      {
        submitted := submitted + [ShareDbClient.DeleteChildContainerOp(containerIds[i])];
        assert containerIds[..i + 1][..i] == containerIds[..i];
      }
      assert containerIds[..|containerIds|] == containerIds;
    }
  }

  /** The delete ops for the containers, in order. */
  function DeleteContainerOps(containerIds: seq<string>): (r: seq<seq<Value>>)
    ensures |r| == |containerIds|
    decreases |containerIds|
  {
    if containerIds == [] then []
    else
      var n := |containerIds| - 1;
      DeleteContainerOps(containerIds[..n]) + [ShareDbClient.DeleteChildContainerOp(containerIds[n])]
  }

  /** Each container gets exactly its own delete op. */
  lemma {:induction false} DeleteContainerOpsAt(containerIds: seq<string>, j: nat)
    requires j < |containerIds|
    ensures DeleteContainerOps(containerIds)[j] == ShareDbClient.DeleteChildContainerOp(containerIds[j])
    decreases |containerIds|
  {
    var n := |containerIds| - 1;
    if j < n {
      DeleteContainerOpsAt(containerIds[..n], j);
    }
  }

  // ---------------------------------------------------------------------
  // Local edits seen again
  // ---------------------------------------------------------------------

  /** The echo of a local `deleteBlock` reaches an editor with every callback
      set as one local `onDeleteBlock` for the same block. */
  lemma DeleteBlockEcho(cbs: Callbacks, containerId: string, index: int)
    requires cbs == Callbacks(true, true, true, true, true, true)
    ensures var run := ParseOps(ShareDbClient.DeleteBlockOp(containerId, index), true);
      && run.fault == None
      && ForwardAll(Some(cbs), run.st.log) == Forwarded([DeleteBlockCall(containerId, index, true)], None)
  {
    ShareDbClient.DeleteBlockRoundTrip(containerId, index, true);
    var log := [DeleteBlock(containerId, index, true)];
    assert ForwardAll(Some(cbs), log[1..]) == Forwarded([], None);
  }

  /** The echo of a local `updateBlockData` reaches such an editor as at
      most one local `onUpdateBlockData` for the block. Its delta inserts
      exactly the truthy inserted values, but deletes only the deleted keys
      that are inserted again, because the op as built removes no other key. */
  lemma UpdateBlockDataEcho(cbs: Callbacks, containerId: string, index: int, delta: DocBlockDelta)
    requires cbs == Callbacks(true, true, true, true, true, true)
    requires delta.insert.Valid()
    requires !(delta.delete == [] && delta.insert.keys == [])
    ensures var run := ParseOps(ShareDbClient.UpdateBlockDataOpAsWritten(containerId, index, delta).value, true);
      var out := ForwardAll(Some(cbs), run.st.log);
      && run.fault == None && out.fault == None && |out.calls| <= 1
      && forall call | call in out.calls ::
           && call.UpdateBlockDataCall? && call.container == containerId && call.index == index && call.local
           && (forall key :: key in call.delta.delete <==> key in delta.delete && key in delta.insert.values)
           && call.delta.insert.values == ShareDbClientProps.TruthyPart(delta.insert.values)
  {
    var op := ShareDbClient.UpdateBlockDataOpAsWritten(containerId, index, delta).value;
    ShareDbClientProps.UpdateBlockDataAsWrittenRoundTrip(containerId, index, delta, true);
    var run := ParseOps(op, true);
    assert run.fault == None && run.st.log == ShareDbClient.Calls(op, true).value;
    if run.st.log != [] {
      var e := run.st.log[0];
      assert run.st.log == [e];
      ForwardOne(Some(cbs), e);
    }
  }
}
