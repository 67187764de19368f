# nexteditor-sharedb client engine, modelled in Dafny

This project models the client side of the nexteditor ShareDB binding. The
model covers these parts:

- **json1 op interpretation.** A batch of ops, local or remote, is read in
  two passes: removals first, then insertions and updates. Attribute edits
  are gathered per block and reported at the end. Each step becomes a call
  of the document handler.
- **Block identity tracking.** Edits are recorded against a block identity,
  so that an edit still names the right block after other blocks before it
  are inserted or removed.
- **Per-block attribute deltas.** These are the deltas the parser
  accumulates (`OpBlockDataDelta`).
- **Op construction.** The ops the client builds for each kind of local
  edit.
- **The document's dispatch layer.** It forwards handler calls to the
  editor's callbacks and refuses to create or delete the root container.
- **The remote-user registry.** It holds users and cursors, reports which
  blocks a cursor change touches, and moves cursors through text edits.
- **The cursor decorator.** It groups the collapsed remote carets of a
  block by offset and turns them into insertions.

Each source file takes its own form in the model:

- Pure calculation is written as datatypes and functions.
- An object whose methods change its fields becomes a `class` with
  `modifies` clauses.
- Each loop is a `while`/`for` loop. Its method is proved equal to a
  specification function, and the properties the code promises are proved
  about that function.

JavaScript values are the `Js.Value` datatype. Truthiness and `typeof` are
written out in full. So is the TypeError raised when a property is read from
`null` or `undefined`. A JavaScript `Map` is `Js.JsMap`, which keeps its keys
in insertion order. A `Set` is a sequence without repeats. A failed
`assert(...)` or a TypeError stops the operation. Every handler call made
before that point is kept, as in the code.

Modules:

- `Js` (js.dfy): JavaScript values, `Map`, and helpers.
- `BlockIdIndex` (block_ids.dfy): contains `BlockIds`, `ContainerBlockIds`,
  and the functions that specify them.
- `OpBlockDelta` (op_block_delta.dfy): contains `OpBlockDataDelta`.
- `OpParserSpec` (op_parser_spec.dfy): what a batch means, as functions on a
  parser state.
- `OpParser` (op_parser.dfy): the imperative parser (`InternalParser` and the
  parse procedures). It is proved equal to `OpParserSpec`.
- `OpParserProps` (op_parser_props.dfy) and `OpParserShapes`
  (op_parser_shapes.dfy): properties of the parser.
- `ShareDbClient` (sharedb_client.dfy) and `ShareDbClientProps`
  (sharedb_client_props.dfy): the op builders, and what the parser makes of
  each op they build.
- `ShareDbDoc` (sharedb_doc.dfy): the document's dispatch layer and its
  local edits.
- `RemoteUsers` (remote_users.dfy) and `RemoteCursorDecorator`
  (remote_cursor_decorator.dfy).

In the following places the code and the written design disagree. The model
follows the code in each case:

- `updateBlockData` never emits a `[key, {r: true}]` pair for a key that is
  deleted but not inserted again (see "## Findings"). The builder methods and
  the document's `localUpdateBlockData` build and submit the op as written.
  The intended op is a separate definition (`ShareDbClient.UpdateBlockDataOp`)
  whose meaning is proved by itself and which no method uses.
- `setCursor` reports every block of the new cursor, plus the blocks of the
  old cursor that the new one does not touch. This is the union of the two
  block sets, not only the blocks that changed.
- An attribute that is deleted and then inserted in the same batch is
  reported as both a deletion and an insertion. The insertion does not
  cancel the deletion.
- The document never passes text edits to the remote-user registry. Nothing
  in `sharedb-doc.ts` calls `RemoteUsers.onUpdateBlockText`. The registry
  method is modelled by itself.

## Model

| member | source | states |
|---|---|---|
| `BlockIdIndex.InsertShift` | src/sharedb-doc/block-ids.ts:10-23 | Inserting at index k: indexes below k keep their id, indexes at or after k move up by one, and k gets the new id. |
| `BlockIdIndex.DeleteShift` | src/sharedb-doc/block-ids.ts:25-38 | Deleting index k: indexes below k keep their id, indexes after k move down by one, and k's id is gone. |
| `BlockIdIndex.InsertShiftIds` | src/sharedb-doc/block-ids.ts:10-23 | Inserting keeps ids unique and adds exactly the new id. |
| `BlockIdIndex.DeleteShiftIds` | src/sharedb-doc/block-ids.ts:25-38 | Deleting keeps ids unique and removes exactly the id at the deleted index. |
| `BlockIdIndex.DeleteUndoesInsert` | src/sharedb-doc/block-ids.ts:10-38 | Deleting the index just inserted restores the previous index-to-id map. |
| `BlockIdIndex.SortedIndexes` | src/sharedb-doc/block-ids.ts:11 | Sorting the map's keys gives exactly those keys, strictly ascending or strictly descending. |
| `BlockIdIndex.BlockIds.OnInsertBlock` | src/sharedb-doc/block-ids.ts:10-23 | The loop moves entries from the highest index down. Its end state is `InsertShift` of the old map. |
| `BlockIdIndex.BlockIds.OnDeleteBlock` | src/sharedb-doc/block-ids.ts:25-38 | The loop moves entries from the lowest index up. Its end state is `DeleteShift` of the old map. |
| `BlockIdIndex.BlockIds.GetId` | src/sharedb-doc/block-ids.ts:40-47 | Returns the existing id and changes nothing if the index has an id. Otherwise the fresh id is stored at that index and returned. |
| `BlockIdIndex.BlockIds.GetById` | src/sharedb-doc/block-ids.ts:49-51 | Finds an entry exactly when the id is present, and the entry found maps to that id. When ids are distinct, that entry is the only one holding the id. |
| `BlockIdIndex.Ensure` | src/sharedb-doc/block-ids.ts:57-64 | The container exists afterwards, keeping its old entries if it existed. Every other container is unchanged. |
| `BlockIdIndex.ContainerBlockIds.GetContainerIds` | src/sharedb-doc/block-ids.ts:57-64 | The returned object is the container's entry, and the index is `Ensure` of the old one. |
| `BlockIdIndex.ContainerBlockIds.OnInsertBlock` | src/sharedb-doc/block-ids.ts:66-68 | The new index is `InsertIn` of the old one, and the id counter advances by one. |
| `BlockIdIndex.ContainerBlockIds.OnDeleteBlock` | src/sharedb-doc/block-ids.ts:70-72 | The new index is `DeleteIn` of the old one. |
| `BlockIdIndex.ContainerBlockIds.GetBlockId` | src/sharedb-doc/block-ids.ts:74-76 | The id, index and counter are those given by `GetBlockIdIn`. |
| `BlockIdIndex.GetBlockIdIn` | src/sharedb-doc/block-ids.ts:74-76 | A known index returns its id and leaves the counter alone. An unknown index receives the next id and the counter advances. Every other entry is kept. |
| `BlockIdIndex.GetBlockIdIdempotent` | src/sharedb-doc/block-ids.ts:40-47 | Asking for the same block again gives the same id and changes nothing. |
| `BlockIdIndex.InsertInKeepsInvariant` | src/sharedb-doc/block-ids.ts:66-68 | Ids stay unique across all containers and stay below the counter. |
| `BlockIdIndex.DeleteInKeepsInvariant` | src/sharedb-doc/block-ids.ts:70-72 | Ids stay unique across all containers and stay below the counter. |
| `BlockIdIndex.GetBlockIdKeepsInvariant` | src/sharedb-doc/block-ids.ts:74-76 | Ids stay unique and below the counter, and the counter never goes back. |
| `BlockIdIndex.DeleteInKeepsTracked` | src/sharedb-doc/block-ids.ts:70-72 | Deleting another block leaves every other tracked id tracked. |
| `BlockIdIndex.Locate` | src/sharedb-doc/block-ids.ts:78-92 | Finds a position exactly when the id is tracked, and that position holds the id. |
| `BlockIdIndex.LocateUnique` | src/sharedb-doc/block-ids.ts:78-92 | With unique ids, the position found is the only one holding the id. |
| `BlockIdIndex.BlockIndexOf` | src/sharedb-doc/block-ids.ts:78-92 | Succeeds exactly when the id is tracked, with a position holding it. Otherwise the assertion fails. |
| `BlockIdIndex.ContainerBlockIds.GetBlockIndexById` | src/sharedb-doc/block-ids.ts:78-92 | The loop over the containers succeeds exactly when the id is tracked, returns its unique position, and otherwise fails the assertion. |
| `OpBlockDelta.DeltaValue.Insert` | src/sharedb-doc/op-block-delta.ts:9-11 | Sets the key's value and leaves the deleted keys alone. |
| `OpBlockDelta.DeltaValue.Delete` | src/sharedb-doc/op-block-delta.ts:13-15 | Adds the key to the deleted set with no repeat, and leaves the inserted values alone. |
| `OpBlockDelta.DeltaValue.ToDoc` | src/sharedb-doc/op-block-delta.ts:17-28 | Reports the inserted values in insertion order and the deleted keys with no repeats. |
| `OpBlockDelta.InsertOverwrites` | src/sharedb-doc/op-block-delta.ts:9-11 | A second insert of the same key replaces the first. |
| `OpBlockDelta.DeleteIdempotent` | src/sharedb-doc/op-block-delta.ts:13-15 | Deleting a key twice has the same effect as deleting it once. |
| `OpBlockDelta.InsertDeleteCommute` | src/sharedb-doc/op-block-delta.ts:9-15 | Inserting a key and deleting a key commute. |
| `OpBlockDelta.DeletedAndInserted` | src/sharedb-doc/op-block-delta.ts:9-28 | A key deleted and then inserted is reported both as deleted and as inserted with the new value. |
| `OpBlockDelta.ApplyReports` | src/sharedb-doc/op-block-delta.ts:4-28 | After any sequence of edits, a key is reported deleted exactly when some edit deleted it. Its reported value is the last one inserted. |
| `OpBlockDelta.OpBlockDataDelta.Insert` | src/sharedb-doc/op-block-delta.ts:9-11 | The object's value becomes `Insert` of its old value. |
| `OpBlockDelta.OpBlockDataDelta.Delete` | src/sharedb-doc/op-block-delta.ts:13-15 | The object's value becomes `Delete` of its old value. |
| `OpBlockDelta.OpBlockDataDelta.ToDocBlockDelta` | src/sharedb-doc/op-block-delta.ts:17-28 | Returns `ToDoc` of the object's value. |
| `OpParser.InternalParser.OnDeleteBlock` | src/sharedb-doc/op-parser.ts:26-35 | Resolves the block's id, removes the index, drops any pending delta of that id, and reports the deletion. |
| `OpParser.InternalParser.OnInsertBlock` | src/sharedb-doc/op-parser.ts:37-40 | Shifts the index, gives the block a fresh id, and reports the insertion. |
| `OpParser.InternalParser.OnUpdateBlockText` | src/sharedb-doc/op-parser.ts:42-44 | Reports the text edit at once. |
| `OpParser.InternalParser.OnDeleteBlockData` | src/sharedb-doc/op-parser.ts:46-54 | Records the deletion in the block's pending delta, creating the delta if absent. Nothing is reported yet. |
| `OpParser.InternalParser.OnInsertBlockData` | src/sharedb-doc/op-parser.ts:56-64 | Records the value in the block's pending delta, creating the delta if absent. Nothing is reported yet. |
| `OpParser.InternalParser.ExecuteUpdateBlockDataActions` | src/sharedb-doc/op-parser.ts:66-71 | The loop reports each pending delta at its block's current position, in insertion order. An untracked id fails the assertion. |
| `OpParser.ParseInsertBlockOnlyOp` | src/sharedb-doc/op-parser.ts:90-145 | Inserts the merged block and returns true exactly for the insert-only shape. Otherwise it returns false and changes nothing, or fails the id/type assertion. |
| `OpParser.BlockOpTurn` | src/sharedb-doc/op-parser.ts:161-273 | One turn of the block-op loop: text op, attribute pair, block itself, or last key, as `BlockOpStep`. |
| `OpParser.RunRemoveAction` | src/sharedb-doc/op-parser.ts:277-286 | Runs one deferred removal action. |
| `OpParser.ParseBlockOp` | src/sharedb-doc/op-parser.ts:147-287 | Equal to `OpParserSpec.ParseBlockOp`: the insert-only shortcut in the upsert pass, then the loop, then the removal actions in reverse. |
| `OpParser.ParseOp` | src/sharedb-doc/op-parser.ts:293-351 | Equal to `OpParserSpec.ParseOp` on every path: meta, bad root, multi-container, several block ops, container op, a single block op. |
| `OpParser.ParseSubOps` | src/sharedb-doc/op-parser.ts:306-316 | Each sub-path is parsed as `['blocks', ...sub]` in turn, stopping at the first failure. |
| `OpParser.ParseBlockOps` | src/sharedb-doc/op-parser.ts:320-329 | Each block op is parsed in turn, stopping at the first failure. |
| `OpParser.ParseOps` | src/sharedb-doc/op-parser.ts:353-372 | The handler calls made, and the error that stopped them, are those of `OpParserSpec.ParseOps`. |
| `OpParserSpec.ParseOpGrows` | src/sharedb-doc/op-parser.ts:293-351 | A pass keeps the parser state consistent and only appends calls belonging to that pass: removals in the first pass, insertions, text edits and container creations in the second. |
| `OpParserSpec.ParsePassGrows` | src/sharedb-doc/op-parser.ts:357-369 | A whole pass over a batch preserves the same invariant. |
| `OpParserSpec.RunActionsGrows` | src/sharedb-doc/op-parser.ts:275-286 | Running the deferred removal actions only appends removals and keeps the state consistent. |
| `OpParserSpec.InsertPairsShape` | src/sharedb-doc/op-parser.ts:110-129 | An accepted insert-only op has only `[key, {i}]` pairs after the block. |
| `OpParserProps.ParseOpsPhases` | src/sharedb-doc/op-parser.ts:353-372 | In any batch, every removal is reported before every insertion or text edit, and those come before every attribute delta. |
| `OpParserProps.ParseOpsFaults` | src/sharedb-doc/op-parser.ts:357-369 | A failure in the removal pass stops the batch. Otherwise the fault is the upsert pass's fault. |
| `OpParserProps.FlushReportsEach` | src/sharedb-doc/op-parser.ts:66-71 | On a consistent state, the flush never fails, changes only the log, and appends one delta call per pending block, in insertion order, at that block's current position. |
| `OpParserProps.DeleteDropsDelta` | src/sharedb-doc/op-parser.ts:26-35 | Deleting a block drops its pending delta and its id, and every other pending delta is kept. |
| `OpParserProps.MetaOpIgnored` | src/sharedb-doc/op-parser.ts:289-300 | A `meta` op changes nothing and reports nothing. |
| `OpParserProps.UnknownRootRejected` | src/sharedb-doc/op-parser.ts:302 | Any other root key fails the assertion before anything is reported. |
| `OpParserShapes.ContainerOpPasses` | src/sharedb-doc/op-parser.ts:333-345 | A container object reports a deletion in the removal pass if `r` is truthy, and a creation in the upsert pass if `i` is truthy. Nothing else happens. |
| `OpParserShapes.BlockOpsOrder` | src/sharedb-doc/op-parser.ts:320-329 | Several block ops in one path run in reverse in the removal pass and in order in the upsert pass. |
| `OpParserShapes.DeleteOneBlock` | src/sharedb-doc/op-parser.ts:230-248 | `[k, {r}]` in the removal pass deletes block k. |
| `OpParserShapes.InsertOneBlock` | src/sharedb-doc/op-parser.ts:98-100 | `[k, {i: data}]` is not taken by the insert-only shortcut, and it inserts block k only when `data` is truthy. |
| `OpParserShapes.TwoBlockOps` | src/sharedb-doc/op-parser.ts:320-329 | Two block ops run one after the other, stopping at a failure. |
| `OpParserShapes.RemovalsLastFirst` | src/sharedb-doc/op-parser.ts:321-324 | In the removal pass, the second block op of a path runs before the first. |
| `OpParserShapes.InsertionsInOrder` | src/sharedb-doc/op-parser.ts:326-328 | In the upsert pass, the block ops of a path run in their own order. |
| `OpParserShapes.TwoRemovalsLog` | src/sharedb-doc/op-parser.ts:321-324 | Removing blocks k1 and k2 in one path reports k2 first, then k1. |
| `OpParserShapes.TwoInsertionsLog` | src/sharedb-doc/op-parser.ts:326-328 | Inserting blocks k1 and k2 in one path reports k1 first, then k2. |
| `OpParserShapes.MultiContainerReplay` | src/sharedb-doc/op-parser.ts:306-316 | `['blocks', p1, p2]` means `['blocks', ...p1]` followed by `['blocks', ...p2]`, stopping at a failure. |
| `OpParserShapes.InsertPairsAccept` | src/sharedb-doc/op-parser.ts:110-129 | Every sequence of `[key, {i}]` pairs passes the shortcut's shape check. |
| `OpParserShapes.MergeLastWins` | src/sharedb-doc/op-parser.ts:135-140 | Merging the pairs into the block data gives each key the value of its last pair, or its old value if no pair names it. |
| `OpParserShapes.InsertOnlyMerges` | src/sharedb-doc/op-parser.ts:90-145 | An insert with attribute pairs reports one insertion carrying the merged data. |
| `OpParserShapes.InsertOnlyAccepts` | src/sharedb-doc/op-parser.ts:102-140 | The shortcut accepts such an op and returns the merged block. |
| `OpParserShapes.TextOpLast` | src/sharedb-doc/op-parser.ts:164-178 | A rich-text op reports the edit in the upsert pass, and any op after it fails the assertion. |
| `OpParserShapes.AttributeInsert` | src/sharedb-doc/op-parser.ts:179-271 | An attribute insert is recorded when its value is truthy, in both the `key, {i}` and the `[key, {i}]` forms. |
| `ShareDbClient.InsertChildContainerRoundTrip` | src/sharedb-doc/sharedb-client.ts:60-63 | Parsing the op gives exactly one container-creation call with the blocks. |
| `ShareDbClient.DeleteChildContainerRoundTrip` | src/sharedb-doc/sharedb-client.ts:65-68 | Parsing the op gives exactly one container-deletion call. |
| `ShareDbClient.InsertBlockRoundTrip` | src/sharedb-doc/sharedb-client.ts:70-73 | Parsing the op gives exactly one insertion when the data is truthy, and nothing otherwise. |
| `ShareDbClient.DeleteBlockRoundTrip` | src/sharedb-doc/sharedb-client.ts:75-78 | Parsing the op gives exactly one deletion of that block. |
| `ShareDbClient.DeleteBlockUpsertPass` | src/sharedb-doc/sharedb-client.ts:75-78 | The delete op does nothing in the upsert pass. |
| `ShareDbClient.UpdateRichTextRoundTrip` | src/sharedb-doc/sharedb-client.ts:109-112 | Parsing the op gives exactly one text-edit call carrying the edit. |
| `ShareDbClient.PushReplaceOps` | src/sharedb-doc/sharedb-client.ts:88-93 | The loop appends a replace pair for each inserted key that is also deleted, in insertion order. |
| `ShareDbClient.PushDeleteOnlyOps` | src/sharedb-doc/sharedb-client.ts:95-99 | The loop as written: it appends a removal pair only for a deleted key that is not in `deletedKeysSet`. |
| `ShareDbClient.PushInsertOnlyOps` | src/sharedb-doc/sharedb-client.ts:100-104 | The loop appends an insert pair for each inserted key that is not deleted. |
| `ShareDbClient.UpdateBlockData` | src/sharedb-doc/sharedb-client.ts:80-107 | The three loops build the op as written, `UpdateBlockDataOpAsWritten`. What that op means is stated by `ShareDbClientProps.UpdateBlockDataAsWrittenRoundTrip`. |
| `ShareDbClient.TwoPasses` | src/sharedb-doc/op-parser.ts:353-372 | When both passes succeed and no delta is pending, the calls are the log of the second pass. |
| `ShareDbClientProps.UpdateBlockDataRoundTrip` | src/sharedb-doc/sharedb-client.ts:80-107 | For the corrected op, not the one the code builds: an empty delta gives no op. Otherwise parsing the op gives at most one delta call for the block, and none only when nothing is deleted and no inserted value is truthy. That call deletes exactly the deleted keys and inserts exactly the truthy inserted values. |
| `ShareDbClientProps.AttrPairsRoundTrip` | src/sharedb-doc/op-parser.ts:179-229 | Any list of attribute pairs after a block path parses to at most one delta call, whose deletions and insertions are those the pairs name. |
| `ShareDbClientProps.UpdatePairsMean` | src/sharedb-doc/sharedb-client.ts:87-104 | For the corrected pairs, not the ones the code builds: they remove exactly the deleted keys, and put exactly the truthy inserted values. |
| `ShareDbClientProps.RemovePass` | src/sharedb-doc/op-parser.ts:214-218 | The removal pass over attribute pairs defers one removal per `r` pair, runs them reversed, and records exactly those keys as deleted. |
| `ShareDbClientProps.UpsertPass` | src/sharedb-doc/op-parser.ts:220-224 | The upsert pass records each truthy `i` value, in order, so the last value for a key wins. |
| `ShareDbClientProps.ReverseActions` | src/sharedb-doc/op-parser.ts:275 | Reversing the deferred actions keeps the same set of keys. |
| `ShareDbClientProps.FlushOnly` | src/sharedb-doc/op-parser.ts:66-71 | With a single touched block, the flush reports its delta once, or nothing when nothing was touched. |
| `ShareDbClientProps.DeleteOnlyOpsAsWrittenSkipsAll` | src/sharedb-doc/sharedb-client.ts:95-99 | The delete loop as written skips every key, because each deleted key is in its own set. |
| `ShareDbClientProps.AsWrittenRemoved` | src/sharedb-doc/sharedb-client.ts:87-104 | As written, a key is removed only if it is also inserted. |
| `ShareDbClientProps.AsWrittenPairsMean` | src/sharedb-doc/sharedb-client.ts:87-104 | The pairs as written remove exactly the keys that are both deleted and inserted, and put exactly the truthy inserted values. |
| `ShareDbClientProps.UpdateBlockDataAsWrittenRoundTrip` | src/sharedb-doc/sharedb-client.ts:80-107 | The op as written: an empty delta gives no op. Otherwise parsing the op gives at most one delta call for the block, and none exactly when no key is both deleted and inserted and no inserted value is truthy. That call deletes exactly the keys both deleted and inserted, and inserts exactly the truthy inserted values. |
| `ShareDbClientProps.AsWrittenLosesDeletion` | src/sharedb-doc/sharedb-client.ts:80-107 | With `{insert: {}, delete: ['x']}`, the op as written holds no pairs and parses to no call, while the corrected op reports `x` deleted. |
| `ShareDbDoc.GetBlockData` | src/sharedb-doc/sharedb-doc.ts:84-90 | Returns the block when the container exists and the entry at that index is truthy. Otherwise the assertion fails. |
| `ShareDbDoc.ForwardMeans` | src/sharedb-doc/sharedb-doc.ts:133-163 | A handler call fails exactly when no callbacks are registered, or it creates or deletes `root`. Otherwise it reaches the matching callback if set, with the same container, index and origin, and with the delta converted by `toDocBlockDelta`. |
| `ShareDbDoc.DestroyedRefusesAll` | src/sharedb-doc/sharedb-doc.ts:165-168 | After `destroy`, the first handler call fails and nothing is forwarded. |
| `ShareDbDoc.ForwardAllComplete` | src/sharedb-doc/sharedb-doc.ts:133-163 | With every callback set and no root container edit, each call is forwarded exactly once, in order. |
| `ShareDbDoc.ForwardOne` | src/sharedb-doc/sharedb-doc.ts:133-163 | Forwarding one call either forwards it or stops with its error. |
| `ShareDbDoc.ShareDbDocument.Handle` | src/sharedb-doc/sharedb-doc.ts:133-163 | One handler method: it forwards the call or fails, and changes nothing else. |
| `ShareDbDoc.ShareDbDocument.HandleOp` | src/sharedb-doc/sharedb-doc.ts:128-131 | The editor receives the parsed calls of the batch, up to the first failed callback assertion. The origin flag is the truthiness of `source`. |
| `ShareDbDoc.ShareDbDocument.HandleAll` | src/sharedb-doc/sharedb-doc.ts:128-131 | The loop forwards each parser call in turn, stopping at the first failure. |
| `ShareDbDoc.ShareDbDocument.RegisterCallbacks` | src/sharedb-doc/sharedb-doc.ts:71-73 | Stores the callbacks and changes nothing else. |
| `ShareDbDoc.ShareDbDocument.Destroy` | src/sharedb-doc/sharedb-doc.ts:165-168 | Drops the callbacks. |
| `ShareDbDoc.ShareDbDocument.LocalDeleteBlock` | src/sharedb-doc/sharedb-doc.ts:97-101 | Returns the old block data and submits the delete op. A missing block submits nothing. |
| `ShareDbDoc.ShareDbDocument.LocalUpdateBlockData` | src/sharedb-doc/sharedb-doc.ts:112-116 | Returns the old block data and submits the update op as the code builds it, unless the delta is empty. |
| `ShareDbDoc.ShareDbDocument.LocalInsertChildContainer` | src/sharedb-doc/sharedb-doc.ts:118-120 | Submits the container-creation op. |
| `ShareDbDoc.ShareDbDocument.LocalDeleteChildContainers` | src/sharedb-doc/sharedb-doc.ts:122-126 | Submits one container-deletion op per id, in order. |
| `ShareDbDoc.DeleteContainerOpsAt` | src/sharedb-doc/sharedb-doc.ts:122-126 | The j-th op submitted deletes the j-th container. |
| `ShareDbDoc.DeleteBlockEcho` | src/sharedb-doc/sharedb-doc.ts:97-101 | The echo of a local block deletion reaches a fully registered editor as one local `onDeleteBlock`. |
| `ShareDbDoc.UpdateBlockDataEcho` | src/sharedb-doc/sharedb-doc.ts:112-116 | The echo of a local attribute update reaches such an editor as at most one local `onUpdateBlockData`. It inserts exactly the truthy values, but deletes only the deleted keys that are also inserted. |
| `RemoteUsers.RemoteUsers.AddUser` | src/remote-users/remote-users.ts:54-59 | Sets the user by client id, and emits `change` with all users unless a batch add is running. |
| `RemoteUsers.RemoteUsers.AddUsers` | src/remote-users/remote-users.ts:47-52 | Adds every user, with the last one winning for a repeated id, and emits `change` exactly once. |
| `RemoteUsers.AddAllLookup` | src/remote-users/remote-users.ts:47-52 | After a batch add, each id maps to its last user in the batch, or keeps its old user if the batch does not name it. |
| `RemoteUsers.AddAllKeyed` | src/remote-users/remote-users.ts:47-59 | Every user stays stored under its own client id. |
| `RemoteUsers.RemoteUsers.RemoveUser` | src/remote-users/remote-users.ts:61-65 | Removes the user and its cursor, and emits `change`. |
| `RemoteUsers.AddAllFresh` | src/remote-users/remote-users.ts:47-59 | Users with distinct ids, added to an empty roster, are kept in the order added, each under its own id. |
| `RemoteUsers.WithoutIds` | src/remote-users/remote-users.ts:61-65 | Leaving out one id's users leaves out exactly that id from the roster's key order. |
| `RemoteUsers.RemoveAfterAddAll` | src/remote-users/remote-users.ts:47-65 | Removing one client after a batch add of users with distinct ids leaves every other user, in the order added. |
| `RemoteUsers.RemoteUsers.SetCursor` | src/remote-users/remote-users.ts:29-45 | Adds the user, stores the cursor, and emits the changed blocks given by `CursorChanges`. |
| `RemoteUsers.RemoteUsers.ChangedBlocks` | src/remote-users/remote-users.ts:33-43 | The loop over the old blocks gives exactly `CursorChanges`. |
| `RemoteUsers.CursorChangesMeans` | src/remote-users/remote-users.ts:33-44 | The blocks reported have no repeats, start with the new cursor's blocks, and are exactly the blocks of the new cursor and of the old one. |
| `RemoteUsers.MissingMeans` | src/remote-users/remote-users.ts:37-42 | The old blocks added are exactly those the new cursor does not touch. |
| `RemoteUsers.Blocks` | src/remote-users/remote-users.ts:33 | A cursor's blocks are its start and end blocks, with no repeat. |
| `RemoteUsers.RemoteUsers.GetCursors` | src/remote-users/remote-users.ts:84-89 | Returns exactly the stored cursors that start or end in the block. |
| `RemoteUsers.Touching` | src/remote-users/remote-users.ts:84-89 | Keeps exactly the cursors that start or end in the block. |
| `RemoteUsers.Carets` | src/remote-users/remote-users.ts:69-71 | Keeps exactly the simple, collapsed cursors that start in the block. |
| `RemoteUsers.RemoteUsers.GetSimpleCursors` | src/remote-users/remote-users.ts:67-82 | The loop groups those carets by offset, as `GroupByOffset`. |
| `RemoteUsers.GroupByOffsetExact` | src/remote-users/remote-users.ts:72-80 | An offset is present exactly when some caret sits there, and its group is those carets in order. |
| `RemoteUsers.AtOffset` | src/remote-users/remote-users.ts:72-80 | Every caret in the group sits at that offset. |
| `RemoteUsers.RemoteUsers.OnUpdateBlockText` | src/remote-users/remote-users.ts:91-111 | No text leaves the cursors alone. Otherwise the cursors become `MoveCursors` of the old ones, and nothing else changes. |
| `RemoteUsers.RemoteUsers.MoveEach` | src/remote-users/remote-users.ts:98-110 | The loop over the cursors gives exactly `MoveCursors`. |
| `RemoteUsers.MoveCursorsMeans` | src/remote-users/remote-users.ts:99-110 | For a simple range, each end in the block moves through the transform. Everything else about the cursor is kept, and the same cursors stay registered. |
| `RemoteUsers.MoveCursorsKeyed` | src/remote-users/remote-users.ts:99-110 | Every cursor stays stored under its own client id. |
| `RemoteUsers.MovedAreReturned` | src/remote-users/remote-users.ts:98-100 | Only cursors that touch the block and have a simple range can move. |
| `RemoteCursorDecorator.Clamp` | src/remote-cursor-decorator/remote-cursor-decorator.ts:27-30 | An offset past the text length becomes the length. Any other offset is kept. |
| `RemoteCursorDecorator.ToInsertions` | src/remote-cursor-decorator/remote-cursor-decorator.ts:31-45 | One insertion per caret, in order. Each has its own fresh id, the `remote-cursor` type, and the user's name, time and colour index. |
| `RemoteCursorDecorator.DecorateText` | src/remote-cursor-decorator/remote-cursor-decorator.ts:26-52 | The loop gives exactly `Decorate` of the offset groups, in map order. |
| `RemoteCursorDecorator.DecorateWithinText` | src/remote-cursor-decorator/remote-cursor-decorator.ts:27-30 | Every insertion offset is within the text. |
| `RemoteCursorDecorator.DecorateExact` | src/remote-cursor-decorator/remote-cursor-decorator.ts:46-51 | An offset is present exactly when some group lands there after clamping. Its insertions are those groups' insertions, appended in order. |
| `RemoteCursorDecorator.DecorateCount` | src/remote-cursor-decorator/remote-cursor-decorator.ts:26-52 | The insertions number exactly the carets of all groups. |
| `RemoteCursorDecorator.DrawsEveryCaret` | src/remote-cursor-decorator/remote-cursor-decorator.ts:21-52 | Grouping carets by offset and decorating produces exactly one insertion per caret. |
| `RemoteCursorDecorator.CountPlace` | src/remote-cursor-decorator/remote-cursor-decorator.ts:46-51 | Appending to an existing offset or setting a new one adds exactly the new insertions. |

## Left out

- The network and ShareDB itself are not modelled. That covers the socket, `submitOp`, the document subscription and the `load` wiring in `sharedb-doc.ts` and `sharedb-client.ts`. A submitted op is recorded in `ShareDbDocument.submitted`, and an op batch is an input of `HandleOp`.
- `ShareDbDoc.ShareDbDocument.Destroy`: only the clearing of the callbacks is modelled. The `this.client.destroy()` call that comes first (sharedb-doc.ts:166) is client teardown on the network side. The `ShareDBDocClient` in `sharedb-client.ts` defines no `destroy` method, so the model does not say what that call does, nor that it might throw before the callbacks are cleared.
- `localInsertBlock` and `localUpdateBlockText` are left out. Both read the block back after ShareDB has applied the op locally, and that apply is not part of this model.
- `InternalParser` holds its block index and pending deltas as values (`Ids`, `JsMap<Id, DeltaValue>`), not as `ContainerBlockIds` and `OpBlockDataDelta` objects. The classes `ContainerBlockIds` and `OpBlockDataDelta` are proved against the same functions (`InsertIn`, `DeleteIn`, `GetBlockIdIn`, `DeltaValue.Insert/Delete/ToDoc`). Reasoning about the frames of objects owned by the parser is not captured.
- `genId` is modelled as a counter. Ids are numbers, never the empty string, so the falsy test in `getId` is a presence test. `BlockIds` methods take the fresh id as a parameter.
- The editor library functions `RichText.transformCursor`, `isSimpleRange`, `isCollapsedRange` and `getTextLength` are parameters or inputs. Their own behaviour is not part of this model.
- `DecorateText` takes the text length and the first id as inputs. The `assert` checks on the doc type and path in `decorateText` are left out. The active-cursor set built from `Date.now()` is left out, because `decorateText` computes it and never returns it.
- Event emitters are logs of the events emitted (`RemoteUsers.events`, the parser's handler log). Listener code is not modelled.
- Aliasing is not captured. `onUpdateBlockText` changes the cursor objects in place, and other holders of those objects would see the change. The insert-only path writes the attribute pairs into the op's own `data` object. `exists.push` extends an array already stored in the map. The model builds new values in each case.
- `MoveEach` walks the cursor map by its keys, where the code walks the result of `getCursors`. The two visit the same cursors, and each cursor is changed independently.
- The order of `Object.entries` and of `Object.keys` follows insertion order for every key. JavaScript lists integer-like keys first, in ascending order, and the model does not capture that.
- `console.debug` and `console.warn` calls, the logger, and the warning for `meta` ops are left out.
- `Unsupported` is an error kind that only the model uses. It covers two inputs that JavaScript would carry on with in an untyped way:
  - a block op whose first element is not a number, which JavaScript would pass on as a block index;
  - a batch entry that is a plain object, which JavaScript would index like an array.

  The model stops on these inputs. It does not follow them further.
- Numbers are integers. No block index, offset or time is fractional, and no floating-point behaviour is modelled.
- The `cloneDeep` calls in `parseOps` and `localUpdateBlockData` have no counterpart, because values are immutable here.
- `BlockIdIndex.BlockIds.GetById`: the ids are an unordered `map`, so `find`'s choice of the first matching entry in insertion order is not captured. When ids are distinct, as `ContainerBlockIds` keeps them, there is only one matching entry.
- `OpParserShapes.RemovalsLastFirst`: the statement is about two block ops in one path. The general reversal of any number of ops is `OpParserShapes.BlockOpsOrder`.

## Findings

| source | as written | input that shows it | evidently intended | confidence | as-written member | corrected member |
|---|---|---|---|---|---|---|
| src/sharedb-doc/sharedb-client.ts:95-99 | The delete loop skips every key found in `deletedKeysSet`. That set is built from `delta.delete` itself, so the loop never emits a removal. | `updateBlockData(c, i, {insert: {}, delete: ['x']})` submits `['blocks', c, i]` with no pairs, and key `x` is never removed. | Keys that are deleted but not inserted each get a `[key, {r: true}]` pair. | not executed | `ShareDbClientProps.AsWrittenLosesDeletion` | `ShareDbClientProps.UpdateBlockDataRoundTrip` |
