# Norman, modelled and verified in Dafny

Norman is a Go framework for Kubernetes-backed APIs. This project models its state machines and data
transformations and proves what they promise, for every input, every run and every interleaving:

- the reverse tunnel: its varint wire format, the two sessions that carry many byte streams over one
  connection, and the session directory that servers mirror to their peers (`Text`, `Wire`, `Tunnel`,
  `Session`, `Directory`);
- the schema-directed merge of stored objects with API updates, and the optimistic get, merge, put and
  retry loop around it (`Values`, `Definition`, `Merge`, `ProxyStore`);
- the finalizer and annotation protocol of object lifecycles, with stale caches and other writers
  (`Lifecycle`);
- the two-way mapper pipeline over nested data, stage by stage, as a pipeline, and along the tree of
  imported types (`Unordered`, `Moves`, `Slices`, `Pipeline`, `Import`, `TypeMapper`);
- the schema registry with its back-reference index and embedding, and the listing of all schemas that
  can be reached (`Registry`, `Listing`);
- desired sets of objects, the broadcaster, pagination and the protection of conditions against
  flapping (`ObjectSet`, `Broadcast`, `Query`, `Condition`).

How it is modelled:

- A concurrent protocol is a step relation: `Enabled` says when a step can be taken, `Next` what it
  does, and an invariant holds in every state that any sequence of steps can reach. Where the source
  updates fields or runs loops there is a class or a method besides, and its contract ties it to the
  functions of the step relation.
- Beside the laws over runs and round trips, each main operation has a theorem that says what it leaves
  behind in terms of its inputs alone: which messages went out, which value is stored where, which handler
  is called.
- Ranging over a Go map is a free choice of order, made anew each time: a loop picks any element that is
  left, the order is a parameter, or a relation says which results there can be.
- Clocks, randomness, connection failures, other clients of the API server and handler results are
  parameters or steps of their own.
- The API server is a map of versioned objects that refuses a write carrying an old version, keeps an
  object with finalizers when it is deleted, and drops it with its last finalizer.
- Integers are unbounded; where 64 bits matter the bound is written out.

Where the code does less than one might expect, the code is modelled and the exact condition is proved:

- The finalizer removal writes back the copy that a Finalize handler changed, if the handler returned
  nil (`Lifecycle.RemovalIsExact`, with a run in `Lifecycle.EditedCopyIsCommitted`). A removal that
  fetches by name again takes the finalizer of whatever object has the name by then, so the lifecycle
  theorems assume that names are not reused; `Lifecycle.ReuseLosesAFinalizer` is a run where they fail
  otherwise.
- A reference field that gives a full path is indexed under a key that a lookup never asks for
  (`Registry.ReferencesFound`).
- A field declared as a plain map loses stored keys that an update leaves out, even without replace
  (`Merge.PlainMapLosesKeys`, `Merge.PathSurvives`).
- A Move, a BatchMove, an Embed or a SliceToMap can be undone only on some data; each has its exact
  condition. Lists that went through a map come back in any order, so what ToInternal makes is a relation
  (`Pipeline.To`, `TypeMapper.ToObject`) and the pipeline is undone up to the order of lists.
- The label of a set is put on before the injectors run; the set owns exactly what has it in the end
  (`ObjectSet.OwnsTheMarked`), and an object that lost it is never deleted again
  (`ObjectSet.UnlabelledIsLeftBehind`).
- An unclamped page limit makes the page end wrap around and the slice panic, exactly beyond int64
  (`Query.Pagination.Apply`).
- A condition can change on every call if conflicts, or errors that say not to retry, are put on unrelated
  conditions (`Condition.ForeignTextsFlap`); `Condition.TwoChangesExactly` says when it changes at most
  twice.
- Pages cover a list exactly when each row that begins a page has an ID no earlier row has; a limit of
  zero shows nothing (`Query.PagesCoverTheList`, `Query.ZeroShowsNothing`).

## Model

| member | source | states |
|---|---|---|
| `Wire.ReadVarintUndoes` | pkg/remotedialer/message.go:103-158 | every int64 survives the signed varint codec, and exactly its bytes are consumed |
| `Wire.UvarintIsBase128` | pkg/remotedialer/message.go:182-192 | a varint is its number in base 128, lowest digit first, with the high bit on all bytes but the last and no empty last byte |
| `Wire.ZigzagCounts` | pkg/remotedialer/message.go:182-192 | signed numbers are counted 0, -1, 1, -2, 2 and so on |
| `Wire.BytesOnTheWire` | pkg/remotedialer/message.go:53-101 | all five kinds of message, for small numbers byte by byte: ID, connection, kind, deadline where there is one, payload |
| `Wire.MillisCutsOff` | pkg/remotedialer/message.go:63-73 | a deadline is sent in whole milliseconds, cut off toward zero |
| `Wire.DecodeUndoesHeader` | pkg/remotedialer/message.go:103-158 | id, connection ID, type and deadline of a message survive for every int64, whatever payload follows |
| `Wire.DataRoundTrip` | pkg/remotedialer/message.go:53-61 | a data message arrives with all its fields and bytes |
| `Wire.ConnectRoundTrip` | pkg/remotedialer/message.go:63-73 | a dial request arrives as sent if and only if the protocol has no slash and the text is at most 100 bytes |
| `Wire.AddClientRoundTrip` | pkg/remotedialer/message.go:85-92 | an AddClient message arrives as sent if and only if the client text is at most 100 bytes |
| `Wire.RemoveClientRoundTrip` | pkg/remotedialer/message.go:94-101 | the same for RemoveClient |
| `Wire.ErrorRoundTrip` | pkg/remotedialer/message.go:75-83 | an error message always arrives; its error is the one sent if and only if its text is at most 100 bytes and it is not another error that reads EOF |
| `Wire.PeerProtoRoundTrip` | pkg/remotedialer/peer.go:100-106 | the peer route splits back if and only if the client key has no double colon and does not end in a colon |
| `Wire.PeerDialRoundTrip` | pkg/remotedialer/session_manager.go:33-40 | end to end, a dial through a peer reaches the requested client, protocol and address |
| `Wire.PutVarint` | pkg/remotedialer/message.go:182-192 | the byte loop writes exactly the varint at the offset, or runs out of the buffer exactly when it does not fit |
| `Wire.Header` | pkg/remotedialer/message.go:182-192 | filling the 24-byte buffer by offsets gives the encoded header, or an overrun exactly when it is longer |
| `Wire.HeaderFits` | pkg/remotedialer/message.go:182-192 | no overrun for any int64 id, any deadline from int64 nanoseconds and any connection ID in [-2^41, 2^41) |
| `Wire.HeaderBoundIsExact` | pkg/remotedialer/message.go:182-192 | a connection ID is safe for all ids and deadlines if and only if it is in that range |
| `Tunnel.CloseKeeps` | pkg/remotedialer/connection.go:44-58 | closing sets the error, if there is none, and closes the buffer; nothing else changes and no accepted byte is lost |
| `Tunnel.WriteKeeps` | pkg/remotedialer/connection.go:164-188 | a chunk write succeeds exactly on an open connection without a timeout, and appends the chunk; otherwise nothing at all changes |
| `Tunnel.ReadKeeps` | pkg/remotedialer/connection.go:75-99 | reading moves bytes from the buffers to the reader without losing or reordering any, and moves on while there are any |
| `Tunnel.StepKeeps` | pkg/remotedialer/session.go:123-172 | every step of either side, of the transport and of the applications keeps the invariant of both streams and of the dial handshake |
| `Tunnel.TunnelSafety` | pkg/remotedialer/session.go:123-172 | in every interleaving what Read returned on one end is a prefix of what Write sent on the other end of the same connection, and no closed buffer is sent on or closed again |
| `Tunnel.NothingIsLost` | pkg/remotedialer/connection.go:101-114 | while a connection is open and its transport whole, every byte sent is read, buffered or under way |
| `Tunnel.ConnectionsAreNeverReplaced` | pkg/remotedialer/session.go:249-267 | no step replaces a connection or takes anything back from it, and a dial takes an ID that neither end knows |
| `Tunnel.DialArrives` | pkg/remotedialer/session.go:236-267 | from any state in which the client waits, an accepted dial gives both ends a fresh open connection |
| `Tunnel.WriteArrives` | pkg/remotedialer/connection.go:101-114 | from any state in which one side waits, a Write on the other arrives whole behind what was there |
| `Tunnel.ErrorEndsTheConnection` | pkg/remotedialer/session.go:151-172 | in every run, after an Error for a live connection was delivered and the loop is idle again, the connection is out of the map for good; if nobody else closes it, it is closed with the error it had or else the one delivered |
| `Tunnel.DeliveryLowers` | pkg/remotedialer/session.go:222-234 | every delivery and every section of a message loop lowers a potential of live connections and messages in flight |
| `Tunnel.DeliveryTerminates` | pkg/remotedialer/session.go:151-171 | once applications stop, at most that many steps remain, so the ends cannot exchange errors forever |
| `Tunnel.DeliveryProgress` | pkg/remotedialer/session.go:123-172 | and before that they never get stuck |
| `Session.Connection.DoTunnelClose` | pkg/remotedialer/connection.go:44-58 | the first error stays, the buffer is closed once |
| `Session.Connection.ChanWrite` | pkg/remotedialer/connection.go:164-188 | at the end of its wait the chunk write of the step relation: refused on a closed connection or a timeout, else the chunk is appended |
| `Session.Connection.CopyData` | pkg/remotedialer/connection.go:69-73 | the front of the read buffer goes into the caller's array and nothing else is touched |
| `Session.Connection.Read` | pkg/remotedialer/connection.go:75-99 | the read of the step relation; an error exactly when nothing is buffered, and the bytes returned extend what was read |
| `Session.Connection.ReadMeanwhile` | pkg/remotedialer/connection.go:75-99 | the calls of Read that come back while a chunk waits, one after another, are reads of the step relation |
| `Session.CloseIsSteps` | pkg/remotedialer/session.go:222-234 | closeConnection is a sequence of sections of the step relation |
| `Session.CloseIsActs` | pkg/remotedialer/session.go:222-234 | the same by another goroutine is a sequence of its acts |
| `Session.CloseShuts` | pkg/remotedialer/session.go:222-234 | what that means: out of the map, one Error message to the other side, the buffer closed with the first error, what is buffered still readable, every other connection as it was |
| `Session.CopyIsSteps` | pkg/remotedialer/session.go:151-171 | copying a payload into a connection, chunk by chunk until it fails, is such a sequence, while the reader of the connection reads as it likes and so makes room or not |
| `Session.CopyTakes` | pkg/remotedialer/session.go:151-171 | what that means: an open connection takes the whole payload, or a first part of it and is shut, with its own error or as backed up |
| `Session.ServeIsSteps` | pkg/remotedialer/session.go:123-172 | serving one message is one delivery and such a sequence, ending idle |
| `Session.ReadsToTheEnd` | pkg/remotedialer/connection.go:75-99 | a closed connection hands out all that was accepted, and after that only its error |
| `Session.Session.ServerConnect` | pkg/remotedialer/session.go:249-267 | a dial takes the next ID, registers a fresh connection and announces it with one Connect message; when the announcement fails the connection is closed again and none is returned |
| `Session.Session.CloseConnection` | pkg/remotedialer/session.go:222-234 | the connection leaves the table, the other side is told, the buffer is closed |
| `Session.Session.CopyInto` | pkg/remotedialer/session.go:151-171 | the copy loop has exactly the effect that CopyIsSteps breaks into steps, whatever is read while each chunk waits |
| `Session.Session.ServeMessage` | pkg/remotedialer/session.go:123-172 | the whole message dispatch: an Error shuts its connection, Data is taken by its connection or answered with an Error, an authorized Connect registers a fresh one; it fails only for a dial that is not authorized; and it has exactly the effect that ServeIsSteps breaks into steps |
| `Session.Session.TunnelClose` | pkg/remotedialer/connection.go:39-42 | the other side is told, then the connection is closed, in the table or not |
| `Session.Session.Close` | pkg/remotedialer/session.go:276-287 | every connection is closed and told with one Error message, in any order, and the table is empty |
| `Session.ClosedAllAt` | pkg/remotedialer/session.go:276-287 | closing them in any order closes exactly the listed ones |
| `Directory.AddressRoundTrip` | pkg/remotedialer/session.go:174-181 | a session address survives the wire if and only if its client key has no slash and it is at most 100 bytes |
| `Directory.DecimalDigits` | pkg/remotedialer/session.go:289-303 | session keys are written in decimal digits, highest first |
| `Directory.NotificationArrives` | pkg/remotedialer/session.go:183-220 | a notification encoded by one server and decoded by the other changes its table as the fold does |
| `Directory.LiveFollows` | pkg/remotedialer/session_manager.go:91-137 | adding or removing a session changes the live pairs exactly as its notification changes a table |
| `Directory.BurstMirrors` | pkg/remotedialer/session_manager.go:49-66 | the burst for a new listener, in any order, folds to the live pairs |
| `Directory.ListenerMirrors` | pkg/remotedialer/session_manager.go:49-137 | at every point of every run, what a listener was told folds to exactly the live pairs, with no empty entry |
| `Directory.PeerHoldsASnapshot` | pkg/remotedialer/session.go:183-220 | after any prefix of its notifications a peer holds the directory as it was after some prefix of the run |
| `Directory.PartOfBurst` | pkg/remotedialer/session_manager.go:49-66 | inside the burst it holds part of the directory and nothing else |
| `Directory.PeerRoutesLikeTheSnapshot` | pkg/remotedialer/session_manager.go:68-89 | it routes to a key if and only if that snapshot had a session for it |
| `Directory.PeerBuildsASnapshot` | pkg/remotedialer/session.go:183-220 | the table a peer builds by decoding any prefix of the messages written to it is the directory after some prefix of the run, when every note can be sent |
| `Directory.SessionManager.Add` | pkg/remotedialer/session_manager.go:91-109 | the session is the last of its key among the clients or the peers, nothing else is stored, and every listener is told once |
| `Directory.SessionManager.Filter` | pkg/remotedialer/session_manager.go:111-137 | the filter loop drops exactly the session, and the key with its last one |
| `Directory.SessionManager.Remove` | pkg/remotedialer/session_manager.go:111-137 | it is in neither map any more, the others of its key are, a key without sessions is gone, and every listener is told once |
| `Directory.SessionManager.Replay` | pkg/remotedialer/session_manager.go:49-66 | the nested loops emit the burst |
| `Directory.SessionManager.AddListener` | pkg/remotedialer/session_manager.go:49-66 | the listener is registered and told of exactly the sessions there are, of clients and peers |
| `Directory.SessionManager.GetDialer` | pkg/remotedialer/session_manager.go:68-89 | an own session first; else a peer that knows the key; not found only if no peer knows it |
| `Values.FindValue` | types/values/values.go:74-84 | the walk along a path finds what the recursive definition says |
| `Merge.MergeWithItself` | types/convert/merge/merge.go:80-92 | merging a map with itself is the identity at every depth |
| `Merge.MergeTwice` | types/convert/merge/merge.go:128-134 | applying the same merge twice is applying it once, at every depth |
| `Merge.UpdateTwice` | types/convert/merge/merge.go:11-20 | an API update applied twice is the update applied once, if and only if the stored object has metadata or the update brings none or metadata in full form |
| `Merge.PathSurvives` | types/convert/merge/merge.go:80-134 | without replace a stored path survives the recursive merge if and only if the update does not overwrite it as a whole |
| `Merge.PathSurvivesUpdate` | types/convert/merge/merge.go:11-20 | without replace a stored path survives an API update if and only if it is status, metadata other than a label or annotation that may be dropped, or not overwritten |
| `Merge.ValueArrives` | types/convert/merge/merge.go:80-92 | every value of the update that is not a map is in the result, at any depth, whatever is stored and whatever the schemas say |
| `Merge.MapArrives` | types/convert/merge/merge.go:80-92 | so is a map, as it is, where no map is stored |
| `Merge.ValueStays` | types/convert/merge/merge.go:128-156 | a stored value that the update does not mention, overwrite or drop keeps its value |
| `Merge.UpdateArrives` | types/convert/merge/merge.go:11-20 | the three for an API update, outside status and metadata |
| `Merge.LabelsAfter` | types/convert/merge/merge.go:37-78 | unprotected labels and annotations of the update arrive with their values; the others are as stored, or gone if they may be dropped |
| `Merge.RestAsStored` | types/convert/merge/merge.go:11-20 | status and the rest of the metadata are as stored |
| `Merge.ProtectedKeys` | types/convert/merge/merge.go:26-35 | which keys are protected, for any text around cattle.io/ |
| `Merge.ReplacedInField` | types/convert/merge/merge.go:94-112 | inside a field of a registered type, replacing drops exactly what that type, of the version of its schema, calls updatable |
| `Merge.ReplacedInEntry` | types/convert/merge/merge.go:94-112 | the same inside an entry of a map of a registered type |
| `Merge.StoredKeys` | types/convert/merge/merge.go:136-156 | of the stored top-level keys exactly the updatable ones that are left out are dropped, and only when replacing |
| `Merge.UpdatesGuard` | types/convert/merge/merge.go:26-78 | over any sequence of API updates status, metadata outside labels and annotations and protected entries never change, and field entries are never removed |
| `Merge.PlainMapLosesKeys` | types/convert/merge/merge.go:114-126 | an input on which a plain map field loses a stored key without replace |
| `Merge.CopyMapReplace` | types/convert/merge/merge.go:144-156 | the copy loop keeps exactly the entries that replacing does not drop |
| `Merge.MergeMapsInto` | types/convert/merge/merge.go:128-134 | the mutually recursive loops compute the merge, in any order of the entries |
| `Merge.MergeProtectedInto` | types/convert/merge/merge.go:37-61 | the overlay loop and the pruning loop compute the protected merge |
| `ProxyStore.SplitIDUndoesJoin` | store/proxy/proxy_store.go:501-510 | an ID splits back if and only if the namespace has no colon |
| `ProxyStore.SameVersionSameObject` | store/proxy/proxy_store.go:408-453 | whatever others do in between, an entry that still has the version read is the entry read |
| `ProxyStore.ReplacementCarriesVersion` | store/proxy/proxy_store.go:408-453 | what is sent carries the version read and the forced name and namespace |
| `ProxyStore.ReplacementWrites` | store/proxy/proxy_store.go:431-437 | what is stored is the merge of the entry read with the request, with the forced metadata, and has every value of the request that is not a map, outside status and metadata |
| `ProxyStore.Attempt` | store/proxy/proxy_store.go:408-453 | one round either writes the merge of exactly the entry it replaces, or writes nothing; it goes round again only after a conflict, and succeeds if undisturbed |
| `ProxyStore.Update` | store/proxy/proxy_store.go:408-453 | under arbitrary concurrent writers and faults at most one write is made; it puts the merge of exactly the entry it replaces with the request in its place, with every value of the request in it, and touches nothing else; ending in a conflict means nothing was written; undisturbed it succeeds at once |
| `Lifecycle.SaveKeeps` | lifecycle/object.go:249-267 | storing any state that does not take the finalizer of an unfinalized object keeps the protocol's invariant |
| `Lifecycle.WriteKeeps` | lifecycle/object.go:73-85 | every write of a worker, from a cached object however stale, keeps it |
| `Lifecycle.CallKeeps` | lifecycle/object.go:173-188 | every handler call keeps it, whichever state of the object the handler goes on from, whatever it returns and leaves in its copy |
| `Lifecycle.StepKeeps` | lifecycle/object.go:48-71 | every step of any number of workers, other writers and deletions keeps it, also when objects are created with the finalizer or others add it |
| `Lifecycle.CreatedThenGoneWasFinalized` | lifecycle/object.go:198-226 | in every run, an object on which Create was invoked and which is gone had Finalize return without error |
| `Lifecycle.FinalizerHeld` | lifecycle/object.go:249-267 | until then the object is stored and carries the finalizer |
| `Lifecycle.WriteIsExact` | lifecycle/object.go:233-267 | in every run an accepted write stores the finalizer behind those there, the annotation, or the object the handler returned, and changes nothing else |
| `Lifecycle.OnlyCreatedIsMarked` | lifecycle/object.go:198-226 | in every run an object is marked as created only after Create returned without error for it |
| `Lifecycle.NewObjectIsCreated` | lifecycle/object.go:198-226 | left alone, a sync of a new object puts the finalizer on it, calls Create and marks it |
| `Lifecycle.CreatedObjectIsUpdated` | lifecycle/object.go:48-71 | left alone, a sync of a marked object calls Updated and stores what it returns |
| `Lifecycle.DeletedObjectIsFinalized` | lifecycle/object.go:87-113 | left alone, a sync of a deleted object that carries the finalizer calls Finalize and removes it; the object is gone with its last one |
| `Lifecycle.InitializedIsUpdated` | lifecycle/object.go:48-71 | in every run a worker that takes a marked object, not being deleted, calls Updated and never Create or Finalize |
| `Lifecycle.RemovalIsExact` | lifecycle/object.go:122-150 | a removal that reaches the store, on any try, stores the current state minus its own key and is preceded by Finalize; only a first try after a handler that returned nil and changed its copy stores that copy instead |
| `Lifecycle.EditedCopyIsCommitted` | lifecycle/object.go:173-188 | a run in which that happens: the object is gone though another finalizer was stored |
| `Lifecycle.StripLoop` | lifecycle/object.go:122-137 | the filter loop drops exactly the key |
| `Lifecycle.RemoveFinalizerLoop` | lifecycle/object.go:122-150 | the loop of three tries walks the path of a worker of the step relation, whatever happens at the server in between; it says success only for a removal that was stored, at the first reply that says so, and goes on after one whose reply was lost |
| `Lifecycle.ReuseLosesAFinalizer` | lifecycle/object.go:143-146 | with names reused there is a run in which Create was invoked on an object that is gone and for which Finalize never returned |
| `Moves.PutBack` | types/values/values.go:5-16 | putting a removed value back restores the data |
| `Moves.PutThenRemove` | types/values/values.go:86-111 | putting and removing at a free path changes nothing if and only if the parent was there |
| `Moves.MoveRoundTrip` | types/mapper/move.go:20-31 | a Move there and back gives the data again if and only if it is reversible, for all paths, nested, equal or one inside the other |
| `Moves.MoveLeavesOnlyParents` | types/mapper/move.go:20-31 | with a free destination all that is left behind is the empty parents that had to be made |
| `Moves.MoveElsewhere` | types/mapper/move.go:20-31 | a Move leaves every path alone that is apart from both of its own |
| `Moves.MoveArrives` | types/mapper/move.go:20-31 | the value leaves its place and is found at the destination |
| `Moves.BatchRoundTrip` | types/mapper/batchmove.go:17-29 | a BatchMove of any nested paths that do not touch, there and back, gives the data again if and only if each of its moves would |
| `Moves.BatchArrives` | types/mapper/batchmove.go:17-21 | each value of a batch leaves its place and is found at its destination |
| `Moves.BatchLeavesOnlyParents` | types/mapper/batchmove.go:17-29 | with free destinations all that is left behind is exactly the empty parents of the destinations of the fields that moved |
| `Moves.BatchIsApart` | types/mapper/batchmove.go:31-40 | fields of several segments that touch neither each other nor the base make moves that do not touch |
| `Slices.ItemsComeBack` | types/mapper/slice_to_map.go:15-51 | items with names of their own all come back, whatever the iteration order |
| `Slices.OnlyNamedComeBack` | types/mapper/slice_to_map.go:15-51 | a list that comes back had named, distinct items only |
| `Slices.AnyOrder` | types/mapper/slice_to_map.go:32-51 | the order in which the map is met decides the order of the list and nothing else |
| `Slices.SliceRoundTrip` | types/mapper/slice_to_map.go:15-51 | SliceToMap there and back gives the data again up to the order of the list, if and only if the field is not a map and its items are all named or none is a map |
| `Pipeline.EmbedRoundTrip` | types/mapper/embed.go:19-50 | Embed there and back gives the data again if and only if no embedded name is taken and the field is exactly its embedded part, or the empty value |
| `Pipeline.MovesUp` | types/mapper/move.go:20-25 | a Move stage moves its value |
| `Pipeline.MovesDown` | types/mapper/move.go:26-31 | and back |
| `Pipeline.BatchesUp` | types/mapper/batchmove.go:17-21 | a BatchMove stage moves each of its values |
| `Pipeline.EmbedsUp` | types/mapper/embed.go:19-27 | an Embed stage puts the embedded entries up, drops the field and leaves the rest |
| `Pipeline.EmbedsDown` | types/mapper/embed.go:29-50 | and back: they are in the field, only they, and nowhere else; without any it is nil or left as it is |
| `Pipeline.SlicesUp` | types/mapper/slice_to_map.go:15-30 | a SliceToMap stage puts each named item under its name, without it |
| `Pipeline.SlicesDown` | types/mapper/slice_to_map.go:32-51 | and back: the items are the entries that are maps, each once and with its name |
| `Pipeline.FromInTurn` | types/mapper.go:19-23 | a pipeline is its stages one after the other |
| `Pipeline.ToInTurn` | types/mapper.go:25-31 | and back, the last ones first |
| `Pipeline.StageRoundTrip` | types/mapper.go:19-31 | each kind of stage can be undone under its own condition, up to the order of lists, also when lists were rearranged in between |
| `Pipeline.SameTo` | types/mapper.go:25-31 | whatever orders the maps are met in, data that agree up to the order of lists, at every depth, still do after ToInternal |
| `Unordered.SameTrans` | types/mapper/slice_to_map.go:32-51 | agreeing up to the order of lists at every depth is transitive |
| `Unordered.Rearranged` | types/mapper/slice_to_map.go:32-51 | lists with the same items, counted, are rearrangements of each other |
| `Pipeline.PipelineRoundTrip` | types/mapper.go:19-31 | a pipeline run backwards undoes it up to the order of lists at every depth, in whatever order Go ranges over each map, when each stage can be undone on the data that reaches it |
| `Pipeline.IdleToAll` | types/mapper.go:25-31 | a key that no stage touches passes through the pipeline |
| `Pipeline.EmbedUp` | types/mapper/embed.go:19-27 | the loop over the embedded fields, updating the data in place, computes FromInternal |
| `Pipeline.EmbedDown` | types/mapper/embed.go:29-50 | the loop that collects and deletes them computes ToInternal |
| `Pipeline.SliceUp` | types/mapper/slice_to_map.go:15-30 | the loop over the items builds the map |
| `Pipeline.SliceDown` | types/mapper/slice_to_map.go:32-51 | the loop over the map, in an order of its own each time, builds the list in the order it meets the entries |
| `Pipeline.BatchDown` | types/mapper/batchmove.go:17-21 | the moves in order |
| `Pipeline.BatchUp` | types/mapper/batchmove.go:23-29 | the moves backwards |
| `Pipeline.FromInternal` | types/mapper.go:19-23 | the stages in order, nothing for nil data |
| `Pipeline.ToInternal` | types/mapper.go:25-31 | the stages from the last to the first, nothing for nil data |
| `Listing.Peel` | store/schema/schema_store.go:101-113 | the peeled type cannot be peeled further |
| `Listing.PeelLoop` | store/schema/schema_store.go:103-108 | the peeling loop ends, by the length of the type, with the peeled type |
| `Listing.PeelUnwraps` | store/schema/schema_store.go:101-113 | however often a type is wrapped, it is found inside |
| `Listing.ListedBrings` | store/schema/schema_store.go:101-140 | what is listed brings with it the schemas of its fields, however wrapped, and of the inputs and outputs of its actions |
| `Listing.StaysInside` | store/schema/schema_store.go:101-140 | nothing outside a closed set of schemas can be reached from inside |
| `Listing.AllListed` | store/schema/schema_store.go:69-92 | a closed visited set that has the visible schemas lists exactly what they reach |
| `Listing.Lister.AddSchema` | store/schema/schema_store.go:94-140 | visiting a schema lists it and everything it leads to that was not visited, each once, and closes the visited set over them; it ends by the number of schemas not yet visited |
| `Listing.Lister.List` | store/schema/schema_store.go:69-92 | for every schema graph, cyclic or not, and every order of the maps the listing has each schema reachable from a listable or gettable one exactly once, and no other |
| `Registry.DropKeeps` | types/schemas.go:78-106 | removing a schema and its references keeps the index equal to the reference fields of the registered schemas |
| `Registry.PutKeeps` | types/schemas.go:207-223 | so does adding one whose ID was free |
| `Registry.ReferencesFound` | types/schemas.go:249-254 | a lookup finds exactly the reference fields of registered schemas of the same version that name the schema by its bare ID |
| `Registry.UnembedUndoes` | types/schemas.go:161-180 | removing an embed schema restores the target's fields if and only if it had no dynamic field and shares no name with it |
| `Registry.EmbedReplaces` | types/schemas.go:182-205 | exactly when a later embed schema leaves nothing of an earlier one behind |
| `Registry.TargetAfter` | types/schemas.go:161-205 | what became of an embed target, field by field; nothing else changed |
| `Registry.WhereUndoes` | types/schemas.go:313-331 | a name with a path is looked up there from any version, exactly if "/schemas/" does not start in the path already |
| `Registry.WhereBare` | types/schemas.go:313-331 | any other name is looked up in the version that asks |
| `Registry.LookupFinds` | types/schemas.go:313-351 | a schema is found by its ID, and by its ID or plural in any case unless another is; what is found has the name |
| `Registry.WithoutLoop` | types/schemas.go:90-106 | the filter loop drops exactly the references of one schema |
| `Registry.Schemas.RemoveReferences` | types/schemas.go:90-106 | under every key exactly the schema's references go |
| `Registry.Schemas.AddReferences` | types/schemas.go:207-223 | under every key exactly the schema's reference fields are appended, once each |
| `Registry.Schemas.DoSchema` | types/schemas.go:313-351 | the exact ID wins, else any schema that matches without regard to case, else none |
| `Registry.Schemas.DoRemoveSchema` | types/schemas.go:78-88 | index, keys and versions stay consistent; an embed schema's fields leave its target |
| `Registry.Schemas.DoAddSchema` | types/schemas.go:120-159 | index, keys and versions stay consistent, versions lists each path once; a registered ID stays; an embed schema's fields go to its target |
| `Registry.Schemas.Retarget` | types/schemas.go:161-205 | the removal and re-registration of an embed target replaces exactly that schema |
| `Import.Importer.DetermineType` | types/reflection.go:449-507 | the walk over a type, importing the structs on the way, ends; the name it gives is built from the ID under which the struct inside is known; without unsupported kinds it succeeds |
| `Import.Importer.NewSchema` | types/reflection.go:75-94 | a type counts as being processed while its fields are read and no longer, also when that fails |
| `Import.SortedTables` | types/mapper.go:150-178 | sorted tables point to registered schemas only, and no field is in two of them |
| `Import.SortOfKind` | types/mapper.go:150-178 | a list of structs goes to the arrays, a map of them to the maps, a struct to the sub-objects |
| `Import.Importer.FindSubs` | types/mapper.go:150-178 | a field stands in the table of its sort, with a schema that its type names, exactly when such a schema is registered by now |
| `Import.Importer.ImportType` | types/reflection.go:146-205 | for every type graph, mutually recursive ones too, the import ends; every entry has the name, plural, stages and fields of its type, and tables for exactly those fields whose schemas were registered before it; registration only appends, IDs stay distinct, what registered types mention is found or being built, and the ID returned is the type's own; without unsupported kinds it succeeds |
| `Import.WholeClosureRegistered` | types/reflection.go:146-205 | after an import without errors, with types that cannot be taken for each other, every type reachable from a registered one is registered |
| `TypeMapper.RootIdSplitsBack` | types/mapper.go:92-112 | the ID given to a root object is split by the store into its namespace and name again if and only if the part before the name has no colon |
| `TypeMapper.OwnIdSplitsBack` | types/mapper.go:92-112 | an ID the object has already gets the namespace in front, and is split so again |
| `TypeMapper.TypesAreNamed` | types/mapper.go:51-113 | at every level of sub-objects, lists and maps an object that came without a type gets one that, looked up from any version, is the schema it was mapped by; fields that no stage touches and no table knows are as they were |
| `TypeMapper.StagesAreRun` | types/mapper.go:80-89 | of a type without sub-objects, everything but ID and type of an object that has a type is what its stages make of it |
| `TypeMapper.StagesAreUndone` | types/mapper.go:115-117 | and ToInternal is its stages backwards |
| `TypeMapper.FromObjectStable` | types/mapper.go:51-113 | later registrations do not change what FromInternal makes of an object of a registered type |
| `TypeMapper.ToObjectStable` | types/mapper.go:115-148 | later registrations do not change what ToInternal may make of an object of a registered type |
| `TypeMapper.SameToObject` | types/mapper.go:115-148 | any two results of the recursive ToInternal, each map on the way met in any order, agree up to the order of lists if the data did |
| `TypeMapper.TypeRoundTrip` | types/mapper.go:51-148 | through all levels of sub-objects, lists and maps, every result of mapping there and back, each map met in any order, is the object up to the order of lists, with its types filled in and, for root types whose stages leave IDs alone, the ID that was given, if each pipeline on the way can be undone |
| `TypeMapper.FromInternal` | types/mapper.go:51-113 | the recursive loops end for all data, nil included, and compute the mapping; nil stays nil |
| `TypeMapper.ToInternal` | types/mapper.go:115-148 | the recursive loops end for all data and come to one of the results of the relation; nil stays nil |
| `ObjectSet.CollectedHolds` | pkg/objectset/objectset.go:35-53 | a collection holds exactly the kinds and keys of its objects, each under its own |
| `ObjectSet.CollectedIsLast` | pkg/objectset/objectset.go:35-53 | of several objects with one kind and key the last counts |
| `ObjectSet.Set.Add` | pkg/objectset/objectset.go:87-120 | an object without a name, or namespaced unlike its kind, is refused with an error; any other is appended and collected |
| `ObjectSet.NeverMixed` | pkg/objectset/objectset.go:106-112 | a set never holds objects of one kind both in a namespace and out of one |
| `ObjectSet.FirstsKinds` | pkg/objectset/desiredset_apply.go:100-110 | the kinds in order of first occurrence are each there once |
| `ObjectSet.KindOrder` | pkg/objectset/desiredset_apply.go:100-128 | first the kinds of the set, then the other kinds with clients, each exactly once |
| `ObjectSet.InjectLabels` | pkg/objectset/desiredset_apply.go:229-248 | every object of the set comes out once, under its kind and key, with the label of the set, in any order |
| `ObjectSet.LabelledKeeps` | pkg/objectset/desiredset_apply.go:229-272 | the label is all that changes of an object |
| `ObjectSet.AppliedAt` | pkg/objectset/desiredset_process.go:74-131 | key by key: created as wanted, patched, deleted, or left alone |
| `ObjectSet.CompareSets` | pkg/objectset/desiredset_process.go:133-153 | the three lists split the keys exactly, without repeats |
| `ObjectSet.OwnsTheWanted` | pkg/objectset/desiredset_process.go:74-131 | after a kind was applied the set's label is on exactly the wanted objects, taken-over ones included, if they were labelled |
| `ObjectSet.OwnsTheMarked` | pkg/objectset/desiredset_process.go:88-119 | after a kind was applied the set owns exactly the wanted objects that came with its label, and those that came with none and still have it after the patch |
| `ObjectSet.UnlabelledIsLeftBehind` | pkg/objectset/desiredset_process.go:121-130 | an object that comes without the label, created or patched, is not the set's unless it was before, and stays as it is when a later Apply does not want it any more |
| `ObjectSet.AppliedTwice` | pkg/objectset/desiredset_process.go:113-119 | applying again changes nothing if and only if patching each object again changes nothing |
| `ObjectSet.SecondRoundIsIdle` | pkg/objectset/desiredset_process.go:74-131 | a round on a kind of which the set owns exactly what it wants creates and deletes nothing, whatever fails |
| `ObjectSet.CreateAll` | pkg/objectset/desiredset_process.go:88-111 | the creations, with the labels the objects came with, and objects that exist already handed on to the updates |
| `ObjectSet.PatchAll` | pkg/objectset/desiredset_process.go:113-119 | exactly the updates that do not fail are patched |
| `ObjectSet.DeleteAll` | pkg/objectset/desiredset_process.go:121-130 | exactly the deletions that do not fail are made |
| `ObjectSet.Process` | pkg/objectset/desiredset_process.go:74-131 | without a failure the kind is applied as a whole; with any failures no object that is neither wanted nor labelled is touched; what was created and deleted is reported exactly |
| `ObjectSet.WantedIsTheSet` | pkg/objectset/desiredset_apply.go:229-248 | without injectors what is wanted are the objects of the set, all labelled |
| `ObjectSet.ApplyOwnsTheWanted` | pkg/objectset/desiredset_apply.go:90-95 | after an Apply without errors the set owns exactly what it wants of every visited kind, as long as the injectors left the label on it |
| `ObjectSet.ApplyCreates` | pkg/objectset/desiredset_apply.go:58-98 | without injectors, after an Apply without errors each object of the set that was not there is there with its body, its labels and that of the set |
| `ObjectSet.Collect` | pkg/objectset/desiredset_apply.go:182-188 | the loop that collects objects by kind and key |
| `ObjectSet.ApplyKinds` | pkg/objectset/desiredset_apply.go:90-95 | the loop over the kinds serves each of them and no other; a kind without a client is an error |
| `ObjectSet.Apply` | pkg/objectset/desiredset_apply.go:58-98 | without an error every visited kind is applied with the labelled and injected objects; with errors, or refused by the rate limit, nothing else is touched |
| `ObjectSet.ApplyTwice` | pkg/objectset/desiredset_apply.go:58-98 | without injectors, after a first Apply without errors the set owns exactly its objects of every visited kind, and a second Apply creates and deletes nothing |
| `Broadcast.StepKeeps` | pkg/broadcast/broadcaster.go:16-84 | every step keeps the invariant of channels, stream and subscriptions |
| `Broadcast.BroadcastSafety` | pkg/broadcast/broadcaster.go:16-84 | in every interleaving no closed channel is sent to or closed again, at most one stream is live, and without one there is no subscriber and every channel is closed |
| `Broadcast.EverythingInOrder` | pkg/broadcast/broadcaster.go:63-84 | a subscriber gets items of its time in their order, and exactly all of them if it was never full |
| `Broadcast.Broadcaster.Subscribe` | pkg/broadcast/broadcaster.go:16-37 | a new open and empty channel; a stream is started only if none runs; a failed connect changes nothing |
| `Broadcast.Broadcaster.Unsub` | pkg/broadcast/broadcaster.go:39-50 | a known subscriber is closed and dropped, with what it has not read yet, an unknown one ignored |
| `Broadcast.Broadcaster.StreamItem` | pkg/broadcast/broadcaster.go:63-76 | each subscriber gets the item behind what it has, or is about to be dropped if it is full; the loop, in any order, is one broadcast step |
| `Broadcast.Broadcaster.StreamEnd` | pkg/broadcast/broadcaster.go:78-84 | every subscriber is closed and none is left; the loop, in any order, is one end step |
| `Query.ParseLimit` | parse/collection.go:50-78 | the limit of a request is between 0 and 10000, whatever was asked |
| `Query.LimitAsAsked` | parse/collection.go:50-78 | exactly which limit each request gets |
| `Query.FindStart` | api/handler/query.go:78-88 | the search finds the first row with the marker, or the beginning |
| `Query.Pagination.Apply` | api/handler/query.go:55-121 | in int64 arithmetic the page, the markers of its neighbours and the flags are functions of the list, the marker and the limit; the slice panics if and only if start and limit add up beyond int64 |
| `Query.Pagination.Fill` | api/handler/query.go:90-120 | the same for the indices, which stay in int64 otherwise |
| `Query.ParsedNeverOverflows` | parse/collection.go:64-75 | a parsed limit never gets there, for lists of up to 2^63 - 10001 rows |
| `Query.WalkIsComplete` | api/handler/query.go:90-120 | following the next markers takes as many pages as the total divided by the limit, rounded up, and gives the list |
| `Query.PagesCoverTheList` | api/handler/query.go:90-120 | following the next markers shows the whole list and stops if and only if each row that begins a page has an ID no earlier row has |
| `Query.PreviousLeadsBack` | api/handler/query.go:90-101 | the previous marker leads one page back, and on from there to the same page exactly when a whole page lies before |
| `Query.LastLeadsToTheEnd` | api/handler/query.go:111-118 | the last marker leads to the page that ends the list |
| `Query.ZeroShowsNothing` | api/handler/query.go:94-105 | with a limit of zero the pages never make up the list |
| `Condition.InternalTexts` | condition/condition.go:206-235 | the status, reason and message that each kind of outcome leaves on the condition it is put on |
| `Condition.OneCall` | condition/condition.go:174-235 | after one call at most one more change is possible: the redaction of the message, or the status becoming Unknown |
| `Condition.AnotherCall` | condition/condition.go:174-235 | a call that ends like the last one leaves such a condition as it is, or settled for good |
| `Condition.QuietForever` | condition/condition.go:186-196 | a settled condition is never changed again by calls that end alike |
| `Condition.AtMostTwoChanges` | condition/condition.go:174-204 | over any number of calls that end alike up to temporary paths, each returning the object, a copy of it or nothing as it likes, at most two report a change |
| `Condition.TwoChangesExactly` | condition/condition.go:174-235 | that bound holds for all runs if and only if the outcome is a success or a failure that replaces all texts, or no outcome is put on an unrelated condition |
| `Condition.ForeignTextsFlap` | condition/condition.go:211-229 | conflicts, and errors that say not to retry, put on unrelated conditions can change every time |
| `Condition.TwoChangesHappen` | condition/condition.go:186-196 | calls for which it is two |
| `Condition.ClockDoesNotMatter` | condition/condition.go:186-201 | whether a call reports a change does not depend on the clock |
| `Condition.TimeTells` | condition/condition.go:186-196 | a condition that was there, put on the object or a copy of it: a new status or message is stamped with the time of the call, and one that reads as before keeps its time |
| `Condition.RedactPath` | condition/condition.go:18-19 | a path in the temporary directory becomes one word, up to where its name ends |
| `Condition.RedactOther` | condition/condition.go:18-19 | any other character stays |
| `Condition.DoInternal` | condition/condition.go:206-235 | the setters, in place on the object or on the one returned, have the modelled effect, also when the function sets the condition while it runs |
| `Condition.DoMethod` | condition/condition.go:174-204 | the whole call and the change it reports |

## Left out

- Websocket transport, pings, deadlines as real time, TLS and HTTP serving: the transport is a pair of FIFO channels that may break.
- The message counter, and connection IDs beyond 2^63: a dial is a step only below that.
- Session.Session.CopyInto: only readers of the connection act while it copies; the step relation interleaves everything else, such as a Close between two chunks.
- Session.Session.ServeMessage: the same.
- Directory.SessionManager.Remove: closing the removed session, which is Session.Session.Close, is not part of it.
- Aliasing between nested Go maps: nested data are values, so a map reachable in two places is not modelled; `RemoveValue` and `PutValue` are functions on values.
- A nil map stored under labels or annotations is the same as an explicit nil.
- Lifecycle.StepKeeps: other writers and handlers may add this adapter's finalizer but do not take it off, and names are not reused.
- The response mapping and the other operations of the proxy store (list, watch, create, delete).
- ModifySchema of the mapper stages, and the other mapper stages, which map single fields.
- TypeMapper.TypeRoundTrip: stated one way; a root type whose stages move the ID or the type of an object is outside it.
- Registry.Schemas.DoAddSchema: only without replace, because ForceAddSchema adds references again without removing the old ones; and the target of an embed schema is not an embed schema itself.
- Registry.Schemas.DoRemoveSchema: requires that the target of an embed schema is not an embed schema itself.
- Registry.Schemas.Retarget: requires the same; the source recurses into such a target and need not end.
- Registry.Schemas.DoSchema: case folding is that of ASCII.
- Agreement of the ordered list of schemas with the catalog, default names, hooks and setup errors.
- Import for several API versions at once, struct tags, anonymous fields, and reflection itself: a type is its name and the kinds of its fields.
- The filtering of methods in listed schemas and the JSON form of the listing.
- Computing a three-way patch, and the annotations it needs: a patch is any function of what is there and what is wanted that establishes the wanted labels and, for objects without the label of the set, makes up none.
- ObjectSet.Process: no stale informer caches and no discovery client; the listing is exact, and a deleted object is gone at once.
- The sort order of keys and of kinds without objects.
- The rate limiter and the injectors: whether it accepts and what they return are parameters.
- Cloning of broadcast items: items are values.
- Sorting and filtering of collections, and the `last` link beyond its value.
- Condition.DoMethod: the clock is read once for a call; whether a call reports a change does not depend on it.
- Conditions stored under several names, and the update calls of Track.
- Controllers, handlers and their removal, leader election, code generation, access control, validation and URL parsing.
