# mongo-change-hub, modelled in Dafny

mongo-change-hub multiplexes MongoDB change streams over one TCP port. The
server keeps three registries:

- a global map of watchers;
- a map of streams, each an upstream change stream shared by every watcher
  that asked for the same collection with equal filters;
- each stream's own map of watchers.

On every change a stream writes one framed message to the connection of each
of its watchers. The last watcher out stops the stream.

The client keeps a table of reference-counted handles. Equal `watch()` calls
share one handle. `close()` only cancels at zero. After a reconnect, every live
handle's `watch` message is sent again.

Only server-to-client messages are framed (server/index.js:71-76), and the
client's `_decode` takes the frames apart (client/index.js:91-109). A frame is:

- a 4-byte little-endian length that counts the whole frame;
- the encoded payload;
- the trailer `"\n\n"`.

Client-to-server messages are bare BSON documents, one per socket write
(client/index.js:140-148, 154-159). The server decodes each `data` chunk as
one document (server/index.js:184-185).

The project models this core as pure functions over immutable state and
proves properties about them.

| file | module | models |
|---|---|---|
| `base.dfy` | `Base` | `Option`; the byte type of a Node `Buffer` |
| `values.dfy` | `Values` | the dynamic values the hub handles: `typeof`, truthiness, `x \|\| y`, `obj[k]`, `String(x)`, `Object.keys` |
| `jsmap.dfy` | `JsMap` | a JavaScript `Map`: insertion-ordered; `set` keeps a key's position; `delete` keeps the others' order |
| `equality.dfy` | `Equality` | `compare` and `compareObject`, identical in both source files |
| `filters.dfy` | `Filters` | `filtersToMatch` and the pipeline `Stream.start` builds |
| `framing.dfy` | `Framing` | `objectToBuffer` and the framing half of the client's `_decode` |
| `server.dfy` | `Server` | the `watch`/`cancel` handlers, connection close, `Stream.start`/`stop`, `Watcher.cancel`, the change broadcast |
| `server_proofs.dfy` | `ServerProofs` | the registry invariant and its preservation by every event |
| `server_facts.dfy` | `ServerFacts` | observable behaviour of the registry: reuse, rejection, broadcast, scenarios |
| `client.dfy` | `Client` | `Client.watch`, `_connect` (replay and reconnect), `_decode`, `Watcher.watch`/`close` |
| `client_proofs.dfy` | `ClientProofs` | the handle-table invariant; `close` undoes `watch`; replay; deframing |

Effects are returned, not performed. The server's steps return a list of
socket writes and the change streams opened or closed. The client appends
socket writes and the handles' `change`/`close` events to two sequences in
its state. Ids that the source draws from `new ObjectID()` are parameters:
a fresh connection id, a fresh stream id, a fresh handle id.

The registry invariant (`ServerProofs.Inv`) has four parts:

- both maps are valid tables;
- every registered watcher sits in its stream's map under its own id;
- every registered stream has at least one watcher, was started with the
  pipeline of its filters, and holds only registered watchers;
- no stream would have been reused for a later one.

The third part is why a stream is never empty while open: the
`Watcher.cancel` that empties a stream also removes it
(`ServerProofs.CancelEffects`, `ServerProofs.LeaveLastPreservesInv`). The
fourth part holds because a stream is only created when the search for a
stream to reuse finds none (server/index.js:122-136). No stream matches the
collection and filters of a later stream, so the streams stay mutually
non-reusable in Map order. The client invariant (`ClientProofs.Inv`) says:

- every handle is stored under its own id with a positive count;
- no handle could have served a later handle's `watch`;
- `connected` implies a socket.

Some behaviours of the code are easy to miss when reading it. The model
follows the code in each of them:

- `watch` requires a non-empty string `db`, just like `watcher` and
  `collection` (server/index.js:103-114). The client's published signature
  also declares `db: string` as required (client/index.d.ts:41-45).
- `compare` is not symmetric (server/index.js:13-36). Two cases:
  - `{x: undefined}` equals `{y: 1}`, but not the reverse. A key missing from
    the second object reads as `undefined` (server/index.js:32-33).
  - An array or other object that renders as `"[object Object]"` equals every
    plain object, but not the reverse (server/index.js:21-24).

  `Equality.MissingKeyReadsUndefined` and `Equality.NotSymmetric` state both
  cases. `compare` is symmetric and transitive only on "tame" values
  (`Equality.CompareSymmetric`, `Equality.CompareTransitive`).
- Arrays are compared by their `String` rendering. `typeof` of an array is
  `"object"`, so the `"array"` case of `compare` can never be taken
  (server/index.js:16-18). The source defines `compareArray` but never calls
  it (server/index.js:38-44). So `[1, 2]` equals `["1", "2"]`
  (`Equality.ArrayRenderingQuirk`).
- Arrays pass through `filtersToMatch` untranslated, because `isPlainObject`
  is false for them (server/index.js:54-56, 62-69). So in
  `{$and: [{status: "open"}]}` the inner `status` keeps its name, without the
  `fullDocument.` prefix (`Filters.TranslationExamples`).
- The server's stream reuse ignores the database (server/index.js:123-124).
  A `watch` on the same collection name in another database joins the
  existing stream (`ServerFacts.DatabaseNotInStreamKey`). The client's reuse
  test does include `db` (client/index.js:41-44).
- The length header is written and read as a signed 32-bit integer
  (server/index.js:74, client/index.js:102).
- One `data` event decodes at most one frame (client/index.js:101-109). A
  second complete frame in the buffer is kept, but waits for the next `data`
  event (`Framing.OneFramePerCall`).

## Model

| member | source | states |
|---|---|---|
| Equality.CompareKindRules | server/index.js:13-20 | values of different `typeof` never compare equal; `null` equals exactly `null`, on either side |
| Equality.CompareReflexive | server/index.js:13-36 | every well-formed value compares equal to itself, so two equal subscriptions are always recognised |
| Equality.ObjectsEqualIffSameKeys | server/index.js:30-36 | on tame plain objects, `compareObject` holds if and only if both have the same key set and equal values under every key |
| Equality.CompareSymmetric | server/index.js:13-36 | on tame values, `compare(a, b) == compare(b, a)` |
| Equality.CompareTransitive | server/index.js:13-36 | on tame values, `compare` is transitive |
| Equality.FieldOrderIrrelevant | server/index.js:30-36 | two plain objects with the same entries in a different key order compare equal |
| Equality.ArraysCompareByRendering | server/index.js:16-24 | two arrays compare equal exactly when their `String` renderings are equal; an array equals a non-plain object with the same rendering |
| Equality.ArrayRenderingQuirk | server/index.js:13-44 | `[1, 2]` equals `["1", "2"]` under `compare`, though the unused `compareArray` would reject it |
| Equality.MissingKeyReadsUndefined | server/index.js:30-36 | a key missing from `b` reads as `undefined`: `{x: undefined}` equals `{y: 1}`, and not the other way round |
| Equality.NotSymmetric | server/index.js:19-24 | an array or other object that renders as `"[object Object]"` equals every plain object, but no plain object equals it |
| Filters.Put | server/index.js:57 | assigning a key the object does not have appends that entry at the end |
| Filters.FilterKeyInverts | server/index.js:49-52 | stripping the `fullDocument.` prefix undoes the key rewrite, for operator and non-operator keys alike |
| Filters.MatchKeyInjective | server/index.js:49-52 | distinct filter keys are rewritten to distinct match keys |
| Filters.PutAllAppends | server/index.js:47-58 | writing entries with distinct keys one by one yields exactly those entries, in order |
| Filters.MatchOfShape | server/index.js:46-60 | one match entry per filter entry, in the same order, with distinct keys; operator keys are kept; other keys gain `fullDocument.`; plain-object values are translated recursively; other values pass through |
| Filters.MatchRoundTrip | server/index.js:46-60 | stripping the prefixes from the translation of well-formed filters gives back the filters |
| Filters.MatchPreservesWellFormed | server/index.js:46-60 | the translation of well-formed filters has distinct keys at every depth |
| Filters.TranslationExamples | server/index.js:46-60 | `{status: "open"}` becomes `{"fullDocument.status": "open"}`; `{$and: [...]}` is kept as it is; empty filters give an empty pipeline |
| Framing.ReadInt32LE | client/index.js:102 | the length read is a signed 32-bit value |
| Framing.Int32RoundTrip | server/index.js:74 | reading back a 32-bit little-endian write gives the number written |
| Framing.ObjectToBuffer | server/index.js:71-76 | the frame is header, payload, trailer; its header reads as the frame's own total length |
| Framing.SliceIndex | client/index.js:104-108 | a `slice` index always lands inside the buffer, and an index already inside it is used as it is |
| Framing.DecodeOne | client/index.js:101-109 | nothing is consumed if and only if the buffer is shorter than the announced length; for a length of at least 6 the payload is bytes 4 to length-2, and the bytes after the frame are kept (null when there are none) |
| Framing.DecodeFrame | client/index.js:101-109 | decoding a frame followed by any bytes gives back the payload and keeps exactly those bytes |
| Framing.PartialFrameWaits | client/index.js:102-103 | a frame that has only partly arrived, header complete, is left in the buffer |
| Framing.OneFramePerCall | client/index.js:101-109 | with two frames buffered, one decode yields the first payload and keeps the second frame whole |
| Server.CheckParams | server/index.js:103-114 | validation passes if and only if every required parameter is a non-empty string |
| Server.CheckParamsNamesFirstBad | server/index.js:103-114 | a rejection names the first parameter that is not a non-empty string, as "Missing params" when its value is falsy and "Params type must be string" otherwise |
| Server.FindIndex | server/index.js:122-128 | the position found is the first stream, in iteration order, with the same collection and equal filters; none is found only when no stream matches |
| Server.FindStream | server/index.js:122-128 | the stream found is registered, matches, and no stream before it in iteration order matches; none is found only when no stream matches |
| Server.Start | server/index.js:236-252 | `start` changes only the feed; it opens an upstream change stream if and only if none was open |
| Server.CancelWatcher | server/index.js:293-303 | the watcher's id leaves the global map; nothing else leaves it |
| Server.Broadcast | server/index.js:253-258 | a change on an open stream produces one frame per attached watcher, in the stream's order, to that watcher's connection; a stream that is gone produces none |
| ServerProofs.InitialInv | server/index.js:83-91 | the empty registries satisfy the invariant |
| ServerProofs.AcceptPreservesInv | server/index.js:179-182 | a new connection joins the clients and keeps the invariant |
| ServerProofs.JoinPreservesInv | server/index.js:139-151 | adding a new watcher to an existing stream keeps the invariant |
| ServerProofs.CreatePreservesInv | server/index.js:130-151 | adding a started stream with one new watcher keeps the invariant, provided no registered stream matches it |
| ServerProofs.AttachCreatesState | server/index.js:130-151 | when no stream matches, `watch` yields exactly the old state with the watcher added globally and one new stream appended, holding just that watcher and started with its pipeline |
| ServerProofs.AttachPreservesInv | server/index.js:122-151 | a validated `watch` under an unused watcher id keeps the invariant |
| ServerProofs.LeaveLastPreservesInv | server/index.js:293-303 | cancelling a stream's last watcher and removing the stream keeps the invariant |
| ServerProofs.LeavePreservesInv | server/index.js:293-298 | cancelling a watcher of a stream that keeps others keeps the invariant |
| ServerProofs.CancelPreservesInv | server/index.js:293-303 | `Watcher.cancel` on a registered watcher keeps the invariant: no stream is left without watchers |
| ServerProofs.CancelEffects | server/index.js:293-303 | for any registered watcher: if it is the only watcher of its stream, cancelling it closes that change stream and removes the stream; otherwise the stream stays, loses just that watcher, and nothing is closed |
| ServerProofs.WatchActionPreservesInv | server/index.js:102-152 | the `watch` handler keeps the invariant, whether the action is rejected or attached |
| ServerProofs.CancelActionPreservesInv | server/index.js:158-177 | the `cancel` handler keeps the invariant |
| ServerProofs.OnActionPreservesInv | server/index.js:184-193 | every inbound action keeps the invariant, provided a `watch` does not reuse a registered watcher id |
| ServerProofs.CancelOwnedPreservesInv | server/index.js:198-202 | cancelling, in order, the listed watchers owned by a connection keeps the invariant and removes exactly those watchers |
| ServerProofs.OwnedIdsOfValues | server/index.js:198-199 | the watchers the close loop cancels are exactly the registered watchers the connection owns |
| ServerProofs.CloseConnectionCancelsOwned | server/index.js:195-203 | closing a connection drops it, cancels exactly its watchers, keeps every other connection's watchers unchanged, and keeps the invariant |
| ServerFacts.WatchReusesFirstMatch | server/index.js:122-151 | a `watch` that some stream matches joins the first such stream, opens nothing, adds no stream and changes only that stream's watchers |
| ServerFacts.FirstMatchExists | server/index.js:122-128 | when some registered stream matches, there is a first one in iteration order |
| ServerFacts.WatchCreatesStream | server/index.js:130-151 | a `watch` that no stream matches appends one stream holding only the new watcher, and opens exactly one change stream with the filters' pipeline |
| ServerFacts.StartOnce | server/index.js:236-252 | starting twice is the same as starting once; the first start opens the feed with the filters' pipeline |
| ServerFacts.RejectedActionsChangeNothing | server/index.js:184-192 | an unknown action, or one with no non-empty `watcher` string, changes no registry and ends the connection with one error frame |
| ServerFacts.WatchNeedsDbAndCollection | server/index.js:103-114 | a `watch` without a non-empty `db` or `collection` string is turned away the same way |
| ServerFacts.CancelUnknownIsIgnored | server/index.js:167-168 | cancelling an unregistered id does nothing and writes nothing |
| ServerFacts.BroadcastOnlyAttached | server/index.js:253-258 | every frame a change produces goes to a registered watcher of that stream |
| ServerFacts.BroadcastReachesAttached | server/index.js:253-258 | every registered watcher of a stream receives a frame for each of its changes |
| ServerFacts.FirstWatchOpensStream | server/index.js:130-151 | the first `watch` on an empty server opens exactly one stream with its pipeline and registers one watcher on it |
| ServerFacts.TwoEqualWatchesShareStream | server/index.js:122-151 | a second equal `watch` joins the first stream: still one stream and one upstream change stream, with both watchers on it |
| ServerFacts.LastCancelClosesStream | server/index.js:293-303 | cancelling one of two watchers keeps the stream; cancelling the other closes its change stream and empties both registries |
| ServerFacts.DatabaseNotInStreamKey | server/index.js:122-128 | a `watch` for another database's collection of the same name joins the existing stream, which stays bound to the first database |
| ServerFacts.DuplicateIdSecondWatch | server/index.js:148-149 | a second `watch` on another collection under a watcher id in use re-points the global entry to a new stream and leaves the first stream as it was |
| ServerFacts.DuplicateIdLeavesStaleStream | server/index.js:293-303 | cancelling that id afterwards empties the global map but leaves the first stream open, breaking the invariant |
| ServerFacts.CancelKeepsOtherStreams | server/index.js:293-303 | cancelling a watcher leaves every stream but its own untouched |
| Client.FindHandle | client/index.js:40-49 | the handle found is the first, in table order, with the same `db` and `collection` and equal filters; none is found only when no handle serves the call |
| Client.Watch | client/index.js:34-60 | `watch` always leaves a socket and never changes the connected flag, the timers or the events |
| Client.Close | client/index.js:151-164 | above one, `close` only decrements the count; at one it removes the handle, writes one `cancel` and emits `close` |
| Client.Connected | client/index.js:68-75 | on connect, the writes gain one `watch` message per handle, in table order, after everything written before |
| ClientProofs.InitialInv | client/index.js:6-27 | a new client satisfies the invariant |
| ClientProofs.WatchReuses | client/index.js:40-48 | a `watch` that a live handle serves returns a live handle with its count one higher, keeps the table order and writes nothing |
| ClientProofs.WatchReusesFirst | client/index.js:40-48 | the handle returned is the first in table order that serves the call |
| ClientProofs.WatchCreates | client/index.js:51-57 | a `watch` no handle serves appends a handle with count 1; it writes its `watch` message only when connected |
| ClientProofs.WatchPreservesInv | client/index.js:34-60 | `watch` keeps the invariant: no two handles could serve the same call |
| ClientProofs.ClosePreservesInv | client/index.js:151-164 | `close` keeps the invariant |
| ClientProofs.CloseUndoesWatch | client/index.js:151-164 | `close` right after `watch` restores the handle table; `close` is emitted exactly when the handle was new |
| ClientProofs.RepeatedWatchesCount | client/index.js:40-48 | while one handle alone serves a call, each further equal `watch` only adds one to its count |
| ClientProofs.RepeatedWatchesOpen | client/index.js:34-60 | N equal `watch` calls on a table no handle serves append one handle, with count N |
| ClientProofs.RepeatedClosesRemove | client/index.js:151-164 | closing a handle as often as its count removes it and restores the table it was appended to, with one `cancel` and one `close` |
| ClientProofs.BalancedWatchClose | client/index.js:151-160 | N equal `watch` calls then N `close` calls leave the table as it was, and the server gets exactly one `cancel` |
| ClientProofs.ConnectedPreservesInv | client/index.js:68-75 | the connect callback keeps the invariant |
| ClientProofs.ReplayOncePerHandle | client/index.js:68-75 | a reconnect writes as many `watch` messages as there are live handles, one for each, and nothing else |
| ClientProofs.ReplayedMessages | client/index.js:71-74 | any replay has one message per handle, covers every handle, and holds only messages of live handles |
| ClientProofs.SocketClosedPreservesInv | client/index.js:77-86 | losing the socket keeps the invariant |
| ClientProofs.TimerFiredPreservesInv | client/index.js:81-85 | a reconnect timer keeps the invariant |
| ClientProofs.ReconnectRestores | client/index.js:62-86 | losing the socket, the timer firing and connecting again keeps every handle, drops the carry-over buffer, replays every handle and leaves timers from earlier losses pending |
| ClientProofs.WatchBeforeConnectSentOnce | client/index.js:51-75 | on a new client a `watch` writes nothing; the connect callback then sends exactly that handle's `watch` message, once |
| ClientProofs.WholeFrame | client/index.js:91-109 | a whole frame, possibly followed by more bytes, yields its payload and keeps exactly the bytes after it |
| ClientProofs.SplitFrame | client/index.js:91-109 | a frame cut into two chunks, the first holding the header, gives the same payload and state as the whole frame |
| ClientProofs.ChunkWaits | client/index.js:91-103 | a chunk that leaves a header-complete frame still incomplete is only appended to the carry-over buffer, and nothing is decoded |
| ClientProofs.LastChunk | client/index.js:91-109 | the chunk that completes a buffered frame yields its payload and keeps exactly the bytes that followed the frame |
| ClientProofs.PiecesFromPrefix | client/index.js:91-109 | from a buffered header-complete prefix, the rest of a frame in any number of pieces decodes nothing until the last piece, which yields the payload and keeps the bytes after the frame |
| ClientProofs.FrameInPieces | client/index.js:91-109 | a frame delivered over any number of `data` events, the first holding the header, yields its payload exactly once, on the last event, and keeps exactly the bytes that followed it |
| ClientProofs.ChangeReachesNamedHandle | client/index.js:115-118 | a server change frame is emitted on the handle it names if that handle is live, and is dropped otherwise |
| ClientProofs.ErrorFramesDropped | client/index.js:111-114 | an error frame from the server reaches no handle |

## Left out

- Sockets, the `net` module and the MongoDB driver are left out. Writes and the opening and closing of change streams are effects in the returned state, and upstream changes are the `data` argument of `Server.Broadcast`.
- `bson.serialize` and `bson.deserialize` are an opaque codec outside the model. The server is handed the decoded action. The client's framing yields payload bytes, and `Client.Deliver` takes the decoded message.
- The server assumes one `data` chunk holds exactly one BSON document (server/index.js:185). The model takes that document as given and does not model a chunk that splits or joins messages.
- `Values.OwnEntries` lists a string's Unicode code points, because a Dafny `string` is a sequence of them. JavaScript's `Object.keys` on a string lists UTF-16 code units instead. So for a string `filters` holding a character outside the Basic Multilingual Plane, `filtersToMatch` (server/index.js:46-60) builds two entries, each holding a lone surrogate, where the model builds one.
- `Framing.ObjectToBuffer` requires the frame length to fit a signed 32-bit integer. A larger frame would make `writeInt32LE` throw a `RangeError` (server/index.js:74). That case is not modelled, because `bson.serialize` limits a document to far fewer than 2^31 bytes.
- `new ObjectID()` ids are parameters. The invariant lemmas assume the watcher id of a `watch` is not registered. `ServerFacts.DuplicateIdLeavesStaleStream` shows what happens when it is.
- The 2-second reconnect delay is abstracted as a count of pending timers. `Client.TimerFired` is the event of one timer firing.
- Console logging, the `error` event listener, `process.env` and `process.exit` are left out. None of them affects state.
- Numbers are integers. Fractions, NaN and the exponent forms of `String(n)` are not modelled.
- Key enumeration order is the plain insertion order. JavaScript's rule that integer-like keys enumerate first is not modelled.
- Inherited enumerable properties are not modelled. `for...in` over an object's prototype chain is therefore not modelled.
- `Values.Lookup` reads every key an object does not own as `undefined`. In JavaScript, reading an inherited name such as `constructor`, `toString` or `__proto__` gives a function or an object instead. So the model finds `compare({constructor: undefined}, {x: 1})` true, while the source finds it false (client/index.js:185-187).
- A non-plain object (`ObjectID`, `Date`) is known only by its `String` rendering.
- `Client.OnData` requires at least four buffered bytes, because `readInt32LE` throws on a shorter buffer. The thrown exception is not modelled.
- `Client.Close` requires a live handle, and a socket when the count reaches zero. The exceptions the source raises otherwise are not modelled: a null socket at zero, and any `close` after that.
- `Client.Watch`: its own contract states only what `watch` leaves unchanged. What `watch` does to the table is stated by `ClientProofs.WatchReuses`, `ClientProofs.WatchReusesFirst` and `ClientProofs.WatchCreates`.
- `Server.CancelWatcher`: its own contract covers only the global map. Its effect on streams is stated for every state satisfying the invariant by `ServerProofs.CancelEffects`, `ServerProofs.CancelPreservesInv` and `ServerFacts.CancelKeepsOtherStreams`.
- `Client.Close` does not model the handle object's listeners or `removeAllListeners` (client/index.js:162-163). The `close` event is recorded in `events`.
- `client/index.d.ts` (type declarations) and the `demo` directory are not part of this model.
