/** The client's connection manager (`client/index.js`): a table of
    reference-counted subscription handles, the socket and connected flags,
    the carry-over buffer of the deframer, and the reconnect timers. Socket
    writes are appended to `writes` and the handles' `change`/`close` events
    to `events`; `bson.serialize` is left out, so a write is the message
    value itself. */
module Client {
  import opened Base
  import opened Values
  import opened Equality
  import opened JsMap
  import opened Framing

  /** A `Watcher` handle: `count` is the number of `watch()` calls folded
      into it. */
  datatype Handle = Handle(id: string, db: string, collection: string, filters: Value, count: int)

  /** What a handle emits. */
  datatype HandleEvent =
    | Change(watcher: string, data: Value)
    | Closed(watcher: string)

  datatype ClientState = ClientState(
    handles: Table<string, Handle>,
    /** the carry-over buffer; `None` is `null` */
    buffer: Option<Bytes>,
    /** whether `this.socket` is set */
    socket: bool,
    connected: bool,
    /** reconnect timers scheduled and not yet fired */
    timers: nat,
    writes: seq<Value>,
    events: seq<HandleEvent>)

  /** `new Client(options)` */
  function Initial(): ClientState {
    ClientState(Empty(), None, false, false, 0, [], [])
  }

  /** The message `Watcher.watch` writes. */
  function WatchMsg(h: Handle): Value {
    Obj([Field("watcher", Str(h.id)), Field("action", Str("watch")), Field("db", Str(h.db)),
      Field("collection", Str(h.collection)), Field("filters", h.filters)])
  }

  /** The message `Watcher.close` writes at zero. */
  function CancelMsg(id: string): Value {
    Obj([Field("watcher", Str(id)), Field("action", Str("cancel"))])
  }

  /** Whether handle `h` serves a `watch(db, collection, filters)`. */
  predicate Serves(h: Handle, db: string, collection: string, filters: Value) {
    h.db == db && h.collection == collection && Compare(filters, h.filters)
  }

  /** The loop over `this.watchers.values()` in `watch`: the position of the
      first handle that serves the request. */
  function FindHandle(order: seq<string>, m: map<string, Handle>, db: string, collection: string, filters: Value): (r: Option<nat>)
    ensures r.Some? ==> r.value < |order| && order[r.value] in m && Serves(m[order[r.value]], db, collection, filters)
    ensures r.Some? ==> forall j | 0 <= j < r.value :: !(order[j] in m && Serves(m[order[j]], db, collection, filters))
    ensures r.None? ==> forall j | 0 <= j < |order| :: !(order[j] in m && Serves(m[order[j]], db, collection, filters))
  {
    if |order| == 0 then None
    else if order[0] in m && Serves(m[order[0]], db, collection, filters) then Some(0)
    else match FindHandle(order[1..], m, db, collection, filters)
      case None => None
      case Some(i) => Some(i + 1)
  }

  /** `_connect`: nothing when a socket exists; otherwise drop the carry-over
      buffer and open a socket, not yet connected. */
  function Connect(st: ClientState): (r: ClientState)
    ensures r.socket
    ensures st.socket ==> r == st
    ensures !st.socket ==> r == st.(buffer := None, socket := true)
  {
    if st.socket then st else st.(buffer := None, socket := true)
  }

  /** `Client.watch`: returns the new state and the id of the handle
      returned. `freshId` is the `ObjectID` a new handle would get. */
  function Watch(st: ClientState, db: string, collection: string, filters: Value, freshId: string): (r: (ClientState, string))
    requires freshId !in st.handles.m
    ensures r.0.socket
    ensures r.0.connected == st.connected && r.0.timers == st.timers && r.0.events == st.events
  {
    var st1 := Connect(st);
    var f := Or(filters, Obj([]));
    match FindHandle(st1.handles.order, st1.handles.m, db, collection, f)
    case Some(i) =>
      var h := st1.handles.m[st1.handles.order[i]];
      (st1.(handles := st1.handles.Set(h.id, h.(count := h.count + 1))), h.id)
    case None =>
      var h := Handle(freshId, db, collection, f, 1);
      var st2 := st1.(handles := st1.handles.Set(freshId, h));
      (if st1.connected then st2.(writes := st2.writes + [WatchMsg(h)]) else st2, freshId)
  }

  /** `Watcher.close` on the live handle `id`. At zero the source writes to
      the socket, so it needs one then; a handle closed down to zero has lost
      its client, so only a handle still in the table can be closed. */
  function Close(st: ClientState, id: string): (r: ClientState)
    requires id in st.handles.m
    requires st.handles.m[id].count <= 1 ==> st.socket
    ensures r.socket == st.socket && r.connected == st.connected && r.buffer == st.buffer && r.timers == st.timers
    ensures st.handles.m[id].count > 1 ==>
      && r.handles.m == st.handles.m[id := st.handles.m[id].(count := st.handles.m[id].count - 1)]
      && r.writes == st.writes && r.events == st.events
    ensures st.handles.m[id].count <= 1 ==>
      && r.handles.m == st.handles.m - {id}
      && r.writes == st.writes + [CancelMsg(id)]
      && r.events == st.events + [Closed(id)]
  {
    var h := st.handles.m[id];
    var c := h.count - 1;
    if c > 0 then st.(handles := st.handles.Set(id, h.(count := c)))
    else
      st.(writes := st.writes + [CancelMsg(id)],
          handles := st.handles.Set(id, h.(count := c)).Delete(id),
          events := st.events + [Closed(id)])
  }

  /** `after` is `before` followed by one `watch` message per handle of
      `t`, in table order. */
  ghost predicate Replays(before: seq<Value>, after: seq<Value>, t: Table<string, Handle>)
    requires t.Valid()
  {
    && |after| == |before| + |t.order|
    && after[..|before|] == before
    && forall i | 0 <= i < |t.order| :: after[|before| + i] == WatchMsg(t.m[t.order[i]])
  }

  /** The connect callback: mark connected and replay one `watch` message
      per handle, in table order. */
  function Connected(st: ClientState): (r: ClientState)
    ensures r.connected && r.handles == st.handles && r.socket == st.socket
    ensures st.handles.Valid() ==> Replays(st.writes, r.writes, st.handles)
  {
    var w := st.writes + WatchMsgs(st.handles.Values());
    assert st.handles.Valid() ==> Replays(st.writes, w, st.handles) by {
      if st.handles.Valid() { ReplayShape(st.handles, st.writes); }
    }
    st.(connected := true, writes := w)
  }

  lemma ReplayShape(t: Table<string, Handle>, prior: seq<Value>)
    requires t.Valid()
    ensures Replays(prior, prior + WatchMsgs(t.Values()), t)
  {
    t.SizeMatches();
    var msgs := WatchMsgs(t.Values());
    var w := prior + msgs;
    assert w[..|prior|] == prior;
    forall i | 0 <= i < |t.order| ensures w[|prior| + i] == WatchMsg(t.m[t.order[i]]) {
      assert w[|prior| + i] == msgs[i];
    }
  }

  /** One `watch` message per handle, in order. */
  function WatchMsgs(hs: seq<Handle>): (r: seq<Value>)
    ensures |r| == |hs|
    ensures forall i | 0 <= i < |hs| :: r[i] == WatchMsg(hs[i])
  {
    if |hs| == 0 then [] else [WatchMsg(hs[0])] + WatchMsgs(hs[1..])
  }

  /** The socket's `close` listener: forget the socket and schedule a
      reconnect. */
  function SocketClosed(st: ClientState): (r: ClientState)
    requires st.socket
    ensures !r.socket && !r.connected && r.timers == st.timers + 1
    ensures r.handles == st.handles && r.buffer == st.buffer && r.writes == st.writes
  {
    st.(socket := false, connected := false, timers := st.timers + 1)
  }

  /** A reconnect timer fires: reconnect only if no socket has been opened
      since. */
  function TimerFired(st: ClientState): (r: ClientState)
    requires st.timers > 0
    ensures r.timers == st.timers - 1 && r.socket
    ensures st.socket ==> r == st.(timers := st.timers - 1)
    ensures r.handles == st.handles && r.writes == st.writes && r.connected == st.connected
  {
    Connect(st.(timers := st.timers - 1))
  }

  /** The buffer `_decode` sees after a `data` event: the chunk appended to
      the carry-over, or the chunk alone when there is none. */
  function Joined(buffer: Option<Bytes>, chunk: Bytes): Bytes {
    if buffer.Some? then buffer.value + chunk else chunk
  }

  /** The `data` listener and the framing half of `_decode`: the payload of
      at most one frame, left for the codec, and the new carry-over. The
      length read needs four buffered bytes. */
  function OnData(st: ClientState, chunk: Bytes): (r: (ClientState, Option<Bytes>))
    requires |Joined(st.buffer, chunk)| >= 4
    ensures r.0 == st.(buffer := r.0.buffer)
    ensures var buf := Joined(st.buffer, chunk);
      match DecodeOne(buf)
      case Incomplete => r.1 == None && r.0.buffer == Some(buf)
      case Frame(p, rest) => r.1 == Some(p) && r.0.buffer == rest
  {
    var buf := Joined(st.buffer, chunk);
    match DecodeOne(buf)
    case Incomplete => (st.(buffer := Some(buf)), None)
    case Frame(p, rest) => (st.(buffer := rest), Some(p))
  }

  /** The routing half of `_decode`, on the decoded message: a truthy
      `error` is only logged; otherwise the `change` goes to the handle whose
      id is `watcher`, if there is one. */
  function Deliver(st: ClientState, msg: seq<Field>): (r: ClientState)
    ensures r == st.(events := r.events)
    ensures Truthy(Lookup(msg, "error")) ==> r == st
    ensures !Truthy(Lookup(msg, "error")) && Lookup(msg, "watcher").Str? && Lookup(msg, "watcher").s in st.handles.m ==>
      r.events == st.events + [Change(Lookup(msg, "watcher").s, Lookup(msg, "data"))]
    ensures !(Lookup(msg, "watcher").Str? && Lookup(msg, "watcher").s in st.handles.m) ==> r == st
  {
    if Truthy(Lookup(msg, "error")) then st
    else
      var w := Lookup(msg, "watcher");
      if w.Str? && w.s in st.handles.m then st.(events := st.events + [Change(w.s, Lookup(msg, "data"))])
      else st
  }
}
