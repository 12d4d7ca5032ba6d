/** The server's subscription registry (`server/index.js`): the global
    `watchers` map, the `streams` map and each stream's own `watchers` map,
    driven by one step function per event. Socket writes and the opening and
    closing of upstream change streams are returned as effects instead of
    being performed. */
module Server {
  import opened Base
  import opened Values
  import opened Equality
  import opened Filters
  import opened JsMap

  type ConnId = string
  type WatcherId = string
  type StreamId = string

  /** A `Watcher`: one subscription of one connection; `stream` is the id of
      the stream it is attached to. */
  datatype Watcher = Watcher(id: WatcherId, db: string, collection: string, filters: Value, conn: ConnId, stream: StreamId)

  /** A `Stream`: one upstream change stream shared by its watchers; `feed` is
      the pipeline it was opened with, `None` while `changeStream` is null. */
  datatype Stream = Stream(
    id: StreamId,
    db: string,
    collection: string,
    filters: Value,
    watchers: Table<WatcherId, Watcher>,
    feed: Option<seq<Value>>)

  datatype State = State(
    clients: set<ConnId>,
    watchers: Table<WatcherId, Watcher>,
    streams: Table<StreamId, Stream>)

  /** What the server does to the outside world. */
  datatype Effect =
    /** `client.write(objectToBuffer(msg))` */
    | Write(conn: ConnId, msg: Value)
    /** `client.end(objectToBuffer(msg))` */
    | End(conn: ConnId, msg: Value)
    /** `db.collection(collection).watch(pipeline, ...)` */
    | OpenFeed(stream: StreamId, db: string, collection: string, pipeline: seq<Value>)
    /** `changeStream.close()` */
    | CloseFeed(stream: StreamId)

  datatype Step = Step(state: State, effects: seq<Effect>)

  function Initial(): State {
    State({}, Empty(), Empty())
  }

  /** `{error: text}` */
  function ErrorMsg(text: string): Value {
    Obj([Field("error", Str(text))])
  }

  /** `{watcher: id, data}` */
  function ChangeMsg(id: WatcherId, data: Value): Value {
    Obj([Field("watcher", Str(id)), Field("data", data)])
  }

  /** A new connection, with a fresh connection id. */
  function Accept(st: State, conn: ConnId): (r: State)
    requires conn !in st.clients
    ensures r.clients == st.clients + {conn}
    ensures r.watchers == st.watchers && r.streams == st.streams
  {
    st.(clients := st.clients + {conn})
  }

  // ---------------------------------------------------------------------
  // Validation

  /** The loop over required parameters: the first one that is falsy is
      missing, the first truthy one that is not a string has the wrong type. */
  function CheckParams(action: seq<Field>, keys: seq<string>): (r: Option<string>)
    ensures r.None? <==> forall i | 0 <= i < |keys| :: Present(action, keys[i])
  {
    if |keys| == 0 then None
    else
      var v := Lookup(action, keys[0]);
      if !Truthy(v) then Some("Missing params: " + keys[0])
      else if !v.Str? then Some("Params type must be string: " + keys[0])
      else
        var r := CheckParams(action, keys[1..]);
        assert (forall i | 0 <= i < |keys[1..]| :: Present(action, keys[1..][i])) <==>
               (forall i | 0 <= i < |keys| :: Present(action, keys[i])) by {
          assert forall i | 0 <= i < |keys[1..]| :: keys[1..][i] == keys[i + 1];
          assert Present(action, keys[0]);
        }
        r
  }

  /** Whether `action[key]` is a non-empty string, the only value that
      passes validation. */
  predicate Present(action: seq<Field>, key: string) {
    Lookup(action, key).Str? && Lookup(action, key).s != ""
  }

  /** A rejection names the first parameter that is not a non-empty string:
      "Missing" when its value is falsy, "must be string" otherwise. */
  lemma {:induction false} CheckParamsNamesFirstBad(action: seq<Field>, keys: seq<string>) returns (i: nat)
    requires CheckParams(action, keys).Some?
    ensures i < |keys| && !Present(action, keys[i])
    ensures forall j | 0 <= j < i :: Present(action, keys[j])
    ensures CheckParams(action, keys).value ==
      (if Truthy(Lookup(action, keys[i])) then "Params type must be string: " else "Missing params: ") + keys[i]
  {
    var v := Lookup(action, keys[0]);
    if !Truthy(v) || !v.Str? {
      i := 0;
    } else {
      var k := CheckParamsNamesFirstBad(action, keys[1..]);
      i := k + 1;
      assert keys[1..][k] == keys[i];
      forall j | 0 <= j < i ensures Present(action, keys[j]) {
        if j > 0 { assert keys[1..][j - 1] == keys[j]; }
      }
    }
  }

  const WatchParams: seq<string> := ["watcher", "db", "collection"]
  const CancelParams: seq<string> := ["watcher"]

  // ---------------------------------------------------------------------
  // Streams

  /** Whether a `watch` for `collection` with `filters` may reuse `s`. The
      database is not part of the test. */
  predicate Matches(s: Stream, collection: string, filters: Value) {
    s.collection == collection && Compare(filters, s.filters)
  }

  /** Position of the first stream, in iteration order, that matches. */
  function FindIndex(order: seq<StreamId>, m: map<StreamId, Stream>, collection: string, filters: Value): (r: Option<nat>)
    ensures r.Some? ==> r.value < |order| && order[r.value] in m && Matches(m[order[r.value]], collection, filters)
    ensures r.Some? ==> forall j | 0 <= j < r.value :: !(order[j] in m && Matches(m[order[j]], collection, filters))
    ensures r.None? ==> forall j | 0 <= j < |order| :: !(order[j] in m && Matches(m[order[j]], collection, filters))
  {
    if |order| == 0 then None
    else if order[0] in m && Matches(m[order[0]], collection, filters) then Some(0)
    else match FindIndex(order[1..], m, collection, filters)
      case None => None
      case Some(i) => Some(i + 1)
  }

  /** The loop over `streams.values()` in `watch`. */
  function FindStream(streams: Table<StreamId, Stream>, collection: string, filters: Value): (r: Option<StreamId>)
    ensures r.Some? ==> r.value in streams.m && Matches(streams.m[r.value], collection, filters)
    ensures r.Some? ==> exists i | 0 <= i < |streams.order| ::
      && streams.order[i] == r.value
      && forall j | 0 <= j < i :: !(streams.order[j] in streams.m && Matches(streams.m[streams.order[j]], collection, filters))
    ensures r.None? ==> forall j | 0 <= j < |streams.order| ::
      !(streams.order[j] in streams.m && Matches(streams.m[streams.order[j]], collection, filters))
  {
    match FindIndex(streams.order, streams.m, collection, filters)
    case None => None
    case Some(i) => Some(streams.order[i])
  }

  /** `Stream.start`: a no-op once started; otherwise opens the upstream
      change stream with the pipeline built from the filters. */
  function Start(s: Stream): (r: (Stream, seq<Effect>))
    ensures r.0.feed.Some? && r.0.(feed := s.feed) == s
    ensures s.feed.None? <==> |r.1| > 0
  {
    if s.feed.Some? then (s, [])
    else
      var p := Pipeline(s.filters);
      (s.(feed := Some(p)), [OpenFeed(s.id, s.db, s.collection, p)])
  }

  // ---------------------------------------------------------------------
  // Events

  /** The body of `watch` after validation: find or create the stream,
      register the watcher globally and on the stream, start the stream. */
  function AttachWatcher(st: State, conn: ConnId, id: WatcherId, db: string, collection: string, filters: Value, freshStream: StreamId): Step
    requires freshStream !in st.streams.m
  {
    var found := FindStream(st.streams, collection, filters);
    var sid := if found.Some? then found.value else freshStream;
    var s := if found.Some? then st.streams.m[sid] else Stream(freshStream, db, collection, filters, Empty(), None);
    var streams := if found.Some? then st.streams else st.streams.Set(sid, s);
    var w := Watcher(id, db, collection, filters, conn, sid);
    var started := Start(s.(watchers := s.watchers.Set(id, w)));
    Step(State(st.clients, st.watchers.Set(id, w), streams.Set(sid, started.0)), started.1)
  }

  /** The `watch` action handler. `freshStream` is the id a new stream would
      get. */
  function WatchAction(st: State, conn: ConnId, action: seq<Field>, freshStream: StreamId): Step
    requires freshStream !in st.streams.m
  {
    match CheckParams(action, WatchParams)
    case Some(e) => Step(st, [End(conn, ErrorMsg(e))])
    case None =>
      assert Present(action, WatchParams[0]) && Present(action, WatchParams[1]) && Present(action, WatchParams[2]);
      AttachWatcher(st, conn, Lookup(action, "watcher").s, Lookup(action, "db").s, Lookup(action, "collection").s,
        Or(Lookup(action, "filters"), Obj([])), freshStream)
  }

  /** `Watcher.cancel`: drop the watcher from both maps; the last one out
      stops the stream and removes it. */
  function CancelWatcher(st: State, w: Watcher): (r: Step)
    ensures r.state.watchers.m == st.watchers.m - {w.id}
    ensures r.state.clients == st.clients
  {
    var watchers := st.watchers.Delete(w.id);
    if w.stream !in st.streams.m then Step(st.(watchers := watchers), [])
    else
      var s := st.streams.m[w.stream];
      var sw := s.watchers.Delete(w.id);
      if sw.Size() == 0 then
        Step(st.(watchers := watchers, streams := st.streams.Delete(s.id)), if s.feed.Some? then [CloseFeed(s.id)] else [])
      else
        Step(st.(watchers := watchers, streams := st.streams.Set(w.stream, s.(watchers := sw))), [])
  }

  /** The `cancel` action handler: an unknown watcher id is ignored. */
  function CancelAction(st: State, conn: ConnId, action: seq<Field>): Step {
    match CheckParams(action, CancelParams)
    case Some(e) => Step(st, [End(conn, ErrorMsg(e))])
    case None =>
      assert Present(action, CancelParams[0]);
      match st.watchers.Get(Lookup(action, "watcher").s)
      case None => Step(st, [])
      case Some(w) => CancelWatcher(st, w)
  }

  /** The `data` handler: dispatch on `action`. */
  function OnAction(st: State, conn: ConnId, action: seq<Field>, freshStream: StreamId): Step
    requires freshStream !in st.streams.m
  {
    var tag := Lookup(action, "action");
    if tag == Str("watch") then WatchAction(st, conn, action, freshStream)
    else if tag == Str("cancel") then CancelAction(st, conn, action)
    else Step(st, [End(conn, ErrorMsg("Unknown action"))])
  }

  /** Cancel, in order, those of `ws` that belong to `conn`. */
  function CancelOwned(st: State, conn: ConnId, ws: seq<Watcher>): Step
    decreases |ws|
  {
    if |ws| == 0 then Step(st, [])
    else
      var first := if ws[0].conn == conn then CancelWatcher(st, ws[0]) else Step(st, []);
      var rest := CancelOwned(first.state, conn, ws[1..]);
      Step(rest.state, first.effects + rest.effects)
  }

  /** The connection `close` handler: forget the client and cancel every
      watcher it owns, visiting the global map in iteration order. */
  function CloseConnection(st: State, conn: ConnId): Step {
    CancelOwned(st.(clients := st.clients - {conn}), conn, st.watchers.Values())
  }

  /** The `change` listener of a started stream: one frame per attached
      watcher, in the stream's iteration order, to that watcher's connection.
      A stream that is gone has no listener left. */
  function Broadcast(st: State, sid: StreamId, data: Value): (r: Step)
    ensures r.state == st
    ensures sid in st.streams.m && st.streams.m[sid].feed.Some? && st.streams.m[sid].watchers.Valid() ==>
      && |r.effects| == st.streams.m[sid].watchers.Size()
      && forall i | 0 <= i < |r.effects| ::
        var w := st.streams.m[sid].watchers.m[st.streams.m[sid].watchers.order[i]];
        r.effects[i] == Write(w.conn, ChangeMsg(w.id, data))
    ensures !(sid in st.streams.m && st.streams.m[sid].feed.Some?) ==> r.effects == []
  {
    if sid in st.streams.m && st.streams.m[sid].feed.Some? then
      var ws := st.streams.m[sid].watchers.Values();
      Step(st, seq(|ws|, i requires 0 <= i < |ws| => Write(ws[i].conn, ChangeMsg(ws[i].id, data))))
    else Step(st, [])
  }
}
