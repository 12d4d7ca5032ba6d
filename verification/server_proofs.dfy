/** The server registry's resource invariant and the properties of its
    events: every registered stream is started and has at least one watcher,
    the global and per-stream watcher maps agree, and no stream could have
    been reused for a later one. */
module ServerProofs {
  import opened Base
  import opened Values
  import opened Equality
  import opened Filters
  import opened JsMap
  import opened Server

  /** A globally registered watcher is attached to a registered stream, under
      its own id. */
  ghost predicate WatcherOk(st: State, id: WatcherId)
    requires id in st.watchers.m
  {
    var w := st.watchers.m[id];
    && w.id == id
    && w.stream in st.streams.m
    && id in st.streams.m[w.stream].watchers.m
    && st.streams.m[w.stream].watchers.m[id] == w
  }

  /** A registered stream is started with the pipeline of its filters, has
      at least one watcher, and each of them is registered globally. */
  ghost predicate StreamOk(st: State, sid: StreamId)
    requires sid in st.streams.m
  {
    var s := st.streams.m[sid];
    && s.id == sid
    && s.watchers.Valid()
    && s.watchers.m != map[]
    && s.feed == Some(Pipeline(s.filters))
    && forall id | id in s.watchers.m ::
      && id in st.watchers.m
      && st.watchers.m[id] == s.watchers.m[id]
      && s.watchers.m[id].stream == sid
  }

  /** No stream would have been reused for a later one. */
  ghost predicate StreamsDistinct(order: seq<StreamId>, m: map<StreamId, Stream>) {
    forall i, j | 0 <= i < j < |order| && order[i] in m && order[j] in m ::
      !Matches(m[order[i]], m[order[j]].collection, m[order[j]].filters)
  }

  ghost predicate WatchersOk(st: State) {
    forall id {:trigger WatcherOk(st, id)} | id in st.watchers.m :: WatcherOk(st, id)
  }

  ghost predicate StreamsOk(st: State) {
    forall sid {:trigger StreamOk(st, sid)} | sid in st.streams.m :: StreamOk(st, sid)
  }

  ghost predicate Inv(st: State) {
    && st.watchers.Valid()
    && st.streams.Valid()
    && WatchersOk(st)
    && StreamsOk(st)
    && StreamsDistinct(st.streams.order, st.streams.m)
  }

  lemma InitialInv()
    ensures Inv(Initial())
  {
  }

  // ---------------------------------------------------------------------
  // StreamsDistinct under the three ways the streams map changes

  lemma DistinctSameKeys(order: seq<StreamId>, m: map<StreamId, Stream>, m': map<StreamId, Stream>)
    requires StreamsDistinct(order, m)
    requires forall k | k in m' :: k in m && m'[k].collection == m[k].collection && m'[k].filters == m[k].filters
    ensures StreamsDistinct(order, m')
  {
  }

  lemma {:induction false} DistinctRemove(order: seq<StreamId>, m: map<StreamId, Stream>, k: StreamId)
    requires StreamsDistinct(order, m)
    ensures StreamsDistinct(Remove(order, k), m)
  {
    if |order| > 0 {
      var rest := order[1..];
      assert StreamsDistinct(rest, m) by {
        forall i, j | 0 <= i < j < |rest| && rest[i] in m && rest[j] in m
          ensures !Matches(m[rest[i]], m[rest[j]].collection, m[rest[j]].filters)
        {
          assert rest[i] == order[i + 1] && rest[j] == order[j + 1];
        }
      }
      DistinctRemove(rest, m, k);
      if order[0] != k {
        var r := Remove(order, k);
        var r' := Remove(rest, k);
        assert r == [order[0]] + r';
        forall i, j | 0 <= i < j < |r| && r[i] in m && r[j] in m
          ensures !Matches(m[r[i]], m[r[j]].collection, m[r[j]].filters)
        {
          if i == 0 {
            assert r[j] == r'[j - 1];
            assert r'[j - 1] in r';
            RemoveMembers(rest, k, r'[j - 1]);
            var j' :| 0 <= j' < |rest| && rest[j'] == r[j];
            assert order[j' + 1] == r[j];
          } else {
            assert r[i] == r'[i - 1] && r[j] == r'[j - 1];
          }
        }
      }
    }
  }

  lemma {:induction false} RemoveMembers(order: seq<StreamId>, k: StreamId, x: StreamId)
    requires x in Remove(order, k)
    ensures x in order
  {
    if |order| > 0 && order[0] != x {
      if order[0] != k {
        assert Remove(order, k) == [order[0]] + Remove(order[1..], k);
      }
      RemoveMembers(order[1..], k, x);
    }
  }

  lemma DistinctAppend(order: seq<StreamId>, m: map<StreamId, Stream>, sid: StreamId, s: Stream)
    requires StreamsDistinct(order, m)
    requires sid !in order && sid !in m
    requires forall i | 0 <= i < |order| && order[i] in m :: !Matches(m[order[i]], s.collection, s.filters)
    ensures StreamsDistinct(order + [sid], m[sid := s])
  {
    var o := order + [sid];
    var m' := m[sid := s];
    forall i, j | 0 <= i < j < |o| && o[i] in m' && o[j] in m'
      ensures !Matches(m'[o[i]], m'[o[j]].collection, m'[o[j]].filters)
    {
      assert o[i] == order[i];
      assert o[i] != sid;
      if j < |order| {
        assert o[j] == order[j];
        assert o[j] != sid;
      }
    }
  }

  // ---------------------------------------------------------------------
  // watch

  /** Joining an existing stream keeps the invariant. */
  lemma JoinPreservesInv(st: State, sid: StreamId, w: Watcher, r: State)
    requires Inv(st)
    requires sid in st.streams.m && w.stream == sid && w.id !in st.watchers.m
    requires r == State(st.clients, st.watchers.Set(w.id, w),
      st.streams.Set(sid, st.streams.m[sid].(watchers := st.streams.m[sid].watchers.Set(w.id, w))))
    ensures Inv(r)
  {
    JoinWatchersOk(st, sid, w, r);
    JoinStreamsOk(st, sid, w, r);
    DistinctSameKeys(st.streams.order, st.streams.m, r.streams.m);
  }

  lemma JoinWatchersOk(st: State, sid: StreamId, w: Watcher, r: State)
    requires Inv(st)
    requires sid in st.streams.m && w.stream == sid && w.id !in st.watchers.m
    requires r == State(st.clients, st.watchers.Set(w.id, w),
      st.streams.Set(sid, st.streams.m[sid].(watchers := st.streams.m[sid].watchers.Set(w.id, w))))
    ensures WatchersOk(r)
  {
    forall k | k in r.watchers.m ensures WatcherOk(r, k) {
      if k != w.id {
        assert WatcherOk(st, k);
      }
    }
  }

  lemma JoinStreamsOk(st: State, sid: StreamId, w: Watcher, r: State)
    requires Inv(st)
    requires sid in st.streams.m && w.stream == sid && w.id !in st.watchers.m
    requires r == State(st.clients, st.watchers.Set(w.id, w),
      st.streams.Set(sid, st.streams.m[sid].(watchers := st.streams.m[sid].watchers.Set(w.id, w))))
    ensures StreamsOk(r)
  {
    forall k | k in r.streams.m ensures StreamOk(r, k) {
      assert StreamOk(st, k);
    }
  }

  /** Creating a stream that no registered stream matches, started and with
      one watcher, keeps the invariant. */
  lemma CreatePreservesInv(st: State, s: Stream, w: Watcher, r: State)
    requires Inv(st)
    requires s.id !in st.streams.m && w.id !in st.watchers.m && w.stream == s.id
    requires s.watchers == Empty<WatcherId, Watcher>().Set(w.id, w)
    requires s.feed == Some(Pipeline(s.filters))
    requires r == State(st.clients, st.watchers.Set(w.id, w), st.streams.Set(s.id, s))
    requires forall i | 0 <= i < |st.streams.order| && st.streams.order[i] in st.streams.m ::
      !Matches(st.streams.m[st.streams.order[i]], s.collection, s.filters)
    ensures Inv(r)
  {
    CreateWatchersOk(st, s, w, r);
    CreateStreamsOk(st, s, w, r);
    assert s.id !in st.streams.order;
    DistinctAppend(st.streams.order, st.streams.m, s.id, s);
  }

  lemma CreateWatchersOk(st: State, s: Stream, w: Watcher, r: State)
    requires Inv(st)
    requires s.id !in st.streams.m && w.id !in st.watchers.m && w.stream == s.id
    requires s.watchers == Empty<WatcherId, Watcher>().Set(w.id, w)
    requires s.feed == Some(Pipeline(s.filters))
    requires r == State(st.clients, st.watchers.Set(w.id, w), st.streams.Set(s.id, s))
    ensures WatchersOk(r)
  {
    forall k | k in r.watchers.m ensures WatcherOk(r, k) {
      if k != w.id {
        assert WatcherOk(st, k);
      }
    }
  }

  lemma CreateStreamsOk(st: State, s: Stream, w: Watcher, r: State)
    requires Inv(st)
    requires s.id !in st.streams.m && w.id !in st.watchers.m && w.stream == s.id
    requires s.watchers == Empty<WatcherId, Watcher>().Set(w.id, w)
    requires s.feed == Some(Pipeline(s.filters))
    requires r == State(st.clients, st.watchers.Set(w.id, w), st.streams.Set(s.id, s))
    ensures StreamsOk(r)
  {
    forall k | k in r.streams.m ensures StreamOk(r, k) {
      if k != s.id {
        assert StreamOk(st, k);
      }
    }
  }

  /** A new watcher id keeps the invariant: the watcher lands in the global
      map and in the map of the stream it was matched or created for. */
  lemma AttachPreservesInv(st: State, conn: ConnId, id: WatcherId, db: string, collection: string, filters: Value, freshStream: StreamId)
    requires Inv(st)
    requires id !in st.watchers.m && freshStream !in st.streams.m
    ensures Inv(AttachWatcher(st, conn, id, db, collection, filters, freshStream).state)
  {
    var found := FindStream(st.streams, collection, filters);
    if found.Some? {
      AttachJoinsInv(st, conn, id, db, collection, filters, freshStream, found.value);
    } else {
      AttachCreatesInv(st, conn, id, db, collection, filters, freshStream);
    }
  }

  lemma AttachJoinsInv(st: State, conn: ConnId, id: WatcherId, db: string, collection: string, filters: Value, freshStream: StreamId, sid: StreamId)
    requires Inv(st)
    requires id !in st.watchers.m && freshStream !in st.streams.m
    requires FindStream(st.streams, collection, filters) == Some(sid)
    ensures Inv(AttachWatcher(st, conn, id, db, collection, filters, freshStream).state)
  {
    assert StreamOk(st, sid);
    var w := Watcher(id, db, collection, filters, conn, sid);
    JoinPreservesInv(st, sid, w, AttachWatcher(st, conn, id, db, collection, filters, freshStream).state);
  }

  lemma AttachCreatesInv(st: State, conn: ConnId, id: WatcherId, db: string, collection: string, filters: Value, freshStream: StreamId)
    requires Inv(st)
    requires id !in st.watchers.m && freshStream !in st.streams.m
    requires FindStream(st.streams, collection, filters).None?
    ensures Inv(AttachWatcher(st, conn, id, db, collection, filters, freshStream).state)
  {
    var w := Watcher(id, db, collection, filters, conn, freshStream);
    var s := Stream(freshStream, db, collection, filters, Empty<WatcherId, Watcher>().Set(id, w), Some(Pipeline(filters)));
    AttachCreatesState(st, conn, id, db, collection, filters, freshStream);
    CreatePreservesInv(st, s, w, AttachWatcher(st, conn, id, db, collection, filters, freshStream).state);
  }

  /** The registry after a `watch` that creates a stream. */
  lemma AttachCreatesState(st: State, conn: ConnId, id: WatcherId, db: string, collection: string, filters: Value, freshStream: StreamId)
    requires freshStream !in st.streams.m
    requires FindStream(st.streams, collection, filters).None?
    ensures var w := Watcher(id, db, collection, filters, conn, freshStream);
      var s := Stream(freshStream, db, collection, filters, Empty<WatcherId, Watcher>().Set(id, w), Some(Pipeline(filters)));
      AttachWatcher(st, conn, id, db, collection, filters, freshStream).state ==
        State(st.clients, st.watchers.Set(id, w), st.streams.Set(freshStream, s))
  {
    var w := Watcher(id, db, collection, filters, conn, freshStream);
    var s0 := Stream(freshStream, db, collection, filters, Empty(), None);
    var s2 := s0.(watchers := Empty<WatcherId, Watcher>().Set(id, w), feed := Some(Pipeline(filters)));
    assert st.streams.Set(freshStream, s0).Set(freshStream, s2) == st.streams.Set(freshStream, s2);
  }

  // ---------------------------------------------------------------------
  // cancel

  /** The last watcher leaves: the stream is removed. */
  lemma LeaveLastPreservesInv(st: State, w: Watcher, r: State)
    requires Inv(st)
    requires w.id in st.watchers.m && st.watchers.m[w.id] == w
    requires w.stream in st.streams.m && st.streams.m[w.stream].watchers.Delete(w.id).m == map[]
    requires r == st.(watchers := st.watchers.Delete(w.id), streams := st.streams.Delete(w.stream))
    ensures Inv(r)
  {
    LeaveLastWatchersOk(st, w, r);
    LeaveLastStreamsOk(st, w, r);
    DistinctRemove(st.streams.order, st.streams.m, w.stream);
    DistinctSameKeys(r.streams.order, st.streams.m, r.streams.m);
  }

  lemma LeaveLastWatchersOk(st: State, w: Watcher, r: State)
    requires Inv(st)
    requires w.id in st.watchers.m && st.watchers.m[w.id] == w
    requires w.stream in st.streams.m && st.streams.m[w.stream].watchers.Delete(w.id).m == map[]
    requires r == st.(watchers := st.watchers.Delete(w.id), streams := st.streams.Delete(w.stream))
    ensures WatchersOk(r)
  {
    var s := st.streams.m[w.stream];
    assert StreamOk(st, w.stream);
    forall k | k in r.watchers.m ensures WatcherOk(r, k) {
      assert WatcherOk(st, k);
      assert st.watchers.m[k].stream == w.stream ==> k in s.watchers.Delete(w.id).m;
    }
  }

  lemma LeaveLastStreamsOk(st: State, w: Watcher, r: State)
    requires Inv(st)
    requires w.id in st.watchers.m && st.watchers.m[w.id] == w
    requires w.stream in st.streams.m && st.streams.m[w.stream].watchers.Delete(w.id).m == map[]
    requires r == st.(watchers := st.watchers.Delete(w.id), streams := st.streams.Delete(w.stream))
    ensures StreamsOk(r)
  {
    forall k | k in r.streams.m ensures StreamOk(r, k) {
      assert StreamOk(st, k);
    }
  }

  /** A watcher leaves a stream that keeps others. */
  lemma LeavePreservesInv(st: State, w: Watcher, r: State)
    requires Inv(st)
    requires w.id in st.watchers.m && st.watchers.m[w.id] == w
    requires w.stream in st.streams.m && st.streams.m[w.stream].watchers.Delete(w.id).m != map[]
    requires r == st.(watchers := st.watchers.Delete(w.id),
      streams := st.streams.Set(w.stream, st.streams.m[w.stream].(watchers := st.streams.m[w.stream].watchers.Delete(w.id))))
    ensures Inv(r)
  {
    LeaveWatchersOk(st, w, r);
    LeaveStreamsOk(st, w, r);
    DistinctSameKeys(st.streams.order, st.streams.m, r.streams.m);
  }

  lemma LeaveWatchersOk(st: State, w: Watcher, r: State)
    requires Inv(st)
    requires w.id in st.watchers.m && st.watchers.m[w.id] == w
    requires w.stream in st.streams.m && st.streams.m[w.stream].watchers.Delete(w.id).m != map[]
    requires r == st.(watchers := st.watchers.Delete(w.id),
      streams := st.streams.Set(w.stream, st.streams.m[w.stream].(watchers := st.streams.m[w.stream].watchers.Delete(w.id))))
    ensures WatchersOk(r)
  {
    forall k | k in r.watchers.m ensures WatcherOk(r, k) {
      assert WatcherOk(st, k);
    }
  }

  lemma LeaveStreamsOk(st: State, w: Watcher, r: State)
    requires Inv(st)
    requires w.id in st.watchers.m && st.watchers.m[w.id] == w
    requires w.stream in st.streams.m && st.streams.m[w.stream].watchers.Delete(w.id).m != map[]
    requires r == st.(watchers := st.watchers.Delete(w.id),
      streams := st.streams.Set(w.stream, st.streams.m[w.stream].(watchers := st.streams.m[w.stream].watchers.Delete(w.id))))
    ensures StreamsOk(r)
  {
    forall k | k in r.streams.m ensures StreamOk(r, k) {
      if k == w.stream {
        LeaveStreamOkSelf(st, w, r);
      } else {
        LeaveStreamOkOther(st, w, r, k);
      }
    }
  }

  lemma LeaveStreamOkSelf(st: State, w: Watcher, r: State)
    requires Inv(st)
    requires w.id in st.watchers.m && st.watchers.m[w.id] == w
    requires w.stream in st.streams.m && st.streams.m[w.stream].watchers.Delete(w.id).m != map[]
    requires r == st.(watchers := st.watchers.Delete(w.id),
      streams := st.streams.Set(w.stream, st.streams.m[w.stream].(watchers := st.streams.m[w.stream].watchers.Delete(w.id))))
    ensures w.stream in r.streams.m && StreamOk(r, w.stream)
  {
    var sid := w.stream;
    var s := st.streams.m[sid];
    var sw := s.watchers.Delete(w.id);
    assert StreamOk(st, sid);
    assert r.watchers.m == st.watchers.m - {w.id};
    assert r.streams.m[sid] == s.(watchers := sw);
    forall id | id in sw.m ensures id in r.watchers.m && r.watchers.m[id] == sw.m[id] && sw.m[id].stream == sid {
      assert id in s.watchers.m;
    }
  }

  lemma LeaveStreamOkOther(st: State, w: Watcher, r: State, k: StreamId)
    requires Inv(st)
    requires w.id in st.watchers.m && st.watchers.m[w.id] == w
    requires w.stream in st.streams.m
    requires r == st.(watchers := st.watchers.Delete(w.id),
      streams := st.streams.Set(w.stream, st.streams.m[w.stream].(watchers := st.streams.m[w.stream].watchers.Delete(w.id))))
    requires k in st.streams.m && k != w.stream
    ensures k in r.streams.m && StreamOk(r, k)
  {
    assert StreamOk(st, k);
    var sk := st.streams.m[k];
    assert r.streams.m[k] == sk;
    assert r.watchers.m == st.watchers.m - {w.id};
    forall id | id in sk.watchers.m ensures id in r.watchers.m && r.watchers.m[id] == sk.watchers.m[id] {
      assert id != w.id;
    }
  }

  /** `Watcher.cancel` on a registered watcher keeps the invariant. */
  lemma CancelPreservesInv(st: State, w: Watcher)
    requires Inv(st)
    requires w.id in st.watchers.m && st.watchers.m[w.id] == w
    ensures Inv(CancelWatcher(st, w).state)
  {
    assert WatcherOk(st, w.id);
    var s := st.streams.m[w.stream];
    assert StreamOk(st, w.stream);
    var sw := s.watchers.Delete(w.id);
    sw.SizeMatches();
    if sw.Size() == 0 {
      LeaveLastPreservesInv(st, w, CancelWatcher(st, w).state);
    } else {
      LeavePreservesInv(st, w, CancelWatcher(st, w).state);
    }
  }

  /** What `Watcher.cancel` does to the streams: the last watcher out
      closes the change stream and removes the stream; any other leaves the
      stream registered, minus that watcher, and closes nothing. */
  lemma CancelEffects(st: State, w: Watcher)
    requires Inv(st) && w.id in st.watchers.m && st.watchers.m[w.id] == w
    ensures w.stream in st.streams.m
    ensures var r := CancelWatcher(st, w);
      var last := st.streams.m[w.stream].watchers.m.Keys == {w.id};
      && (last ==> r.effects == [CloseFeed(w.stream)] && w.stream !in r.state.streams.m)
      && (!last ==>
            && r.effects == []
            && w.stream in r.state.streams.m
            && r.state.streams.m[w.stream].watchers.m == st.streams.m[w.stream].watchers.m - {w.id})
  {
    assert WatcherOk(st, w.id);
    var s := st.streams.m[w.stream];
    assert StreamOk(st, w.stream);
    var sw := s.watchers.Delete(w.id);
    sw.SizeMatches();
    if s.watchers.m.Keys == {w.id} {
      assert sw.m == map[];
    } else {
      var other :| other in s.watchers.m.Keys && other != w.id;
      assert other in sw.m;
    }
  }

  lemma WatchActionPreservesInv(st: State, conn: ConnId, action: seq<Field>, freshStream: StreamId)
    requires Inv(st) && freshStream !in st.streams.m
    requires Lookup(action, "watcher").Str? ==> Lookup(action, "watcher").s !in st.watchers.m
    ensures Inv(WatchAction(st, conn, action, freshStream).state)
  {
    if CheckParams(action, WatchParams).None? {
      assert Present(action, WatchParams[0]) && Present(action, WatchParams[1]) && Present(action, WatchParams[2]);
      AttachPreservesInv(st, conn, Lookup(action, "watcher").s, Lookup(action, "db").s, Lookup(action, "collection").s,
        Or(Lookup(action, "filters"), Obj([])), freshStream);
    }
  }

  lemma CancelActionPreservesInv(st: State, conn: ConnId, action: seq<Field>)
    requires Inv(st)
    ensures Inv(CancelAction(st, conn, action).state)
  {
    if CheckParams(action, CancelParams).None? {
      assert Present(action, CancelParams[0]);
      var id := Lookup(action, "watcher").s;
      if id in st.watchers.m {
        assert WatcherOk(st, id);
        CancelPreservesInv(st, st.watchers.m[id]);
      }
    }
  }

  /** Every action keeps the invariant, provided a `watch` does not reuse
      the id of a registered watcher. */
  lemma OnActionPreservesInv(st: State, conn: ConnId, action: seq<Field>, freshStream: StreamId)
    requires Inv(st) && freshStream !in st.streams.m
    requires Lookup(action, "action") == Str("watch") && Lookup(action, "watcher").Str? ==>
      Lookup(action, "watcher").s !in st.watchers.m
    ensures Inv(OnAction(st, conn, action, freshStream).state)
  {
    var tag := Lookup(action, "action");
    if tag == Str("watch") {
      WatchActionPreservesInv(st, conn, action, freshStream);
    } else if tag == Str("cancel") {
      CancelActionPreservesInv(st, conn, action);
    }
  }

  // ---------------------------------------------------------------------
  // connection close

  ghost function OwnedIds(ws: seq<Watcher>, conn: ConnId): set<WatcherId> {
    set i | 0 <= i < |ws| && ws[i].conn == conn :: ws[i].id
  }

  lemma OwnedIdsCons(ws: seq<Watcher>, conn: ConnId)
    requires |ws| > 0
    ensures OwnedIds(ws, conn) == (if ws[0].conn == conn then {ws[0].id} else {}) + OwnedIds(ws[1..], conn)
  {
    var rest := ws[1..];
    forall x | x in OwnedIds(ws, conn) ensures x in (if ws[0].conn == conn then {ws[0].id} else {}) + OwnedIds(rest, conn) {
      var i :| 0 <= i < |ws| && ws[i].conn == conn && ws[i].id == x;
      if i > 0 { assert rest[i - 1] == ws[i]; }
    }
    forall x | x in OwnedIds(rest, conn) ensures x in OwnedIds(ws, conn) {
      var i :| 0 <= i < |rest| && rest[i].conn == conn && rest[i].id == x;
      assert ws[i + 1] == rest[i];
    }
  }

  /** `ws` lists registered watchers, each once. */
  ghost predicate Registered(st: State, ws: seq<Watcher>) {
    && (forall i | 0 <= i < |ws| :: ws[i].id in st.watchers.m && st.watchers.m[ws[i].id] == ws[i])
    && (forall i, j | 0 <= i < j < |ws| :: ws[i].id != ws[j].id)
  }

  /** One step of the fold: visiting `w` cancels it when `conn` owns it. */
  lemma CancelOwnedHead(st: State, conn: ConnId, ws: seq<Watcher>, st1: State)
    requires Inv(st) && |ws| > 0 && Registered(st, ws)
    requires st1 == (if ws[0].conn == conn then CancelWatcher(st, ws[0]) else Step(st, [])).state
    ensures Inv(st1) && st1.clients == st.clients
    ensures st1.watchers.m == st.watchers.m - (if ws[0].conn == conn then {ws[0].id} else {})
    ensures Registered(st1, ws[1..])
  {
    if ws[0].conn == conn {
      CancelPreservesInv(st, ws[0]);
    }
    var rest := ws[1..];
    forall i | 0 <= i < |rest| ensures rest[i].id in st1.watchers.m && st1.watchers.m[rest[i].id] == rest[i] {
      assert rest[i] == ws[i + 1];
    }
    forall i, j | 0 <= i < j < |rest| ensures rest[i].id != rest[j].id {
      assert rest[i] == ws[i + 1] && rest[j] == ws[j + 1];
    }
  }

  lemma {:induction false} CancelOwnedPreservesInv(st: State, conn: ConnId, ws: seq<Watcher>)
    requires Inv(st) && Registered(st, ws)
    ensures Inv(CancelOwned(st, conn, ws).state)
    ensures CancelOwned(st, conn, ws).state.watchers.m == st.watchers.m - OwnedIds(ws, conn)
    ensures CancelOwned(st, conn, ws).state.clients == st.clients
    decreases |ws|
  {
    if |ws| > 0 {
      var first := if ws[0].conn == conn then CancelWatcher(st, ws[0]) else Step(st, []);
      CancelOwnedHead(st, conn, ws, first.state);
      CancelOwnedPreservesInv(first.state, conn, ws[1..]);
      OwnedIdsCons(ws, conn);
    }
  }

  /** Closing a connection cancels exactly the watchers it owns, keeps the
      invariant (so every stream left without watchers is removed), and leaves the other connections' watchers untouched. */
  lemma CloseConnectionCancelsOwned(st: State, conn: ConnId)
    requires Inv(st)
    ensures var r := CloseConnection(st, conn).state;
      && Inv(r)
      && r.clients == st.clients - {conn}
      && (forall id | id in r.watchers.m :: r.watchers.m[id].conn != conn)
      && (forall id | id in st.watchers.m && st.watchers.m[id].conn != conn ::
            id in r.watchers.m && r.watchers.m[id] == st.watchers.m[id])
  {
    var st1 := st.(clients := st.clients - {conn});
    var ws := st.watchers.Values();
    DropClientKeepsInv(st, conn);
    ValuesAreRegistered(st);
    CancelOwnedPreservesInv(st1, conn, ws);
    OwnedIdsOfValues(st, conn);
  }

  /** A new connection keeps the invariant. */
  lemma AcceptPreservesInv(st: State, conn: ConnId)
    requires Inv(st) && conn !in st.clients
    ensures Inv(Accept(st, conn))
    ensures Accept(st, conn).clients == st.clients + {conn}
  {
    var r := Accept(st, conn);
    forall id | id in r.watchers.m ensures WatcherOk(r, id) {
      assert WatcherOk(st, id);
    }
    forall sid | sid in r.streams.m ensures StreamOk(r, sid) {
      assert StreamOk(st, sid);
    }
  }

  /** Forgetting a client touches neither table. */
  lemma DropClientKeepsInv(st: State, conn: ConnId)
    requires Inv(st)
    ensures Inv(st.(clients := st.clients - {conn}))
  {
    var st1 := st.(clients := st.clients - {conn});
    assert WatchersOk(st1) by {
      forall id | id in st1.watchers.m ensures WatcherOk(st1, id) {
        assert WatcherOk(st, id);
      }
    }
    assert StreamsOk(st1) by {
      forall sid | sid in st1.streams.m ensures StreamOk(st1, sid) {
        assert StreamOk(st, sid);
      }
    }
  }

  /** The snapshot `watchers.values()` lists registered watchers, each once. */
  lemma ValuesAreRegistered(st: State)
    requires Inv(st)
    ensures Registered(st, st.watchers.Values())
  {
    var ws := st.watchers.Values();
    forall i | 0 <= i < |ws| ensures ws[i].id == st.watchers.order[i] {
      assert WatcherOk(st, st.watchers.order[i]);
    }
  }

  /** The watchers of the snapshot that `conn` owns are exactly the
      registered watchers `conn` owns. */
  lemma OwnedIdsOfValues(st: State, conn: ConnId)
    requires Inv(st)
    ensures forall id :: id in OwnedIds(st.watchers.Values(), conn) <==> id in st.watchers.m && st.watchers.m[id].conn == conn
  {
    var ws := st.watchers.Values();
    forall i | 0 <= i < |ws| ensures ws[i].id == st.watchers.order[i] {
      assert WatcherOk(st, st.watchers.order[i]);
    }
    forall id | id in st.watchers.m && st.watchers.m[id].conn == conn ensures id in OwnedIds(ws, conn) {
      var i :| 0 <= i < |st.watchers.order| && st.watchers.order[i] == id;
      assert ws[i].id == id && ws[i].conn == conn;
    }
    forall id | id in OwnedIds(ws, conn) ensures id in st.watchers.m && st.watchers.m[id].conn == conn {
      var i :| 0 <= i < |ws| && ws[i].conn == conn && ws[i].id == id;
    }
  }
}
