/** What a client can observe of the registry: which stream a `watch`
    reuses, which actions are turned away, how broadcasting reaches the
    watchers of a stream, and two behaviours of the registry that the
    invariant does not rule out. */
module ServerFacts {
  import opened Base
  import opened Values
  import opened Equality
  import opened Filters
  import opened JsMap
  import opened Server
  import opened ServerProofs

  /** The stream a `watch` reuses, if any: the first match in iteration
      order. */
  ghost predicate FirstMatchAt(st: State, collection: string, filters: Value, i: int) {
    && 0 <= i < |st.streams.order|
    && st.streams.order[i] in st.streams.m
    && Matches(st.streams.m[st.streams.order[i]], collection, filters)
    && forall j | 0 <= j < i :: !(st.streams.order[j] in st.streams.m && Matches(st.streams.m[st.streams.order[j]], collection, filters))
  }

  /** A `watch` whose filters match a registered stream joins the first such
      stream in iteration order, the one at position `i`, adds no stream and
      opens nothing upstream. */
  lemma WatchReusesFirstMatch(st: State, conn: ConnId, id: WatcherId, db: string, collection: string, filters: Value, freshStream: StreamId, i: int)
    requires st.streams.Valid() && freshStream !in st.streams.m
    requires forall sid | sid in st.streams.m :: st.streams.m[sid].feed.Some?
    requires FirstMatchAt(st, collection, filters, i)
    ensures var r := AttachWatcher(st, conn, id, db, collection, filters, freshStream);
      var sid := st.streams.order[i];
      var w := Watcher(id, db, collection, filters, conn, sid);
      && r.effects == []
      && r.state.clients == st.clients
      && r.state.streams.order == st.streams.order
      && r.state.watchers.m == st.watchers.m[id := w]
      && r.state.streams.m == st.streams.m[sid := st.streams.m[sid].(watchers := st.streams.m[sid].watchers.Set(id, w))]
  {
    var found := FindStream(st.streams, collection, filters);
    var k :| 0 <= k < |st.streams.order| && st.streams.order[k] == found.value
      && forall j | 0 <= j < k :: !(st.streams.order[j] in st.streams.m && Matches(st.streams.m[st.streams.order[j]], collection, filters));
    assert k == i;
  }

  /** Whenever some registered stream matches, there is a first one. */
  lemma FirstMatchExists(st: State, collection: string, filters: Value, k: StreamId) returns (i: int)
    requires st.streams.Valid()
    requires k in st.streams.m && Matches(st.streams.m[k], collection, filters)
    ensures FirstMatchAt(st, collection, filters, i)
  {
    var found := FindStream(st.streams, collection, filters);
    i :| 0 <= i < |st.streams.order| && st.streams.order[i] == found.value
      && forall j | 0 <= j < i :: !(st.streams.order[j] in st.streams.m && Matches(st.streams.m[st.streams.order[j]], collection, filters));
  }

  /** A `watch` whose filters match no registered stream appends exactly one
      stream, holding just this watcher, and opens exactly one change stream
      with the pipeline built from its filters. */
  lemma WatchCreatesStream(st: State, conn: ConnId, id: WatcherId, db: string, collection: string, filters: Value, freshStream: StreamId)
    requires st.streams.Valid() && freshStream !in st.streams.m
    requires forall k | k in st.streams.m :: !Matches(st.streams.m[k], collection, filters)
    ensures var r := AttachWatcher(st, conn, id, db, collection, filters, freshStream);
      var w := Watcher(id, db, collection, filters, conn, freshStream);
      && r.effects == [OpenFeed(freshStream, db, collection, Pipeline(filters))]
      && r.state.clients == st.clients
      && r.state.streams.order == st.streams.order + [freshStream]
      && r.state.watchers.m == st.watchers.m[id := w]
      && r.state.streams.m[freshStream].watchers.m == map[id := w]
  {
    var found := FindStream(st.streams, collection, filters);
    assert found.None?;
  }

  /** The first watcher of a stream starts it; later ones find it started. */
  lemma StartOnce(s: Stream)
    ensures Start(s).0.feed == (if s.feed.Some? then s.feed else Some(Pipeline(s.filters)))
    ensures Start(Start(s).0) == (Start(s).0, [])
    ensures s.feed.None? ==> Start(s).1 == [OpenFeed(s.id, s.db, s.collection, Pipeline(s.filters))]
  {
  }

  /** An action with no `watcher` string, or of an unknown kind, changes
      nothing and ends the connection with exactly one error frame. */
  lemma RejectedActionsChangeNothing(st: State, conn: ConnId, action: seq<Field>, freshStream: StreamId)
    requires freshStream !in st.streams.m
    ensures var tag := Lookup(action, "action");
      var r := OnAction(st, conn, action, freshStream);
      (tag != Str("watch") && tag != Str("cancel")) || !Lookup(action, "watcher").Str? || Lookup(action, "watcher").s == "" ==>
        && r.state == st
        && |r.effects| == 1
        && r.effects[0].End?
        && r.effects[0].conn == conn
        && r.effects[0].msg.Obj?
        && Lookup(r.effects[0].msg.fields, "error").Str?
  {
    var tag := Lookup(action, "action");
    if tag == Str("watch") {
      assert WatchParams[0] == "watcher";
    } else if tag == Str("cancel") {
      assert CancelParams[0] == "watcher";
    }
  }

  /** A `watch` without a non-empty `db` or `collection` string is turned
      away the same way. */
  lemma WatchNeedsDbAndCollection(st: State, conn: ConnId, action: seq<Field>, freshStream: StreamId)
    requires freshStream !in st.streams.m
    requires Lookup(action, "action") == Str("watch")
    requires !(Lookup(action, "db").Str? && Lookup(action, "db").s != "") || !(Lookup(action, "collection").Str? && Lookup(action, "collection").s != "")
    ensures var r := OnAction(st, conn, action, freshStream);
      r.state == st && |r.effects| == 1 && r.effects[0].End? && r.effects[0].conn == conn
  {
    assert WatchParams[1] == "db" && WatchParams[2] == "collection";
  }

  /** Cancelling an id that is not registered is silently ignored. */
  lemma CancelUnknownIsIgnored(st: State, conn: ConnId, action: seq<Field>)
    requires Lookup(action, "watcher").Str? && Lookup(action, "watcher").s != ""
    requires Lookup(action, "watcher").s !in st.watchers.m
    ensures CancelAction(st, conn, action) == Step(st, [])
  {
    assert forall i | 0 <= i < |CancelParams| :: CancelParams[i] == "watcher";
  }

  /** Every frame a change produces goes to a registered watcher of that
      stream. */
  lemma BroadcastOnlyAttached(st: State, sid: StreamId, data: Value, i: nat)
    requires Inv(st) && sid in st.streams.m
    requires i < |Broadcast(st, sid, data).effects|
    ensures exists id | id in st.watchers.m ::
      && st.watchers.m[id].stream == sid
      && Broadcast(st, sid, data).effects[i] == Write(st.watchers.m[id].conn, ChangeMsg(id, data))
  {
    var r := Broadcast(st, sid, data);
    assert StreamOk(st, sid);
    var s := st.streams.m[sid];
    var id := s.watchers.order[i];
    assert id in s.watchers.m;
    assert WatcherOk(st, id);
    assert st.watchers.m[id].stream == sid && r.effects[i] == Write(st.watchers.m[id].conn, ChangeMsg(id, data));
  }

  /** Every registered watcher of a stream gets a frame for each change. */
  lemma BroadcastReachesAttached(st: State, sid: StreamId, data: Value, id: WatcherId)
    requires Inv(st)
    requires id in st.watchers.m && st.watchers.m[id].stream == sid
    ensures Write(st.watchers.m[id].conn, ChangeMsg(id, data)) in Broadcast(st, sid, data).effects
  {
    assert WatcherOk(st, id);
    assert StreamOk(st, sid);
    var s := st.streams.m[sid];
    var i :| 0 <= i < |s.watchers.order| && s.watchers.order[i] == id;
    assert Broadcast(st, sid, data).effects[i] == Write(st.watchers.m[id].conn, ChangeMsg(id, data));
  }

  // ---------------------------------------------------------------------
  // Scenarios, on a fresh server with one connection `conn`

  /** The first subscription on an empty registry opens one stream. */
  lemma FirstWatchOpensStream(conn: ConnId, w1: WatcherId, db: string, collection: string, f: Value, s1: StreamId, r1: Step)
    requires WellFormed(f)
    requires r1 == AttachWatcher(Accept(Initial(), conn), conn, w1, db, collection, f, s1)
    ensures r1.effects == [OpenFeed(s1, db, collection, Pipeline(f))]
    ensures r1.state.streams.Valid() && r1.state.streams.order == [s1]
    ensures forall sid | sid in r1.state.streams.m :: r1.state.streams.m[sid].feed.Some?
    ensures r1.state.watchers.m.Keys == {w1}
    ensures r1.state.streams.m[s1].watchers.m.Keys == {w1}
    ensures r1.state.streams.m[s1].db == db
    ensures FirstMatchAt(r1.state, collection, f, 0)
  {
    FirstWatchTables(conn, w1, db, collection, f, s1, r1);
    FirstWatchOrder(conn, w1, db, collection, f, s1, r1);
    FirstWatchWatchers(conn, w1, db, collection, f, s1, r1);
    FirstWatchStream(conn, w1, db, collection, f, s1, r1);
    FirstWatchStreamWatchers(conn, w1, db, collection, f, s1, r1);
    CompareReflexive(f);
  }

  /** After the first subscription: one stream, one watcher, one upstream
      change stream opened. */
  lemma FirstWatchTables(conn: ConnId, w1: WatcherId, db: string, collection: string, f: Value, s1: StreamId, r1: Step)
    requires r1 == AttachWatcher(Accept(Initial(), conn), conn, w1, db, collection, f, s1)
    ensures r1.effects == [OpenFeed(s1, db, collection, Pipeline(f))]
    ensures r1.state.streams.m.Keys == {s1}
  {
  }

  /** The first subscription's stream is the only one in iteration order. */
  lemma FirstWatchOrder(conn: ConnId, w1: WatcherId, db: string, collection: string, f: Value, s1: StreamId, r1: Step)
    requires r1 == AttachWatcher(Accept(Initial(), conn), conn, w1, db, collection, f, s1)
    ensures r1.state.streams.order == [s1]
  {
  }

  /** The one watcher the first subscription registers. */
  lemma FirstWatchWatchers(conn: ConnId, w1: WatcherId, db: string, collection: string, f: Value, s1: StreamId, r1: Step)
    requires r1 == AttachWatcher(Accept(Initial(), conn), conn, w1, db, collection, f, s1)
    ensures r1.state.watchers.m.Keys == {w1} && r1.state.watchers.m[w1] == Watcher(w1, db, collection, f, conn, s1)
  {
  }

  /** The stream the first subscription creates, started. */
  lemma FirstWatchStream(conn: ConnId, w1: WatcherId, db: string, collection: string, f: Value, s1: StreamId, r1: Step)
    requires r1 == AttachWatcher(Accept(Initial(), conn), conn, w1, db, collection, f, s1)
    ensures s1 in r1.state.streams.m
    ensures var s := r1.state.streams.m[s1];
      && s.id == s1 && s.db == db && s.collection == collection && s.filters == f
      && s.feed == Some(Pipeline(f))
  {
  }

  /** The one watcher of the stream the first subscription creates. */
  lemma FirstWatchStreamWatchers(conn: ConnId, w1: WatcherId, db: string, collection: string, f: Value, s1: StreamId, r1: Step)
    requires r1 == AttachWatcher(Accept(Initial(), conn), conn, w1, db, collection, f, s1)
    ensures s1 in r1.state.streams.m
    ensures var s := r1.state.streams.m[s1];
      s.watchers.m.Keys == {w1} && s.watchers.m[w1] == Watcher(w1, db, collection, f, conn, s1)
  {
  }

  /** After two equal subscriptions: one stream, both watchers on it. */
  lemma TwoEqualWatchesShareStream(conn: ConnId, w1: WatcherId, w2: WatcherId, db: string, collection: string, f: Value,
                                   s1: StreamId, s2: StreamId, r1: Step, r2: Step)
    requires WellFormed(f) && s1 != s2
    requires r1 == AttachWatcher(Accept(Initial(), conn), conn, w1, db, collection, f, s1)
    requires r2 == AttachWatcher(r1.state, conn, w2, db, collection, f, s2)
    ensures r1.effects == [OpenFeed(s1, db, collection, Pipeline(f))]
    ensures r2.effects == []
    ensures r2.state.streams.order == [s1]
    ensures r2.state.watchers.m.Keys == {w1, w2}
    ensures r2.state.streams.m[s1].watchers.m.Keys == {w1, w2}
  {
    FirstWatchOpensStream(conn, w1, db, collection, f, s1, r1);
    SecondWatchJoins(r1.state, conn, w1, w2, db, collection, f, s1, s2, r2);
  }

  /** A second equal subscription joins the only stream. */
  lemma SecondWatchJoins(st: State, conn: ConnId, w1: WatcherId, w2: WatcherId, db: string, collection: string, f: Value,
                         s1: StreamId, s2: StreamId, r2: Step)
    requires st.streams.Valid() && st.streams.order == [s1] && s1 in st.streams.m && s1 != s2
    requires forall sid | sid in st.streams.m :: st.streams.m[sid].feed.Some?
    requires st.watchers.m.Keys == {w1}
    requires st.streams.m[s1].watchers.m.Keys == {w1}
    requires FirstMatchAt(st, collection, f, 0)
    requires r2 == AttachWatcher(st, conn, w2, db, collection, f, s2)
    ensures r2.effects == []
    ensures r2.state.streams.order == [s1]
    ensures r2.state.watchers.m.Keys == {w1, w2}
    ensures r2.state.streams.m[s1].watchers.m.Keys == {w1, w2}
  {
    assert s2 !in st.streams.m;
    WatchReusesFirstMatch(st, conn, w2, db, collection, f, s2, 0);
  }

  /** Cancelling one of two watchers keeps the stream open; cancelling the
      other closes it and leaves the registry empty. */
  lemma LastCancelClosesStream(st: State, s: StreamId, w1: WatcherId, w2: WatcherId, c1: Step, c2: Step)
    requires Inv(st) && w1 != w2
    requires st.streams.order == [s]
    requires st.watchers.m.Keys == {w1, w2}
    requires c1 == CancelWatcher(st, st.watchers.m[w1])
    requires w2 in c1.state.watchers.m
    requires c2 == CancelWatcher(c1.state, c1.state.watchers.m[w2])
    ensures c1.effects == [] && c1.state.streams.order == [s]
    ensures c2.effects == [CloseFeed(s)]
    ensures c2.state.streams.m == map[] && c2.state.watchers.m == map[]
  {
    LastCancelFirst(st, s, w1, w2, c1);
    CancelPreservesInv(st, st.watchers.m[w1]);
    LastCancelSecond(c1.state, s, w2, c2);
  }

  /** Cancelling one of two watchers of the only stream keeps it open. */
  lemma LastCancelFirst(st: State, s: StreamId, w1: WatcherId, w2: WatcherId, c1: Step)
    requires Inv(st) && w1 != w2
    requires st.streams.order == [s]
    requires st.watchers.m.Keys == {w1, w2}
    requires c1 == CancelWatcher(st, st.watchers.m[w1])
    ensures c1.effects == [] && c1.state.streams.order == [s]
    ensures c1.state.watchers.m.Keys == {w2}
  {
    OnlyStreamHoldsAll(st, s);
    assert WatcherOk(st, w1);
    var t := st.streams.m[s].watchers;
    var t1 := t.Delete(w1);
    assert t1.m.Keys == {w2};
    t1.SizeMatches();
    assert (st.watchers.m - {w1}).Keys == {w2};
  }

  /** With one registered stream, that stream holds every watcher. */
  lemma OnlyStreamHoldsAll(st: State, s: StreamId)
    requires Inv(st) && st.streams.order == [s]
    ensures s in st.streams.m && st.streams.m[s].watchers.Valid()
    ensures st.streams.m[s].watchers.m.Keys == st.watchers.m.Keys
    ensures forall id | id in st.watchers.m :: st.watchers.m[id].stream == s
  {
    assert st.streams.order[0] == s && st.streams.order[0] in st.streams.m;
    assert StreamOk(st, s);
    forall id | id in st.watchers.m ensures id in st.streams.m[s].watchers.m && st.watchers.m[id].stream == s {
      assert WatcherOk(st, id);
    }
  }

  /** Cancelling the last watcher of the only stream closes it and leaves
      the registry empty. */
  lemma LastCancelSecond(st: State, s: StreamId, w2: WatcherId, c2: Step)
    requires Inv(st)
    requires st.streams.order == [s]
    requires st.watchers.m.Keys == {w2}
    requires c2 == CancelWatcher(st, st.watchers.m[w2])
    ensures c2.effects == [CloseFeed(s)]
    ensures c2.state.streams.m == map[] && c2.state.watchers.m == map[]
  {
    assert WatcherOk(st, w2);
    assert StreamOk(st, s);
    var t := st.streams.m[s].watchers;
    assert t.m.Keys == {w2};
    var t1 := t.Delete(w2);
    assert t1.m == map[];
    t1.SizeMatches();
    assert st.streams.m.Keys == {s};
  }

  /** The database is not part of the reuse test: a `watch` on another
      database's collection of the same name joins the existing stream and
      receives that database's changes. */
  lemma DatabaseNotInStreamKey(conn: ConnId, w1: WatcherId, w2: WatcherId, db1: string, db2: string, collection: string, f: Value,
                               s1: StreamId, s2: StreamId, r1: Step, r2: Step)
    requires WellFormed(f) && s1 != s2 && db1 != db2
    requires r1 == AttachWatcher(Accept(Initial(), conn), conn, w1, db1, collection, f, s1)
    requires r2 == AttachWatcher(r1.state, conn, w2, db2, collection, f, s2)
    ensures r2.effects == []
    ensures r2.state.watchers.m[w2].stream == s1
    ensures r2.state.streams.m[s1].db == db1
  {
    FirstWatchOpensStream(conn, w1, db1, collection, f, s1, r1);
    WatchReusesFirstMatch(r1.state, conn, w2, db2, collection, f, s2, 0);
  }

  /** A second `watch` under an id already in use overwrites the global entry
      but not the first stream's entry; cancelling the id then leaves the
      first stream open with a watcher nobody can cancel. Ids are
      `ObjectID`s in the client, so this takes a client that reuses one. */
  lemma DuplicateIdLeavesStaleStream(conn: ConnId, w: WatcherId, db: string, a: string, b: string, f: Value,
                                     s1: StreamId, s2: StreamId, r1: Step, r2: Step, c: Step)
    requires s1 != s2 && a != b
    requires r1 == AttachWatcher(Accept(Initial(), conn), conn, w, db, a, f, s1)
    requires r2 == AttachWatcher(r1.state, conn, w, db, b, f, s2)
    requires w in r2.state.watchers.m
    requires c == CancelWatcher(r2.state, r2.state.watchers.m[w])
    ensures c.state.watchers.m == map[]
    ensures s1 in c.state.streams.m && c.state.streams.m[s1].feed.Some?
    ensures !Inv(c.state)
  {
    FirstWatchTables(conn, w, db, a, f, s1, r1);
    FirstWatchOrder(conn, w, db, a, f, s1, r1);
    FirstWatchWatchers(conn, w, db, a, f, s1, r1);
    FirstWatchStream(conn, w, db, a, f, s1, r1);
    FirstWatchStreamWatchers(conn, w, db, a, f, s1, r1);
    DuplicateIdSecondWatch(r1.state, conn, w, db, a, b, f, s1, s2, r2);
    CancelKeepsOtherStreams(r2.state, r2.state.watchers.m[w], s1);
    assert !StreamOk(c.state, s1);
  }

  /** The second `watch` of the duplicate-id scenario finds no stream for
      its collection, so it opens its own and leaves the first stream's
      entry for the id in place. */
  lemma DuplicateIdSecondWatch(st: State, conn: ConnId, w: WatcherId, db: string, a: string, b: string, f: Value,
                               s1: StreamId, s2: StreamId, r2: Step)
    requires s1 != s2 && a != b
    requires st.streams.order == [s1] && st.streams.m.Keys == {s1} && st.streams.m[s1].collection == a
    requires st.watchers.m.Keys == {w}
    requires r2 == AttachWatcher(st, conn, w, db, b, f, s2)
    ensures r2.state.watchers.m.Keys == {w} && r2.state.watchers.m[w].stream == s2
    ensures s1 in r2.state.streams.m && r2.state.streams.m[s1] == st.streams.m[s1]
    ensures s2 in r2.state.streams.m && r2.state.streams.m[s2].id == s2
  {
    assert FindStream(st.streams, b, f).None?;
  }

  /** Cancelling a watcher leaves every stream other than its own as it
      was. */
  lemma CancelKeepsOtherStreams(st: State, w: Watcher, sid: StreamId)
    requires sid in st.streams.m && sid != w.stream
    requires w.stream in st.streams.m ==> st.streams.m[w.stream].id == w.stream
    ensures sid in CancelWatcher(st, w).state.streams.m
    ensures CancelWatcher(st, w).state.streams.m[sid] == st.streams.m[sid]
  {
  }
}
