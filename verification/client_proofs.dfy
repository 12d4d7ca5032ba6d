/** Properties of the client's connection manager: the handle table never
    holds two handles that one `watch` could both reuse, every live handle
    has a positive count, `close` undoes `watch`, a reconnect replays every
    live handle once, and the deframer is insensitive to how a frame is cut
    into chunks. */
module ClientProofs {
  import opened Base
  import opened Values
  import opened Equality
  import opened JsMap
  import opened Framing
  import opened Client

  /** No handle could have served a later one's `watch`. */
  ghost predicate HandlesDistinct(order: seq<string>, m: map<string, Handle>) {
    forall i, j | 0 <= i < j < |order| && order[i] in m && order[j] in m ::
      !Serves(m[order[i]], m[order[j]].db, m[order[j]].collection, m[order[j]].filters)
  }

  /** Every live handle is stored under its own id and has been watched more
      often than closed. */
  ghost predicate HandlesOk(t: Table<string, Handle>) {
    forall id | id in t.m :: t.m[id].id == id && t.m[id].count >= 1
  }

  ghost predicate Inv(st: ClientState) {
    && st.handles.Valid()
    && HandlesOk(st.handles)
    && HandlesDistinct(st.handles.order, st.handles.m)
    && (st.connected ==> st.socket)
  }

  lemma InitialInv()
    ensures Inv(Initial())
  {
  }

  // ---------------------------------------------------------------------
  // watch

  /** A `watch` the table can serve returns a live handle, one count
      higher, and writes nothing. */
  lemma WatchReuses(st: ClientState, db: string, collection: string, filters: Value, freshId: string, k: string)
    requires Inv(st) && freshId !in st.handles.m
    requires k in st.handles.m && Serves(st.handles.m[k], db, collection, Or(filters, Obj([])))
    ensures var (r, id) := Watch(st, db, collection, filters, freshId);
      && id in st.handles.m
      && r.handles.order == st.handles.order
      && r.handles.m == st.handles.m[id := st.handles.m[id].(count := st.handles.m[id].count + 1)]
      && r.writes == st.writes && r.socket
  {
    var found := FindSome(st, db, collection, Or(filters, Obj([])), k);
    ReuseState(st, db, collection, filters, freshId, found);
  }

  /** The handle reused is the first one, in table order, that serves the
      `watch`. */
  lemma WatchReusesFirst(st: ClientState, db: string, collection: string, filters: Value, freshId: string, k: string)
    requires Inv(st) && freshId !in st.handles.m
    requires k in st.handles.m && Serves(st.handles.m[k], db, collection, Or(filters, Obj([])))
    ensures var id := Watch(st, db, collection, filters, freshId).1;
      var f := Or(filters, Obj([]));
      && id in st.handles.m
      && Serves(st.handles.m[id], db, collection, f)
      && (forall j | 0 <= j < |st.handles.order| && st.handles.order[j] == id ::
            forall i | 0 <= i < j :: !Serves(st.handles.m[st.handles.order[i]], db, collection, f))
  {
    var f := Or(filters, Obj([]));
    var found := FindSome(st, db, collection, f, k);
    var id := st.handles.order[found];
    ReuseState(st, db, collection, filters, freshId, found);
    forall j | 0 <= j < |st.handles.order| && st.handles.order[j] == id
      ensures forall i | 0 <= i < j :: !Serves(st.handles.m[st.handles.order[i]], db, collection, f)
    {
      assert j == found;
    }
  }

  /** When some handle serves the request, the search finds one, stored
      under its own id. */
  lemma FindSome(st: ClientState, db: string, collection: string, f: Value, k: string) returns (i: nat)
    requires Inv(st)
    requires k in st.handles.m && Serves(st.handles.m[k], db, collection, f)
    ensures FindHandle(st.handles.order, st.handles.m, db, collection, f) == Some(i)
    ensures st.handles.m[st.handles.order[i]].id == st.handles.order[i]
  {
    var found := FindHandle(st.handles.order, st.handles.m, db, collection, f);
    assert found.Some? by {
      var j :| 0 <= j < |st.handles.order| && st.handles.order[j] == k;
    }
    i := found.value;
  }

  /** The state after a `watch` the handle at position `i` serves. */
  lemma ReuseState(st: ClientState, db: string, collection: string, filters: Value, freshId: string, i: nat)
    requires freshId !in st.handles.m
    requires FindHandle(st.handles.order, st.handles.m, db, collection, Or(filters, Obj([]))) == Some(i)
    ensures var h := st.handles.m[st.handles.order[i]];
      Watch(st, db, collection, filters, freshId) == (Connect(st).(handles := st.handles.Set(h.id, h.(count := h.count + 1))), h.id)
  {
  }

  /** Any other `watch` adds one handle with count 1 under the fresh id,
      written to the socket only when connected. */
  lemma WatchCreates(st: ClientState, db: string, collection: string, filters: Value, freshId: string)
    requires st.handles.Valid() && freshId !in st.handles.m
    requires forall k | k in st.handles.m :: !Serves(st.handles.m[k], db, collection, Or(filters, Obj([])))
    ensures var (r, id) := Watch(st, db, collection, filters, freshId);
      var h := Handle(freshId, db, collection, Or(filters, Obj([])), 1);
      && id == freshId
      && r.handles.order == st.handles.order + [freshId]
      && r.handles.m == st.handles.m[freshId := h]
      && r.writes == st.writes + (if st.connected then [WatchMsg(h)] else [])
      && r.socket
  {
  }

  lemma WatchPreservesInv(st: ClientState, db: string, collection: string, filters: Value, freshId: string)
    requires Inv(st) && freshId !in st.handles.m
    ensures Inv(Watch(st, db, collection, filters, freshId).0)
  {
    var f := Or(filters, Obj([]));
    var r := Watch(st, db, collection, filters, freshId).0;
    var found := FindHandle(st.handles.order, st.handles.m, db, collection, f);
    if found.Some? {
      ReuseState(st, db, collection, filters, freshId, found.value);
      assert st.handles.m[st.handles.order[found.value]].id == st.handles.order[found.value];
      BumpKeepsInv(st, r, st.handles.order[found.value]);
    } else {
      NoServerFound(st.handles, db, collection, f);
      WatchCreates(st, db, collection, filters, freshId);
      CreateKeepsInv(st, r, Handle(freshId, db, collection, f, 1));
    }
  }

  /** A search that finds nothing means no live handle serves the request. */
  lemma NoServerFound(t: Table<string, Handle>, db: string, collection: string, f: Value)
    requires t.Valid() && FindHandle(t.order, t.m, db, collection, f).None?
    ensures forall k | k in t.m :: !Serves(t.m[k], db, collection, f)
  {
    forall k | k in t.m ensures !Serves(t.m[k], db, collection, f) {
      var j :| 0 <= j < |t.order| && t.order[j] == k;
    }
  }

  lemma BumpKeepsInv(st: ClientState, r: ClientState, id: string)
    requires Inv(st) && r.socket && id in st.handles.m
    requires r.handles.order == st.handles.order
    requires r.handles.m == st.handles.m[id := st.handles.m[id].(count := st.handles.m[id].count + 1)]
    ensures Inv(r)
  {
  }

  lemma CreateKeepsInv(st: ClientState, r: ClientState, h: Handle)
    requires Inv(st) && r.socket && h.id !in st.handles.m && h.count == 1
    requires forall k | k in st.handles.m :: !Serves(st.handles.m[k], h.db, h.collection, h.filters)
    requires r.handles == st.handles.Set(h.id, h)
    ensures Inv(r)
  {
    AppendKeepsDistinct(st.handles, h.id, h);
  }

  lemma AppendKeepsDistinct(t: Table<string, Handle>, id: string, h: Handle)
    requires t.Valid() && id !in t.m
    requires HandlesDistinct(t.order, t.m)
    requires forall k | k in t.m :: !Serves(t.m[k], h.db, h.collection, h.filters)
    ensures HandlesDistinct(t.order + [id], t.m[id := h])
  {
    var o := t.order + [id];
    var m' := t.m[id := h];
    assert id !in t.order;
    forall i, j | 0 <= i < j < |o| && o[i] in m' && o[j] in m'
      ensures !Serves(m'[o[i]], m'[o[j]].db, m'[o[j]].collection, m'[o[j]].filters)
    {
      assert o[i] == t.order[i] && o[i] != id;
      if j < |t.order| {
        assert o[j] == t.order[j] && o[j] != id;
      }
    }
  }

  // ---------------------------------------------------------------------
  // close

  lemma ClosePreservesInv(st: ClientState, id: string)
    requires Inv(st) && id in st.handles.m
    requires st.handles.m[id].count <= 1 ==> st.socket
    ensures Inv(Close(st, id))
  {
    var r := Close(st, id);
    var h := st.handles.m[id];
    if h.count > 1 {
      assert r.handles.order == st.handles.order;
    } else {
      var t := st.handles.Set(id, h.(count := h.count - 1));
      assert r.handles == t.Delete(id);
      var o := r.handles.order;
      var m := r.handles.m;
      forall i, j | 0 <= i < j < |o| && o[i] in m && o[j] in m
        ensures !Serves(m[o[i]], m[o[j]].db, m[o[j]].collection, m[o[j]].filters)
      {
        var i', j' := RemoveKeepsOrder(st.handles.order, id, i, j);
      }
    }
  }

  /** `close` undoes `watch`: the table is back to what it was; a `cancel`
      is written and `close` emitted exactly when the handle was new. */
  lemma CloseUndoesWatch(st: ClientState, db: string, collection: string, filters: Value, freshId: string)
    requires Inv(st) && freshId !in st.handles.m
    ensures var (r, id) := Watch(st, db, collection, filters, freshId);
      && id in r.handles.m
      && Close(r, id).handles == st.handles
      && (id == freshId ==> Close(r, id).events == st.events + [Closed(id)])
      && (id != freshId ==> Close(r, id).events == st.events && Close(r, id).writes == st.writes)
  {
    var (r, id) := Watch(st, db, collection, filters, freshId);
    var f := Or(filters, Obj([]));
    var found := FindHandle(st.handles.order, st.handles.m, db, collection, f);
    if found.Some? {
      ReuseState(st, db, collection, filters, freshId, found.value);
      assert st.handles.m[st.handles.order[found.value]].id == st.handles.order[found.value];
      CloseUndoesBump(st, r, id);
    } else {
      NoServerFound(st.handles, db, collection, f);
      WatchCreates(st, db, collection, filters, freshId);
      CloseUndoesCreate(st, r, freshId, Handle(freshId, db, collection, f, 1));
    }
  }

  lemma CloseUndoesBump(st: ClientState, r: ClientState, id: string)
    requires Inv(st) && r.socket && id in st.handles.m
    requires r.handles.order == st.handles.order
    requires r.handles.m == st.handles.m[id := st.handles.m[id].(count := st.handles.m[id].count + 1)]
    requires r.writes == st.writes && r.events == st.events
    ensures Close(r, id).handles == st.handles
    ensures Close(r, id).events == st.events && Close(r, id).writes == st.writes
  {
    assert st.handles.m[id].count >= 1;
    var c := Close(r, id);
    assert c.handles.m == st.handles.m;
  }

  lemma CloseUndoesCreate(st: ClientState, r: ClientState, id: string, h: Handle)
    requires st.handles.Valid() && r.socket && id !in st.handles.m && h.count == 1
    requires r.handles.order == st.handles.order + [id]
    requires r.handles.m == st.handles.m[id := h]
    requires r.events == st.events
    ensures Close(r, id).handles == st.handles
    ensures Close(r, id).events == st.events + [Closed(id)]
  {
    var c := Close(r, id);
    RemoveAppended(st.handles.order, id);
    assert c.handles.m == st.handles.m;
  }

  /** `watch(db, collection, filters)` once per id of `ids`, each id being
      the `ObjectID` that call would give a new handle. */
  ghost function WatchRepeat(st: ClientState, db: string, collection: string, filters: Value, ids: seq<string>): ClientState
    decreases |ids|
  {
    if |ids| == 0 || ids[0] in st.handles.m then st
    else WatchRepeat(Watch(st, db, collection, filters, ids[0]).0, db, collection, filters, ids[1..])
  }

  /** `close()` on handle `id`, `n` times. */
  ghost function CloseRepeat(st: ClientState, id: string, n: nat): ClientState
    decreases n
  {
    if n == 0 || !st.socket || id !in st.handles.m then st
    else CloseRepeat(Close(st, id), id, n - 1)
  }

  /** Handle `id0`, equal to `h`, is the only handle that serves a
      `watch(db, collection, filters)` with the defaulted filters `f`. */
  ghost predicate SoleServer(s: ClientState, id0: string, h: Handle, db: string, collection: string, f: Value) {
    && s.socket && s.handles.Valid() && id0 in s.handles.m && s.handles.m[id0] == h
    && h.id == id0 && Serves(h, db, collection, f)
    && forall k | k in s.handles.m && k != id0 :: !Serves(s.handles.m[k], db, collection, f)
  }

  /** A `watch` that only handle `id0` serves bumps its count and changes
      nothing else. */
  lemma WatchBumps(s: ClientState, id0: string, h: Handle, db: string, collection: string, filters: Value, newId: string)
    requires SoleServer(s, id0, h, db, collection, Or(filters, Obj([])))
    requires newId !in s.handles.m
    ensures Watch(s, db, collection, filters, newId).0 == s.(handles := s.handles.Set(id0, h.(count := h.count + 1)))
    ensures SoleServer(s.(handles := s.handles.Set(id0, h.(count := h.count + 1))), id0, h.(count := h.count + 1), db, collection, Or(filters, Obj([])))
  {
    var f := Or(filters, Obj([]));
    var found := FindHandle(s.handles.order, s.handles.m, db, collection, f);
    assert found.Some? by {
      var i :| 0 <= i < |s.handles.order| && s.handles.order[i] == id0;
    }
    assert s.handles.order[found.value] == id0;
  }

  /** The first of a run of `watch` calls that only `id0` serves. */
  lemma WatchBumpsOnce(s: ClientState, id0: string, h: Handle, db: string, collection: string, filters: Value, ids: seq<string>)
    requires SoleServer(s, id0, h, db, collection, Or(filters, Obj([])))
    requires |ids| > 0 && forall i | 0 <= i < |ids| :: ids[i] !in s.handles.m
    ensures var s1 := s.(handles := s.handles.Set(id0, h.(count := h.count + 1)));
      && WatchRepeat(s, db, collection, filters, ids) == WatchRepeat(s1, db, collection, filters, ids[1..])
      && SoleServer(s1, id0, h.(count := h.count + 1), db, collection, Or(filters, Obj([])))
      && forall i | 0 <= i < |ids[1..]| :: ids[1..][i] !in s1.handles.m
  {
    WatchBumps(s, id0, h, db, collection, filters, ids[0]);
    var rest := ids[1..];
    assert forall i | 0 <= i < |rest| :: rest[i] == ids[i + 1];
  }

  /** While only handle `id0` serves the request, each further `watch` only
      bumps its count. */
  lemma {:induction false} RepeatedWatchesCount(s: ClientState, id0: string, h: Handle,
                                                db: string, collection: string, filters: Value, ids: seq<string>)
    requires SoleServer(s, id0, h, db, collection, Or(filters, Obj([])))
    requires forall i | 0 <= i < |ids| :: ids[i] !in s.handles.m
    ensures WatchRepeat(s, db, collection, filters, ids) == s.(handles := s.handles.Set(id0, h.(count := h.count + |ids|)))
    decreases |ids|
  {
    if |ids| > 0 {
      var h1 := h.(count := h.count + 1);
      var s1 := s.(handles := s.handles.Set(id0, h1));
      var rest := ids[1..];
      WatchBumpsOnce(s, id0, h, db, collection, filters, ids);
      RepeatedWatchesCount(s1, id0, h1, db, collection, filters, rest);
      var hn := h.(count := h.count + |ids|);
      assert h1.(count := h1.count + |rest|) == hn;
      SetTwice(s.handles, id0, h1, hn);
    } else {
      assert s.handles.Set(id0, h) == s.handles;
    }
  }

  /** Closing handle `id0` as often as its count removes it and restores
      the table it was appended to, with one `cancel` written and one
      `close` emitted. */
  lemma {:induction false} RepeatedClosesRemove(s: ClientState, base: Table<string, Handle>, id0: string, h: Handle, n: nat)
    requires s.socket && id0 !in base.m && id0 !in base.order
    requires s.handles.order == base.order + [id0] && s.handles.m == base.m[id0 := h]
    requires n >= 1 && h.count == n
    ensures var r := CloseRepeat(s, id0, n);
      && r.handles == base
      && r.writes == s.writes + [CancelMsg(id0)]
      && r.events == s.events + [Closed(id0)]
    decreases n
  {
    var s1 := Close(s, id0);
    if n == 1 {
      RemoveAppended(base.order, id0);
      assert s1.handles.m == base.m;
    } else {
      RepeatedClosesRemove(s1, base, id0, h.(count := n - 1), n - 1);
    }
  }

  /** N `watch()` calls with equal arguments followed by N `close()` calls on
      the returned handle leave the table as it was, and the server is told
      to cancel exactly once. */
  lemma BalancedWatchClose(st: ClientState, db: string, collection: string, filters: Value, ids: seq<string>)
    requires Inv(st) && |ids| >= 1
    requires WellFormed(Or(filters, Obj([])))
    requires forall k | k in st.handles.m :: !Serves(st.handles.m[k], db, collection, Or(filters, Obj([])))
    requires forall i | 0 <= i < |ids| :: ids[i] !in st.handles.m
    requires forall i, j | 0 <= i < j < |ids| :: ids[i] != ids[j]
    ensures var w := WatchRepeat(st, db, collection, filters, ids);
      && ids[0] in w.handles.m
      && w.handles.m[ids[0]].count == |ids|
      && CloseRepeat(w, ids[0], |ids|).handles == st.handles
      && CloseRepeat(w, ids[0], |ids|).writes == w.writes + [CancelMsg(ids[0])]
  {
    var h := Handle(ids[0], db, collection, Or(filters, Obj([])), |ids|);
    var w := WatchRepeat(st, db, collection, filters, ids);
    RepeatedWatchesOpen(st, db, collection, filters, ids);
    assert ids[0] !in st.handles.order;
    RepeatedClosesRemove(w, st.handles, ids[0], h, |ids|);
  }

  /** The first of N equal `watch()` calls creates a handle and the others
      only count on it. */
  lemma RepeatedWatchesOpen(st: ClientState, db: string, collection: string, filters: Value, ids: seq<string>)
    requires Inv(st) && |ids| >= 1
    requires WellFormed(Or(filters, Obj([])))
    requires forall k | k in st.handles.m :: !Serves(st.handles.m[k], db, collection, Or(filters, Obj([])))
    requires forall i | 0 <= i < |ids| :: ids[i] !in st.handles.m
    requires forall i, j | 0 <= i < j < |ids| :: ids[i] != ids[j]
    ensures var w := WatchRepeat(st, db, collection, filters, ids);
      && w.socket
      && w.handles.order == st.handles.order + [ids[0]]
      && w.handles.m == st.handles.m[ids[0] := Handle(ids[0], db, collection, Or(filters, Obj([])), |ids|)]
  {
    var f := Or(filters, Obj([]));
    var h := Handle(ids[0], db, collection, f, 1);
    NewHandleSole(st, db, collection, filters, ids[0]);
    var s1 := Watch(st, db, collection, filters, ids[0]).0;
    var rest := ids[1..];
    forall i | 0 <= i < |rest| ensures rest[i] !in s1.handles.m {
      assert rest[i] == ids[i + 1];
    }
    RepeatedWatchesCount(s1, ids[0], h, db, collection, filters, rest);
    assert WatchRepeat(st, db, collection, filters, ids) == WatchRepeat(s1, db, collection, filters, rest);
    var hn := Handle(ids[0], db, collection, f, |ids|);
    assert h.(count := h.count + |rest|) == hn;
    SetTwice(st.handles, ids[0], h, hn);
  }

  /** A `watch` that no handle serves adds a handle that is then the only
      one serving it. */
  lemma NewHandleSole(st: ClientState, db: string, collection: string, filters: Value, id: string)
    requires Inv(st)
    requires WellFormed(Or(filters, Obj([])))
    requires forall k | k in st.handles.m :: !Serves(st.handles.m[k], db, collection, Or(filters, Obj([])))
    requires id !in st.handles.m
    ensures var h := Handle(id, db, collection, Or(filters, Obj([])), 1);
      var s1 := Watch(st, db, collection, filters, id).0;
      && s1.handles == st.handles.Set(id, h)
      && SoleServer(s1, id, h, db, collection, Or(filters, Obj([])))
  {
    WatchCreates(st, db, collection, filters, id);
    CompareReflexive(Or(filters, Obj([])));
  }

  // ---------------------------------------------------------------------
  // connection lifecycle

  lemma ConnectedPreservesInv(st: ClientState)
    requires Inv(st) && st.socket
    ensures Inv(Connected(st))
  {
  }

  /** A reconnect writes exactly one `watch` message for each live handle,
      and nothing else. */
  lemma ReplayOncePerHandle(st: ClientState)
    requires Inv(st)
    ensures var added := Connected(st).writes[|st.writes|..];
      && |added| == |st.handles.m|
      && (forall id | id in st.handles.m :: WatchMsg(st.handles.m[id]) in added)
      && (forall i | 0 <= i < |added| :: WatchOfLive(st.handles, added[i]))
  {
    ReplayedMessages(st.writes, Connected(st).writes, st.handles);
  }

  /** `v` is the `watch` message of a handle of `t`. */
  ghost predicate WatchOfLive(t: Table<string, Handle>, v: Value) {
    exists id | id in t.m :: v == WatchMsg(t.m[id])
  }

  lemma ReplayedMessages(before: seq<Value>, after: seq<Value>, t: Table<string, Handle>)
    requires t.Valid() && Replays(before, after, t)
    ensures var added := after[|before|..];
      && |added| == |t.m|
      && (forall id | id in t.m :: WatchMsg(t.m[id]) in added)
      && (forall i | 0 <= i < |added| :: WatchOfLive(t, added[i]))
  {
    t.SizeMatches();
    ReplayedCovers(before, after, t);
    ReplayedOnly(before, after, t);
    var added := after[|before|..];
    forall i | 0 <= i < |added| ensures WatchOfLive(t, added[i]) {
      assert added[i] == after[|before| + i];
    }
  }

  lemma ReplayedCovers(before: seq<Value>, after: seq<Value>, t: Table<string, Handle>)
    requires t.Valid() && Replays(before, after, t)
    ensures var added := after[|before|..];
      forall id | id in t.m :: WatchMsg(t.m[id]) in added
  {
    var added := after[|before|..];
    forall id | id in t.m ensures WatchMsg(t.m[id]) in added {
      var i :| 0 <= i < |t.order| && t.order[i] == id;
      assert added[i] == after[|before| + i];
    }
  }

  lemma ReplayedOnly(before: seq<Value>, after: seq<Value>, t: Table<string, Handle>)
    requires t.Valid() && Replays(before, after, t)
    ensures forall i | |before| <= i < |after| :: WatchOfLive(t, after[i])
  {
    forall i | |before| <= i < |after| ensures WatchOfLive(t, after[i]) {
      var id := t.order[i - |before|];
      assert id in t.m && after[|before| + (i - |before|)] == WatchMsg(t.m[id]);
    }
  }

  lemma SocketClosedPreservesInv(st: ClientState)
    requires Inv(st) && st.socket
    ensures Inv(SocketClosed(st))
  {
  }

  lemma TimerFiredPreservesInv(st: ClientState)
    requires Inv(st) && st.timers > 0
    ensures Inv(TimerFired(st))
  {
  }

  /** Losing the connection and getting it back keeps every handle and
      tells the server about each of them again; timers scheduled by earlier
      losses stay pending. */
  lemma ReconnectRestores(st: ClientState)
    requires Inv(st) && st.socket
    ensures var r := Connected(TimerFired(SocketClosed(st)));
      && r.handles == st.handles
      && r.socket && r.connected && r.timers == st.timers
      && r.buffer == None
      && Replays(st.writes, r.writes, st.handles)
  {
  }

  /** A `watch` issued before the socket is up writes nothing itself; the
      connect callback then sends it, exactly once. */
  lemma WatchBeforeConnectSentOnce(db: string, collection: string, filters: Value, id: string)
    ensures var (r, h) := Watch(Initial(), db, collection, filters, id);
      && h == id
      && r.writes == []
      && Connected(r).writes == [WatchMsg(Handle(id, db, collection, Or(filters, Obj([])), 1))]
  {
    var st := Initial();
    WatchCreates(st, db, collection, filters, id);
    var r := Watch(st, db, collection, filters, id).0;
    assert r.handles.order == [id];
    ReplayShape(r.handles, []);
  }

  // ---------------------------------------------------------------------
  // deframing and routing

  /** A frame that arrives whole, possibly followed by more bytes, yields its
      payload and leaves exactly the bytes after it. */
  lemma WholeFrame(st: ClientState, p: Bytes, suffix: Bytes)
    requires st.buffer == None && |p| + 6 <= MaxInt32
    ensures var (r, out) := OnData(st, ObjectToBuffer(p) + suffix);
      && out == Some(p)
      && r.buffer == (if suffix == [] then None else Some(suffix))
      && r.handles == st.handles && r.events == st.events
  {
    DecodeFrame(p, suffix);
  }

  /** A frame cut in two chunks, the first holding the whole length header,
      yields the same payload and the same state as the whole frame. */
  lemma SplitFrame(st: ClientState, p: Bytes, k: nat)
    requires st.buffer == None && |p| + 6 <= MaxInt32
    requires 4 <= k < |ObjectToBuffer(p)|
    ensures var f := ObjectToBuffer(p);
      var (mid, none) := OnData(st, f[..k]);
      |Joined(mid.buffer, f[k..])| >= 4 &&
      none == None && OnData(mid, f[k..]) == OnData(st, f)
  {
    var f := ObjectToBuffer(p);
    PartialFrameWaits(p, k);
    assert f[..k] + f[k..] == f;
    DecodeFrame(p, []);
    assert f + [] == f;
  }

  /** A chunk that still leaves the frame incomplete is only buffered. */
  lemma ChunkWaits(st: ClientState, p: Bytes, k: nat, m: nat)
    requires |p| + 6 <= MaxInt32
    requires 4 <= k <= m < |ObjectToBuffer(p)|
    requires st.buffer == Some(ObjectToBuffer(p)[..k])
    ensures var f := ObjectToBuffer(p);
      OnData(st, f[k..m]) == (st.(buffer := Some(f[..m])), None)
  {
    var f := ObjectToBuffer(p);
    assert f[..k] + f[k..m] == f[..m];
    PartialFrameWaits(p, m);
  }

  /** The chunk that completes the frame yields its payload and keeps
      exactly the bytes that came after it. */
  lemma LastChunk(st: ClientState, p: Bytes, suffix: Bytes, k: nat)
    requires |p| + 6 <= MaxInt32
    requires 4 <= k < |ObjectToBuffer(p)|
    requires st.buffer == Some(ObjectToBuffer(p)[..k])
    ensures var f := ObjectToBuffer(p);
      OnData(st, f[k..] + suffix) == (st.(buffer := if suffix == [] then None else Some(suffix)), Some(p))
  {
    var f := ObjectToBuffer(p);
    assert f[..k] + (f[k..] + suffix) == f + suffix;
    DecodeFrame(p, suffix);
  }

  /** Successive `data` events: the final state and what each event
      decoded, or `None` when some event leaves fewer than four bytes
      buffered, where `readInt32LE` throws. */
  ghost function Feed(st: ClientState, pieces: seq<Bytes>): Option<(ClientState, seq<Option<Bytes>>)>
    decreases |pieces|
  {
    if |pieces| == 0 then Some((st, []))
    else if |Joined(st.buffer, pieces[0])| < 4 then None
    else
      var step := OnData(st, pieces[0]);
      var more := Feed(step.0, pieces[1..]);
      if more.None? then None else Some((more.value.0, [step.1] + more.value.1))
  }

  /** Cut points strictly between `lo` and `hi`, in increasing order. */
  ghost predicate CutsWithin(cuts: seq<nat>, lo: nat, hi: nat) {
    && (forall i | 0 <= i < |cuts| :: lo < cuts[i] < hi)
    && (forall i, j | 0 <= i < j < |cuts| :: cuts[i] < cuts[j])
  }

  /** `f[k..]` cut at `cuts`, with `suffix` riding on the last piece. */
  ghost function Pieces(f: Bytes, suffix: Bytes, k: nat, cuts: seq<nat>): seq<Bytes>
    requires k <= |f| && CutsWithin(cuts, k, |f|)
    decreases |cuts|
  {
    if |cuts| == 0 then [f[k..] + suffix]
    else [f[k..cuts[0]]] + Pieces(f, suffix, cuts[0], cuts[1..])
  }

  function Nones(n: nat): (r: seq<Option<Bytes>>)
    ensures |r| == n && forall i | 0 <= i < n :: r[i] == None
  {
    seq(n, i => None)
  }

  /** From a buffered header-complete prefix, the rest of the frame in any
      number of pieces decodes nothing until the last piece, which yields
      the payload. */
  lemma {:induction false} PiecesFromPrefix(st: ClientState, p: Bytes, suffix: Bytes, k: nat, cuts: seq<nat>)
    requires |p| + 6 <= MaxInt32
    requires 4 <= k < |ObjectToBuffer(p)|
    requires st.buffer == Some(ObjectToBuffer(p)[..k])
    requires CutsWithin(cuts, k, |ObjectToBuffer(p)|)
    ensures Feed(st, Pieces(ObjectToBuffer(p), suffix, k, cuts)) ==
      Some((st.(buffer := if suffix == [] then None else Some(suffix)), Nones(|cuts|) + [Some(p)]))
    decreases |cuts|
  {
    var f := ObjectToBuffer(p);
    if |cuts| == 0 {
      LastPiece(st, p, suffix, k, cuts);
    } else {
      var c := cuts[0];
      var rest := if suffix == [] then None else Some(suffix);
      ChunkWaits(st, p, k, c);
      var s1 := st.(buffer := Some(f[..c]));
      PiecesCons(f, suffix, k, cuts);
      PiecesFromPrefix(s1, p, suffix, c, cuts[1..]);
      FeedFirstThen(st, f[k..c], Pieces(f, suffix, c, cuts[1..]), s1, None,
        st.(buffer := rest), Nones(|cuts| - 1) + [Some(p)]);
      NonesCons(|cuts|, p);
    }
  }

  lemma LastPiece(st: ClientState, p: Bytes, suffix: Bytes, k: nat, cuts: seq<nat>)
    requires |p| + 6 <= MaxInt32
    requires 4 <= k < |ObjectToBuffer(p)|
    requires st.buffer == Some(ObjectToBuffer(p)[..k])
    requires cuts == []
    ensures Feed(st, Pieces(ObjectToBuffer(p), suffix, k, cuts)) ==
      Some((st.(buffer := if suffix == [] then None else Some(suffix)), Nones(|cuts|) + [Some(p)]))
  {
    var f := ObjectToBuffer(p);
    var rest := if suffix == [] then None else Some(suffix);
    LastChunk(st, p, suffix, k);
    PiecesLast(f, suffix, k, cuts);
    FeedFirstThen(st, f[k..] + suffix, [], st.(buffer := rest), Some(p), st.(buffer := rest), []);
    NonesCons(0, p);
  }

  /** A frame delivered in any number of pieces, each but the first
      extending a header-complete prefix, yields its payload exactly once,
      on the last piece, and keeps exactly the bytes that followed it. */
  lemma FrameInPieces(st: ClientState, p: Bytes, suffix: Bytes, cuts: seq<nat>)
    requires st.buffer == None && |p| + 6 <= MaxInt32
    requires CutsWithin(cuts, 3, |ObjectToBuffer(p)|)
    ensures Feed(st, Pieces(ObjectToBuffer(p), suffix, 0, cuts)) ==
      Some((st.(buffer := if suffix == [] then None else Some(suffix)), Nones(|cuts|) + [Some(p)]))
  {
    if |cuts| == 0 {
      FrameInOnePiece(st, p, suffix, cuts);
    } else {
      FrameInSeveralPieces(st, p, suffix, cuts);
    }
  }

  lemma FrameInOnePiece(st: ClientState, p: Bytes, suffix: Bytes, cuts: seq<nat>)
    requires st.buffer == None && |p| + 6 <= MaxInt32
    requires cuts == []
    ensures Feed(st, Pieces(ObjectToBuffer(p), suffix, 0, cuts)) ==
      Some((st.(buffer := if suffix == [] then None else Some(suffix)), Nones(|cuts|) + [Some(p)]))
  {
    var f := ObjectToBuffer(p);
    var rest := if suffix == [] then None else Some(suffix);
    WholePiece(st, p, suffix);
    PiecesLast(f, suffix, 0, cuts);
    FeedFirstThen(st, f[0..] + suffix, [], st.(buffer := rest), Some(p), st.(buffer := rest), []);
    NonesCons(0, p);
  }

  lemma FrameInSeveralPieces(st: ClientState, p: Bytes, suffix: Bytes, cuts: seq<nat>)
    requires st.buffer == None && |p| + 6 <= MaxInt32
    requires |cuts| > 0 && CutsWithin(cuts, 3, |ObjectToBuffer(p)|)
    ensures Feed(st, Pieces(ObjectToBuffer(p), suffix, 0, cuts)) ==
      Some((st.(buffer := if suffix == [] then None else Some(suffix)), Nones(|cuts|) + [Some(p)]))
  {
    var f := ObjectToBuffer(p);
    var rest := if suffix == [] then None else Some(suffix);
    var c := cuts[0];
    FirstChunk(st, p, c);
    var s1 := st.(buffer := Some(f[..c]));
    TailCutsWithin(cuts, 3, |f|);
    PiecesFromPrefix(s1, p, suffix, c, cuts[1..]);
    PiecesCons(f, suffix, 0, cuts);
    FeedFirstThen(st, f[0..c], Pieces(f, suffix, c, cuts[1..]), s1, None,
      st.(buffer := rest), Nones(|cuts| - 1) + [Some(p)]);
    NonesCons(|cuts|, p);
  }

  /** A whole frame, with whatever follows it, as the first piece. */
  lemma WholePiece(st: ClientState, p: Bytes, suffix: Bytes)
    requires st.buffer == None && |p| + 6 <= MaxInt32
    ensures var f := ObjectToBuffer(p);
      && |Joined(st.buffer, f[0..] + suffix)| >= 4
      && OnData(st, f[0..] + suffix) == (st.(buffer := if suffix == [] then None else Some(suffix)), Some(p))
  {
    var f := ObjectToBuffer(p);
    assert f[0..] == f;
    WholeFrame(st, p, suffix);
  }

  /** A header-complete first piece of a frame is only buffered. */
  lemma FirstChunk(st: ClientState, p: Bytes, c: nat)
    requires st.buffer == None && |p| + 6 <= MaxInt32
    requires 4 <= c < |ObjectToBuffer(p)|
    ensures var f := ObjectToBuffer(p);
      && |Joined(st.buffer, f[0..c])| >= 4
      && OnData(st, f[0..c]) == (st.(buffer := Some(f[..c])), None)
  {
    var f := ObjectToBuffer(p);
    assert f[0..c] == f[..c];
    PartialFrameWaits(p, c);
  }

  lemma PiecesLast(f: Bytes, suffix: Bytes, k: nat, cuts: seq<nat>)
    requires k <= |f| && cuts == []
    ensures Pieces(f, suffix, k, cuts) == [f[k..] + suffix] + []
  {
  }

  lemma PiecesCons(f: Bytes, suffix: Bytes, k: nat, cuts: seq<nat>)
    requires k <= |f| && |cuts| > 0 && CutsWithin(cuts, k, |f|)
    ensures CutsWithin(cuts[1..], cuts[0], |f|)
    ensures Pieces(f, suffix, k, cuts) == [f[k..cuts[0]]] + Pieces(f, suffix, cuts[0], cuts[1..])
  {
    TailCutsWithin(cuts, k, |f|);
  }

  /** One more `data` event in front of a run, given what each does. */
  lemma FeedFirstThen(st: ClientState, first: Bytes, more: seq<Bytes>,
                      s1: ClientState, out: Option<Bytes>, s2: ClientState, outs: seq<Option<Bytes>>)
    requires |Joined(st.buffer, first)| >= 4 && OnData(st, first) == (s1, out)
    requires Feed(s1, more) == Some((s2, outs))
    ensures Feed(st, [first] + more) == Some((s2, [out] + outs))
  {
    assert ([first] + more)[0] == first && ([first] + more)[1..] == more;
  }

  lemma NonesCons(n: nat, p: Bytes)
    ensures n > 0 ==> [None] + (Nones(n - 1) + [Some(p)]) == Nones(n) + [Some(p)]
    ensures n == 0 ==> [Some(p)] + [] == Nones(n) + [Some(p)]
  {
  }

  lemma TailCutsWithin(cuts: seq<nat>, lo: nat, hi: nat)
    requires |cuts| > 0 && CutsWithin(cuts, lo, hi)
    ensures CutsWithin(cuts[1..], cuts[0], hi)
  {
    forall i | 0 <= i < |cuts[1..]| ensures cuts[0] < cuts[1..][i] < hi {
      assert cuts[1..][i] == cuts[i + 1];
    }
    forall i, j | 0 <= i < j < |cuts[1..]| ensures cuts[1..][i] < cuts[1..][j] {
      assert cuts[1..][i] == cuts[i + 1] && cuts[1..][j] == cuts[j + 1];
    }
  }

  /** A change frame built by the server reaches the handle it names, and
      only a live one. */
  lemma ChangeReachesNamedHandle(st: ClientState, id: string, data: Value)
    ensures var msg := Obj([Field("watcher", Str(id)), Field("data", data)]);
      && (id in st.handles.m ==> Deliver(st, msg.fields).events == st.events + [Change(id, data)])
      && (id !in st.handles.m ==> Deliver(st, msg.fields) == st)
  {
    var msg := Obj([Field("watcher", Str(id)), Field("data", data)]);
    assert Lookup(msg.fields, "error") == Undefined;
    assert Lookup(msg.fields, "watcher") == Str(id);
    assert Lookup(msg.fields, "data") == data;
  }

  /** An error frame from the server is never delivered to a handle. */
  lemma ErrorFramesDropped(st: ClientState, text: string)
    ensures Deliver(st, [Field("error", Str(text))]) == st
  {
  }
}
