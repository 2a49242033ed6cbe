/**
 * The WebSocket connection registry (app/core/websocket.py): a map from
 * bipupu id to that user's open sockets, the reverse map from socket to
 * id, and each socket's connection time.  Sockets are opaque handles; a
 * send's success is an input, since the socket layer is not modelled.
 */
module WebSocketRegistry {
  import opened Tables

  type Socket = nat

  datatype Registry = Registry(active: map<string, set<Socket>>, users: map<Socket, string>, times: map<Socket, int>)

  const Empty := Registry(map[], map[], map[])

  /**
   * The registry invariant: the two maps describe the same relation, no
   * user entry is an empty set, every registered socket has a time, and
   * no socket is registered under the empty id (which `disconnect`'s
   * truthiness test would fail to clean up).
   */
  predicate Valid(r: Registry) {
    && (forall id :: id in r.active ==> r.active[id] != {})
    && (forall id, ws :: id in r.active && ws in r.active[id] ==> ws in r.users && r.users[ws] == id)
    && (forall ws :: ws in r.users ==> r.users[ws] in r.active && ws in r.active[r.users[ws]])
    && (forall ws :: ws in r.users ==> r.users[ws] != "")
    && r.times.Keys == r.users.Keys
  }

  /** `connect`: add the socket to the user's set, keeping their other connections. */
  function Connect(r: Registry, ws: Socket, id: string, now: int): (r': Registry)
    ensures id in r'.active && ws in r'.active[id]
    ensures ws in r'.users && r'.users[ws] == id && ws in r'.times && r'.times[ws] == now
    ensures id in r.active ==> r.active[id] <= r'.active[id]
    ensures forall other :: other != id ==> (other in r'.active <==> other in r.active)
    ensures forall other :: other != id && other in r.active ==> r'.active[other] == r.active[other]
  {
    var existing := if id in r.active then r.active[id] else {};
    Registry(r.active[id := existing + {ws}], r.users[ws := id], r.times[ws := now])
  }

  /**
   * `disconnect`: forget the socket everywhere.  The user's entry goes only
   * through a truthy id, and is deleted with the user's last socket.
   */
  function Disconnect(r: Registry, ws: Socket): (r': Registry)
    ensures ws !in r'.users && ws !in r'.times
    ensures forall w :: w != ws ==> (w in r'.users <==> w in r.users) && (w in r'.times <==> w in r.times)
    ensures forall w :: w != ws && w in r.users ==> r'.users[w] == r.users[w]
    ensures ws !in r.users && ws !in r.times ==> r' == r
    ensures Valid(r) && ws in r.users ==>
      var id := r.users[ws];
      (id in r'.active <==> r.active[id] != {ws}) && (id in r'.active ==> r'.active[id] == r.active[id] - {ws})
  {
    var active :=
      if ws in r.users && r.users[ws] != "" && r.users[ws] in r.active then Discard(r.active, r.users[ws], ws)
      else r.active;
    Registry(active, r.users - {ws}, r.times - {ws})
  }

  lemma ConnectPreservesValid(r: Registry, ws: Socket, id: string, now: int)
    requires Valid(r) && ws !in r.users && id != ""
    ensures Valid(Connect(r, ws, id, now))
  {
    var existing := if id in r.active then r.active[id] else {};
    AddSocketValid(r, ws, id, existing, now);
  }

  /** Adding a fresh socket to a user's (possibly empty) set keeps the two maps in step. */
  lemma AddSocketValid(r: Registry, ws: Socket, id: string, existing: set<Socket>, now: int)
    requires Valid(r) && ws !in r.users && id != ""
    requires existing == if id in r.active then r.active[id] else {}
    ensures Valid(Registry(r.active[id := existing + {ws}], r.users[ws := id], r.times[ws := now]))
  {
    var r' := Registry(r.active[id := existing + {ws}], r.users[ws := id], r.times[ws := now]);
    forall other, w | other in r'.active && w in r'.active[other]
      ensures w in r'.users && r'.users[w] == other
    {
      if w != ws {
        assert w in r.active[other];
      }
    }
    forall w | w in r'.users
      ensures r'.users[w] in r'.active && w in r'.active[r'.users[w]]
    {
      if w != ws {
        var o := r.users[w];
        assert r'.users[w] == o && o in r.active && w in r.active[o];
      }
    }
    assert r'.times.Keys == r'.users.Keys;
  }

  lemma DisconnectPreservesValid(r: Registry, ws: Socket)
    requires Valid(r)
    ensures Valid(Disconnect(r, ws))
  {
    var r' := Disconnect(r, ws);
    if ws in r.users {
      var id := r.users[ws];
      forall w | w in r'.users
        ensures r'.users[w] in r'.active && w in r'.active[r'.users[w]]
      {
        assert r'.users[w] == r.users[w];
        if r.users[w] == id {
          assert w in r.active[id] - {ws};
        }
      }
    }
  }

  /** Connecting the same socket under a second id leaves it in the first id's set. */
  lemma ReconnectUnderOtherIdBreaksInvariant()
    ensures !Valid(Connect(Connect(Empty, 7, "00000001", 0), 7, "00000002", 0))
  {
    var r := Connect(Connect(Empty, 7, "00000001", 0), 7, "00000002", 0);
    assert 7 in r.active["00000001"];
  }

  /** A socket connected under the empty id survives its own disconnect in the user map. */
  lemma EmptyIdDisconnectLeavesStaleSocket()
    ensures var r := Disconnect(Connect(Empty, 7, "", 0), 7);
      "" in r.active && 7 in r.active[""] && 7 !in r.users
  {
  }

  /** `is_user_online`: an entry with a non-empty set. */
  function IsUserOnline(r: Registry, id: string): bool {
    id in r.active && |r.active[id]| > 0
  }

  /** Under the invariant a user is online exactly when some socket is registered to them. */
  lemma OnlineIffConnected(r: Registry, id: string)
    requires Valid(r)
    ensures IsUserOnline(r, id) <==> exists ws :: ws in r.users && r.users[ws] == id
  {
    if IsUserOnline(r, id) {
      var ws :| ws in r.active[id];
      assert ws in r.users && r.users[ws] == id;
    }
  }

  function OnlineCount(r: Registry): nat { |r.active.Keys| }

  function ConnectionCount(r: Registry): nat { |r.users.Keys| }

  lemma {:induction false} ValuesCard<K, V>(m: map<K, V>)
    ensures |m.Values| <= |m.Keys|
    decreases |m.Keys|
  {
    if m.Keys != {} {
      var k :| k in m.Keys;
      var m' := m - {k};
      ValuesCard(m');
      assert m.Values <= m'.Values + {m[k]} by {
        forall v | v in m.Values ensures v in m'.Values + {m[k]} {
          var j :| j in m && m[j] == v;
          if j != k { assert m'[j] == v; }
        }
      }
      SubsetCard(m.Values, m'.Values + {m[k]});
      assert m.Keys == m'.Keys + {k};
    }
  }

  /** Every online user holds at least one connection, so users never outnumber sockets. */
  lemma OnlineAtMostConnections(r: Registry)
    requires Valid(r)
    ensures OnlineCount(r) <= ConnectionCount(r)
  {
    assert r.active.Keys <= r.users.Values by {
      forall id | id in r.active.Keys ensures id in r.users.Values {
        var ws :| ws in r.active[id];
        assert r.users[ws] == id;
      }
    }
    SubsetCard(r.active.Keys, r.users.Values);
    ValuesCard(r.users);
  }

  /** A fresh socket adds one connection. */
  lemma ConnectAddsConnection(r: Registry, ws: Socket, id: string, now: int)
    requires ws !in r.users
    ensures ConnectionCount(Connect(r, ws, id, now)) == ConnectionCount(r) + 1
  {
    assert Connect(r, ws, id, now).users.Keys == r.users.Keys + {ws};
  }

  lemma UpdateKeysCard<K, V>(m: map<K, V>, k: K, v: V)
    ensures |m[k := v].Keys| == |m.Keys| + (if k in m then 0 else 1)
  {
    if k in m {
      assert m[k := v].Keys == m.Keys;
    } else {
      assert m[k := v].Keys == m.Keys + {k};
    }
  }

  /** Connecting adds an online user exactly when that user had no entry. */
  lemma ConnectOnlineCount(r: Registry, ws: Socket, id: string, now: int)
    ensures OnlineCount(Connect(r, ws, id, now)) == OnlineCount(r) + (if id in r.active then 0 else 1)
  {
    var existing := if id in r.active then r.active[id] else {};
    UpdateKeysCard(r.active, id, existing + {ws});
  }

  /** The registry left after every socket in `s` has been disconnected, in closed form. */
  function DropSockets(r: Registry, s: set<Socket>): Registry {
    Registry(DropActive(r.active, s), r.users - s, r.times - s)
  }

  function DropActive(active: map<string, set<Socket>>, s: set<Socket>): map<string, set<Socket>> {
    map id | id in active && active[id] - s != {} :: active[id] - s
  }

  /** Remove one socket from one user's set, deleting the entry when it empties. */
  function Discard(active: map<string, set<Socket>>, id: string, ws: Socket): map<string, set<Socket>>
    requires id in active
  {
    var rest := active[id] - {ws};
    if rest == {} then active - {id} else active[id := rest]
  }

  lemma DropActiveUnowned(active: map<string, set<Socket>>, s: set<Socket>, ws: Socket)
    requires forall o :: o in active ==> ws !in active[o] - s
    ensures DropActive(active, s + {ws}) == DropActive(active, s)
  {
    forall o | o in active ensures active[o] - (s + {ws}) == active[o] - s {
      assert ws !in active[o] - s;
    }
  }

  lemma DropActiveOwned(active: map<string, set<Socket>>, s: set<Socket>, ws: Socket, id: string)
    requires id in active && ws in active[id] - s
    requires forall o :: o in active && o != id ==> ws !in active[o]
    ensures id in DropActive(active, s)
    ensures Discard(DropActive(active, s), id, ws) == DropActive(active, s + {ws})
  {
    var lhs := Discard(DropActive(active, s), id, ws);
    var rhs := DropActive(active, s + {ws});
    assert active[id] - s - {ws} == active[id] - (s + {ws});
    forall o | o in active && o != id ensures active[o] - (s + {ws}) == active[o] - s {
      assert ws !in active[o];
    }
    assert lhs.Keys == rhs.Keys;
  }

  /** The sockets of `xs` whose send fails. */
  function Failed(xs: set<Socket>, sendOk: Socket -> bool): set<Socket> {
    set w | w in xs && !sendOk(w)
  }

  lemma FailedAdd(xs: set<Socket>, ws: Socket, sendOk: Socket -> bool)
    ensures Failed(xs + {ws}, sendOk) == Failed(xs, sendOk) + (if sendOk(ws) then {} else {ws})
  {
  }

  lemma DropNothing(r: Registry)
    requires Valid(r)
    ensures DropSockets(r, {}) == r
  {
    var d := DropSockets(r, {});
    forall id | id in r.active ensures id in d.active && d.active[id] == r.active[id] {
      assert r.active[id] - {} == r.active[id];
    }
    assert d.active == r.active;
  }

  lemma DisconnectExtendsDrop(r: Registry, s: set<Socket>, ws: Socket)
    requires Valid(r)
    ensures Disconnect(DropSockets(r, s), ws) == DropSockets(r, s + {ws})
  {
    var d := DropSockets(r, s);
    var lhs := Disconnect(d, ws);
    var rhs := DropSockets(r, s + {ws});
    MinusStep(r.users, s, ws);
    MinusStep(r.times, s, ws);
    if ws in d.users {
      var id := r.users[ws];
      forall o | o in r.active && o != id ensures ws !in r.active[o] {
      }
      DropActiveOwned(r.active, s, ws, id);
      assert lhs.active == rhs.active;
    } else {
      forall o | o in r.active ensures ws !in r.active[o] - s {
      }
      DropActiveUnowned(r.active, s, ws);
      assert lhs.active == rhs.active;
    }
  }

  lemma MinusStep<K, V>(m: map<K, V>, s: set<K>, k: K)
    ensures (m - s) - {k} == m - (s + {k})
  {
  }

  /** One more send: a success leaves the registry, a failure disconnects that socket. */
  lemma SendStep(r: Registry, done: set<Socket>, ws: Socket, sendOk: Socket -> bool)
    requires Valid(r)
    ensures DropSockets(r, Failed(done + {ws}, sendOk)) ==
      if sendOk(ws) then DropSockets(r, Failed(done, sendOk)) else Disconnect(DropSockets(r, Failed(done, sendOk)), ws)
  {
    FailedAdd(done, ws, sendOk);
    if !sendOk(ws) {
      DisconnectExtendsDrop(r, Failed(done, sendOk), ws);
    } else {
      assert Failed(done + {ws}, sendOk) == Failed(done, sendOk);
    }
  }

  /**
   * Send to each socket of `targets` in turn, disconnecting every socket
   * whose send fails; reports whether any send succeeded.
   */
  method SendEach(r: Registry, targets: set<Socket>, sendOk: Socket -> bool) returns (anyOk: bool, r': Registry)
    requires Valid(r)
    ensures anyOk <==> exists ws :: ws in targets && sendOk(ws)
    ensures r' == DropSockets(r, Failed(targets, sendOk))
    ensures Valid(r')
  {
    var remaining := targets;
    var done: set<Socket> := {};
    anyOk := false;
    DropNothing(r);
    assert Failed(done, sendOk) == {};
    r' := r;
    while remaining != {}
      invariant done + remaining == targets && done !! remaining
      invariant r' == DropSockets(r, Failed(done, sendOk))
      invariant anyOk <==> exists ws :: ws in done && sendOk(ws)
      decreases |remaining|
    {
      var ws :| ws in remaining;
      SendStep(r, done, ws, sendOk);
      if sendOk(ws) {
        anyOk := true;
      } else {
        r' := Disconnect(r', ws);
      }
      remaining := remaining - {ws};
      done := done + {ws};
    }
    DropSocketsValid(r, Failed(targets, sendOk));
  }

  /**
   * `send_personal_message`: try every socket of the user's current set.
   * True iff some send succeeded; False, with nothing changed, for a user
   * with no entry.
   */
  method SendPersonal(r: Registry, id: string, sendOk: Socket -> bool) returns (success: bool, r': Registry)
    requires Valid(r)
    ensures id !in r.active ==> !success && r' == r
    ensures id in r.active ==> (success <==> exists ws :: ws in r.active[id] && sendOk(ws))
    ensures id in r.active ==> r' == DropSockets(r, Failed(r.active[id], sendOk))
    ensures Valid(r')
  {
    if id !in r.active {
      return false, r;
    }
    success, r' := SendEach(r, r.active[id], sendOk);
  }

  /** `broadcast`: send to every registered socket; exactly the failed ones are dropped. */
  method Broadcast(r: Registry, sendOk: Socket -> bool) returns (r': Registry)
    requires Valid(r)
    ensures r' == DropSockets(r, Failed(r.users.Keys, sendOk))
    ensures forall ws :: ws in r'.users <==> ws in r.users && sendOk(ws)
    ensures Valid(r')
  {
    var _, after := SendEach(r, r.users.Keys, sendOk);
    r' := after;
  }

  lemma DropSocketsValid(r: Registry, s: set<Socket>)
    requires Valid(r)
    ensures Valid(DropSockets(r, s))
  {
    var d := DropSockets(r, s);
    forall w | w in d.users
      ensures d.users[w] in d.active && w in d.active[d.users[w]]
    {
      assert w in r.active[r.users[w]] - s;
    }
  }
}
