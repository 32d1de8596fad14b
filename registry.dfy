/** The connection registry of the notification channel (`ConnectionManager`):
    a map from user id to the set of that user's open connections. */
module Registry {

  type UserId = int

  /** An opaque connection handle (a WebSocket in the source). */
  type Conn = nat

  type Connections = map<UserId, set<Conn>>

  /** `_connections.setdefault(user_id, set()).add(ws)`. */
  function Registered(m: Connections, u: UserId, ws: Conn): (r: Connections)
    ensures r.Keys == m.Keys + {u}
    ensures ws in r[u] && r[u] - {ws} == (if u in m then m[u] else {}) - {ws}
    ensures forall v :: v in m && v != u ==> r[v] == m[v]
  {
    m[u := (if u in m then m[u] else {}) + {ws}]
  }

  /** `disconnect(user_id, ws)`: discard the connection, and delete the user's
      entry when its set becomes empty; an unknown user is left alone. */
  function Unregistered(m: Connections, u: UserId, ws: Conn): (r: Connections)
    ensures u !in m ==> r == m
    ensures u in r <==> u in m && m[u] - {ws} != {}
    ensures u in r ==> r[u] == m[u] - {ws}
    ensures forall v :: v != u ==> (v in r <==> v in m)
    ensures forall v :: v in r && v != u ==> r[v] == m[v]
  {
    if u !in m then m
    else if m[u] - {ws} == {} then m - {u}
    else m[u := m[u] - {ws}]
  }

  /** The effect of `send_to_user(user_id, data)` on the map: the failing
      connections leave the user's set, and the entry stays even when the set
      becomes empty (unlike `disconnect`). */
  function Pruned(m: Connections, u: UserId, broken: set<Conn>): (r: Connections)
    ensures r.Keys == m.Keys
    ensures u in m ==> r[u] == m[u] - broken
    ensures forall v :: v in m && v != u ==> r[v] == m[v]
  {
    if u !in m then m else m[u := m[u] - broken]
  }

  /** Pruning of every user in `users`, each once (pruning twice with the same
      failing connections changes nothing more). */
  function PrunedAll(m: Connections, users: set<UserId>, broken: set<Conn>): (r: Connections)
    ensures r.Keys == m.Keys
    ensures forall v :: v in m ==> r[v] == if v in users then m[v] - broken else m[v]
  {
    map v | v in m :: if v in users then m[v] - broken else m[v]
  }

  lemma PrunedAllStep(m: Connections, users: set<UserId>, u: UserId, broken: set<Conn>)
    ensures Pruned(PrunedAll(m, users, broken), u, broken) == PrunedAll(m, users + {u}, broken)
  {
    var lhs, rhs := Pruned(PrunedAll(m, users, broken), u, broken), PrunedAll(m, users + {u}, broken);
    assert lhs.Keys == rhs.Keys;
    forall v | v in lhs ensures lhs[v] == rhs[v] {
      if v == u {
        assert m[v] - broken - broken == m[v] - broken;
      }
    }
  }

  lemma PrunedTwice(m: Connections, u: UserId, broken: set<Conn>)
    ensures Pruned(Pruned(m, u, broken), u, broken) == Pruned(m, u, broken)
  {
    if u in m {
      assert m[u] - broken - broken == m[u] - broken;
    }
  }

  /** The pruning done by a run of `send_to_user` calls, one per user in `users`, in order. */
  function PrunedSeq(m: Connections, users: seq<UserId>, broken: set<Conn>): Connections
    decreases |users|
  {
    if users == [] then m
    else Pruned(PrunedSeq(m, users[..|users| - 1], broken), users[|users| - 1], broken)
  }

  lemma PrunedSeqSnoc(m: Connections, users: seq<UserId>, u: UserId, broken: set<Conn>)
    ensures PrunedSeq(m, users + [u], broken) == Pruned(PrunedSeq(m, users, broken), u, broken)
  {
    assert (users + [u])[..|users|] == users;
  }

  lemma {:induction false} PrunedSeqAppend(m: Connections, a: seq<UserId>, b: seq<UserId>, broken: set<Conn>)
    ensures PrunedSeq(m, a + b, broken) == PrunedSeq(PrunedSeq(m, a, broken), b, broken)
    decreases |b|
  {
    if b == [] {
      assert a + b == a;
    } else {
      assert (a + b)[..|a + b| - 1] == a + b[..|b| - 1];
      PrunedSeqAppend(m, a, b[..|b| - 1], broken);
    }
  }

  /** A non-empty set has a member (the witness for choosing one). */
  lemma SomeMember(s: set<UserId>)
    requires s != {}
    ensures exists x :: x in s
  {
    if forall x :: x !in s {
      assert false;
    }
  }

  /** The users listed in a sequence. */
  function Members(s: seq<UserId>): set<UserId> {
    set i | 0 <= i < |s| :: s[i]
  }

  lemma MembersSnoc(s: seq<UserId>, u: UserId)
    ensures Members(s + [u]) == Members(s) + {u}
  {
    var t := s + [u];
    forall x | x in Members(t) ensures x in Members(s) + {u} {
      var i :| 0 <= i < |t| && t[i] == x;
      if i < |s| { assert s[i] == x; }
    }
    forall x | x in Members(s) + {u} ensures x in Members(t) {
      if x == u { assert t[|s|] == x; }
      else { var i :| 0 <= i < |s| && s[i] == x; assert t[i] == x; }
    }
  }

  /** However many sends, in whatever order: the failing connections of exactly
      the users sent to are gone, and every entry stays. */
  lemma {:induction false} PrunedSeqIsPrunedAll(m: Connections, users: seq<UserId>, broken: set<Conn>)
    ensures PrunedSeq(m, users, broken) == PrunedAll(m, Members(users), broken)
    decreases |users|
  {
    if users == [] {
      assert PrunedAll(m, {}, broken) == m;
    } else {
      var pre, u := users[..|users| - 1], users[|users| - 1];
      PrunedSeqIsPrunedAll(m, pre, broken);
      PrunedAllStep(m, Members(pre), u, broken);
      assert users == pre + [u];
      MembersSnoc(pre, u);
    }
  }

  /** Pruning twice is pruning once for the union of the users. */
  lemma PrunedAllUnion(m: Connections, a: set<UserId>, b: set<UserId>, broken: set<Conn>)
    ensures PrunedAll(PrunedAll(m, a, broken), b, broken) == PrunedAll(m, a + b, broken)
  {
    var lhs, rhs := PrunedAll(PrunedAll(m, a, broken), b, broken), PrunedAll(m, a + b, broken);
    forall v | v in lhs ensures lhs[v] == rhs[v] {
      assert m[v] - broken - broken == m[v] - broken;
    }
  }

  /** A session's connect followed by its disconnect restores the registry,
      except that a stale empty entry left behind by pruning is removed. */
  lemma ConnectThenDisconnect(m: Connections, u: UserId, ws: Conn)
    requires u in m ==> ws !in m[u]
    ensures Unregistered(Registered(m, u, ws), u, ws)
         == if u in m && m[u] == {} then m - {u} else m
  {
    var r := Registered(m, u, ws);
    if u in m && m[u] != {} {
      assert r[u] - {ws} == m[u];
      assert Unregistered(r, u, ws) == r[u := m[u]];
      assert r[u := m[u]] == m;
    } else if u in m {
      assert r[u] - {ws} == {};
    } else {
      assert r[u] - {ws} == {};
      assert r - {u} == m;
    }
  }

  /** The asymmetry between the two removal paths: after the only connection of
      a user fails a send, `connected_users` still lists that user, with no
      connection; after `disconnect` of that connection it does not. */
  lemma PruneKeepsEmptyEntry(m: Connections, u: UserId, ws: Conn, broken: set<Conn>)
    requires u in m && m[u] == {ws} && ws in broken
    ensures u in Pruned(m, u, broken) && Pruned(m, u, broken)[u] == {}
    ensures u !in Unregistered(m, u, ws)
  {
  }

  class ConnectionManager {
    var connections: Connections

    constructor ()
      ensures connections == map[]
    {
      connections := map[];
    }

    /** `connected_users`: a snapshot of the users with an entry. */
    function ConnectedUsers(): set<UserId>
      reads this
    {
      connections.Keys
    }

    /** `connect(user_id, ws)` (the `accept` of the socket is transport). */
    method Connect(u: UserId, ws: Conn)
      modifies this
      ensures connections == Registered(old(connections), u, ws)
    {
      var current := if u in connections then connections[u] else {};
      connections := connections[u := current + {ws}];
    }

    /** `disconnect(user_id, ws)`. */
    method Disconnect(u: UserId, ws: Conn)
      modifies this
      ensures connections == Unregistered(old(connections), u, ws)
    {
      if u in connections {
        connections := connections[u := connections[u] - {ws}];
        if connections[u] == {} {
          connections := connections - {u};
          assert connections == old(connections) - {u};
        }
      }
    }

    /** `send_to_user(user_id, data)`: try every connection of the user; a
        connection in `broken` is one whose `send_json` raises. Returns the
        connections the message reached. */
    method SendToUser(u: UserId, broken: set<Conn>) returns (delivered: set<Conn>)
      modifies this
      ensures connections == Pruned(old(connections), u, broken)
      ensures delivered == if u in old(connections) then old(connections)[u] - broken else {}
    {
      delivered := {};
      if u !in connections {
        return;
      }
      var all := connections[u];
      var pending := all;
      var dead: seq<Conn> := [];
      while pending != {}
        invariant pending <= all
        invariant delivered == (all - pending) - broken
        invariant forall k :: 0 <= k < |dead| ==> dead[k] in all * broken
        invariant forall c :: c in (all - pending) * broken ==> c in dead
        invariant connections == old(connections)
        decreases pending
      {
        var ws :| ws in pending;
        if ws in broken {
          dead := dead + [ws];
        } else {
          delivered := delivered + {ws};
        }
        pending := pending - {ws};
      }
      var i := 0;
      ghost var removed: set<Conn> := {};
      while i < |dead|
        invariant 0 <= i <= |dead|
        invariant u in connections && connections.Keys == old(connections).Keys
        invariant removed <= all * broken
        invariant forall k :: 0 <= k < i ==> dead[k] in removed
        invariant connections[u] == all - removed
        invariant forall v :: v in connections && v != u ==> connections[v] == old(connections)[v]
      {
        connections := connections[u := connections[u] - {dead[i]}];
        removed := removed + {dead[i]};
        i := i + 1;
      }
      assert removed == all * broken;
      assert all - all * broken == all - broken;
      assert connections == old(connections)[u := all - broken] by {
        assert connections.Keys == old(connections)[u := all - broken].Keys;
      }
    }
  }
}
