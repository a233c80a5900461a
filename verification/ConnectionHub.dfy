/**
 * Who is online, and fan-out. A user may have several connections; the hub holds them weakly, so a
 * connection may be gone while it is still listed. `alive` stands for what the weak pointers can lock.
 */
module Hub {
  import opened Common
  import opened MessageLog

  type ConnectionId = nat

  ghost predicate NoDuplicates(q: seq<nat>) {
    forall i, j | 0 <= i < j < |q| :: q[i] != q[j]
  }

  function Keep(q: seq<nat>, good: set<nat>): (kept: seq<nat>)
    ensures forall x :: x in kept <==> x in q && x in good
  {
    if q == [] then []
    else
      var k := |q| - 1;
      assert q == q[..k] + [q[k]];
      if q[k] in good then Keep(q[..k], good) + [q[k]] else Keep(q[..k], good)
  }

  lemma {:induction false} KeepHasNoDuplicates(q: seq<nat>, good: set<nat>)
    requires NoDuplicates(q)
    ensures NoDuplicates(Keep(q, good))
  {
    if q != [] {
      var k := |q| - 1;
      KeepHasNoDuplicates(q[..k], good);
      assert q[k] !in q[..k];
    }
  }

  type Outboxes = map<ConnectionId, seq<string>>
  type Registry = map<SteamId, seq<ConnectionId>>

  function Box(o: Outboxes, x: ConnectionId): seq<string> {
    if x in o then o[x] else []
  }

  /** The live connections of one user, in the order they were added. */
  function LiveOf(r: Registry, alive: set<ConnectionId>, user: SteamId): (live: seq<ConnectionId>)
    ensures forall x :: x in live <==> user in r && x in r[user] && x in alive
  {
    if user in r then Keep(r[user], alive) else []
  }

  function SendEach(o: Outboxes, connections: seq<ConnectionId>, frame: string, except: Option<ConnectionId>): Outboxes {
    if connections == [] then o
    else
      var k := |connections| - 1;
      var sent := SendEach(o, connections[..k], frame, except);
      if except == Some(connections[k]) then sent else sent[connections[k] := Box(sent, connections[k]) + [frame]]
  }

  function SendUsers(o: Outboxes, r: Registry, alive: set<ConnectionId>, users: seq<SteamId>,
                     frame: string, except: Option<ConnectionId>): Outboxes
  {
    if users == [] then o
    else
      var k := |users| - 1;
      SendEach(SendUsers(o, r, alive, users[..k], frame, except), LiveOf(r, alive, users[k]), frame, except)
  }

  /** Every connection is listed once, under one user. */
  ghost predicate ListedOnce(r: Registry) {
    && (forall u | u in r :: NoDuplicates(r[u]))
    && (forall u, v, x | u in r && v in r && x in r[u] && x in r[v] :: u == v)
  }

  lemma {:induction false} SendEachIsExact(o: Outboxes, connections: seq<ConnectionId>, frame: string,
                                           except: Option<ConnectionId>, x: ConnectionId)
    requires NoDuplicates(connections)
    ensures Box(SendEach(o, connections, frame, except), x) ==
            Box(o, x) + (if x in connections && except != Some(x) then [frame] else [])
  {
    if connections != [] {
      var k := |connections| - 1;
      var before := connections[..k];
      assert NoDuplicates(before) && connections[k] !in before;
      SendEachIsExact(o, before, frame, except, x);
      assert connections == before + [connections[k]];
    }
  }

  ghost predicate Reached(r: Registry, alive: set<ConnectionId>, users: seq<SteamId>, x: ConnectionId) {
    exists u :: u in users && u in r && x in r[u] && x in alive
  }

  /**
   * A fan-out to a duplicate-free list of users hands the frame exactly once to each live connection of
   * each of them, except the named one, and to nobody else.
   */
  lemma {:induction false} FanOutIsExact(o: Outboxes, r: Registry, alive: set<ConnectionId>, users: seq<SteamId>,
                                         frame: string, except: Option<ConnectionId>, x: ConnectionId)
    requires ListedOnce(r) && NoDuplicates(users)
    ensures Box(SendUsers(o, r, alive, users, frame, except), x) ==
            Box(o, x) + (if Reached(r, alive, users, x) && except != Some(x) then [frame] else [])
  {
    if users != [] {
      var k := |users| - 1;
      var live := LiveOf(r, alive, users[k]);
      FanOutIsExact(o, r, alive, users[..k], frame, except, x);
      LiveHasNoDuplicates(r, alive, users[k]);
      SendEachIsExact(SendUsers(o, r, alive, users[..k], frame, except), live, frame, except, x);
      ReachedLast(r, alive, users, x);
    }
  }

  lemma LiveHasNoDuplicates(r: Registry, alive: set<ConnectionId>, user: SteamId)
    requires ListedOnce(r)
    ensures NoDuplicates(LiveOf(r, alive, user))
  {
    if user in r { KeepHasNoDuplicates(r[user], alive); }
  }

  /** The last user adds exactly their own connections: nobody else's list holds them. */
  lemma ReachedLast(r: Registry, alive: set<ConnectionId>, users: seq<SteamId>, x: ConnectionId)
    requires ListedOnce(r) && NoDuplicates(users) && users != []
    ensures var k := |users| - 1;
            var last := x in LiveOf(r, alive, users[k]);
            && (Reached(r, alive, users, x) <==> last || Reached(r, alive, users[..k], x))
            && !(last && Reached(r, alive, users[..k], x))
  {
    var k := |users| - 1;
    assert users == users[..k] + [users[k]] && users[k] !in users[..k];
  }

  lemma RemovalKeepsLive(listed: seq<ConnectionId>, alive: set<ConnectionId>, x: ConnectionId)
    ensures var sockets := Keep(listed, alive - {x});
            Keep(sockets, alive) == sockets && sockets == Keep(Keep(listed, alive), alive - {x})
  {
    KeepKeeps(listed, alive, alive - {x});
    KeepAll(Keep(listed, alive - {x}), alive);
  }

  lemma StillListedOnce(r: Registry, user: SteamId, good: set<ConnectionId>)
    requires ListedOnce(r) && user in r
    ensures ListedOnce(r[user := Keep(r[user], good)]) && ListedOnce(r - {user})
  {
    KeepHasNoDuplicates(r[user], good);
  }

  class ConnectionHub {
    var connections: Registry
    var alive: set<ConnectionId>
    var outbox: Outboxes

    /** No user is kept with an empty list. */
    ghost predicate Valid()
      reads this
    {
      forall u | u in connections :: connections[u] != []
    }

    constructor ()
      ensures Valid() && ListedOnce(connections) && connections == map[] && alive == {} && outbox == map[]
    {
      connections, alive, outbox := map[], {}, map[];
    }

    /** A connection is listed again if it was listed already. */
    method Add(user: SteamId, x: ConnectionId)
      requires Valid()
      modifies this`connections
      ensures Valid()
      ensures old(ListedOnce(connections)) && (forall u | u in old(connections) :: x !in old(connections)[u]) ==> ListedOnce(connections)
      ensures connections == old(connections)[user := (if user in old(connections) then old(connections)[user] else []) + [x]]
    {
      var before := if user in connections then connections[user] else [];
      connections := connections[user := before + [x]];
    }

    /** Drops the connection, and with it every entry of that user that is already gone. */
    method Remove(user: SteamId, x: ConnectionId)
      requires Valid()
      modifies this`connections
      ensures Valid() && (old(ListedOnce(connections)) ==> ListedOnce(connections))
      ensures forall u | u != user :: u in connections <==> u in old(connections)
      ensures forall u | u != user && u in connections :: connections[u] == old(connections)[u]
      ensures LiveOf(connections, alive, user) == Keep(LiveOf(old(connections), alive, user), alive - {x})
      ensures forall y :: user in connections && y in connections[user] <==>
                            user in old(connections) && y in old(connections)[user] && y in alive && y != x
    {
      if user !in connections {
        return;
      }
      var sockets := Keep(connections[user], alive - {x});
      RemovalKeepsLive(connections[user], alive, x);
      if ListedOnce(connections) { StillListedOnce(connections, user, alive - {x}); }
      connections := if sockets == [] then connections - {user} else connections[user := sockets];
    }

    method Resolve(user: SteamId) returns (live: seq<ConnectionId>)
      ensures live == LiveOf(connections, alive, user)
      ensures forall x :: x in live <==> user in connections && x in connections[user] && x in alive
    {
      live := [];
      if user !in connections {
        return;
      }
      var listed := connections[user];
      for i := 0 to |listed|
        invariant live == Keep(listed[..i], alive)
      {
        assert listed[..i + 1][..i] == listed[..i];
        if listed[i] in alive {
          live := live + [listed[i]];
        }
      }
      assert listed[..|listed|] == listed;
    }

    method SendEachLive(live: seq<ConnectionId>, frame: string, except: Option<ConnectionId>)
      modifies this`outbox
      ensures outbox == SendEach(old(outbox), live, frame, except)
    {
      for i := 0 to |live|
        invariant outbox == SendEach(old(outbox), live[..i], frame, except)
      {
        assert live[..i + 1][..i] == live[..i];
        if except != Some(live[i]) {
          outbox := outbox[live[i] := Box(outbox, live[i]) + [frame]];
        }
      }
      assert live[..|live|] == live;
    }

    method SendToAllExcept(users: seq<SteamId>, frame: string, except: Option<ConnectionId>)
      modifies this`outbox
      ensures outbox == SendUsers(old(outbox), connections, alive, users, frame, except)
    {
      for i := 0 to |users|
        invariant outbox == SendUsers(old(outbox), connections, alive, users[..i], frame, except)
      {
        assert users[..i + 1][..i] == users[..i];
        var live := Resolve(users[i]);
        SendEachLive(live, frame, except);
      }
      assert users[..|users|] == users;
    }

    function Online(candidates: seq<SteamId>): (online: set<SteamId>)
      reads this
      ensures forall u :: u in online <==> u in candidates && u in connections && exists x :: x in connections[u] && x in alive
    {
      assert forall u :: LiveOf(connections, alive, u) != [] <==> u in connections && exists x :: x in connections[u] && x in alive by {
        forall u
          ensures LiveOf(connections, alive, u) != [] <==> u in connections && exists x :: x in connections[u] && x in alive
        {
          var live := LiveOf(connections, alive, u);
          if live != [] { assert live[0] in live; }
        }
      }
      set u | u in candidates && LiveOf(connections, alive, u) != []
    }

    method OnlineAmong(candidates: seq<SteamId>) returns (online: seq<SteamId>)
      ensures online == Keep(candidates, Online(candidates))
      ensures forall u :: u in online <==> u in candidates && u in connections && exists x :: x in connections[u] && x in alive
    {
      online := [];
      for i := 0 to |candidates|
        invariant online == Keep(candidates[..i], Online(candidates))
      {
        var live := Resolve(candidates[i]);
        assert candidates[..i + 1] == candidates[..i] + [candidates[i]] && candidates[i] in candidates;
        KeepOneMore(candidates[..i], candidates[i], Online(candidates));
        if live != [] {
          online := online + [candidates[i]];
        }
      }
      assert candidates[..|candidates|] == candidates;
    }
  }

  lemma KeepOneMore(q: seq<nat>, x: nat, good: set<nat>)
    ensures Keep(q + [x], good) == if x in good then Keep(q, good) + [x] else Keep(q, good)
  {
    assert (q + [x])[..|q|] == q;
  }

  lemma {:induction false} KeepKeeps(q: seq<nat>, wide: set<nat>, narrow: set<nat>)
    requires narrow <= wide
    ensures Keep(Keep(q, wide), narrow) == Keep(q, narrow)
  {
    if q != [] {
      var k := |q| - 1;
      KeepKeeps(q[..k], wide, narrow);
      if q[k] in wide { KeepOneMore(Keep(q[..k], wide), q[k], narrow); }
    }
  }

  lemma {:induction false} KeepAll(q: seq<nat>, good: set<nat>)
    requires forall x | x in q :: x in good
    ensures Keep(q, good) == q
  {
    if q != [] {
      var k := |q| - 1;
      KeepAll(q[..k], good);
      assert q == q[..k] + [q[k]];
    }
  }
}
