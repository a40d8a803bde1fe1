/** The server over its loop: each method does to the tables what the model's step does, and
    states the assertions of the program. */
module TcpServers {
  import Numerals
  import opened Connections
  import opened Lifecycles

  class TcpServer {
    const name: string
    var nextConnId: nat
    var connections: map<string, Entry>

    /** The loop's side: the connections themselves, the poller's channels and the
        descriptors the kernel holds open. */
    var peers: seq<Peer>
    var channels: map<Fd, Owner>
    var open: set<Fd>
    ghost var destroyed: seq<nat>
    ghost var released: set<nat>
    ghost var waiting: set<Fd>

    ghost function Model(): Loop
      reads this
    {
      Loop(name, nextConnId, connections, peers, channels, waiting, open, destroyed, released)
    }

    ghost predicate Valid()
      reads this
    {
      Inv(Model())
    }

    constructor (name: string)
      ensures Valid() && Model() == Empty(name)
    {
      hide Inv;
      this.name := name;
      nextConnId, connections := 1, map[];
      peers, channels, open := [], map[], {};
      destroyed, released, waiting := [], {}, {};
      new;
      EmptyInv(name);
    }

    /** Accepts a socket with a descriptor that was not open. */
    method NewConnection(sockfd: Fd)
      requires Valid() && Lifecycles.Enabled(Model(), Accept(sockfd))
      modifies this
      ensures Valid() && Model() == Lifecycles.Apply(old(Model()), Accept(sockfd))
      ensures nextConnId == old(nextConnId) + 1 && ConnName(name, old(nextConnId)) in connections
    {
      hide Inv, ConnName;
      StepIsSafe(Model(), Accept(sockfd));
      open := open + {sockfd};
      var connName := ConnName(name, nextConnId);
      var conn := |peers|;
      peers := peers + [Peer(sockfd, Connecting, Served(nextConnId))];
      nextConnId := nextConnId + 1;
      connections := connections[connName := To(conn)];
      ConnectEstablished(conn);
    }

    method ConnectEstablished(conn: nat)
      requires conn < |peers| && peers[conn].stage.Connecting? && peers[conn].fd !in channels
      modifies this`peers, this`channels
      ensures Model() == Lifecycles.Established(old(Model()), conn)
    {
      peers := peers[conn := peers[conn].(stage := Connected)];
      AddChannel(peers[conn].fd, Connection(conn));
    }

    /** Poller::updateChannel for a channel that has no index yet. */
    method AddChannel(fd: Fd, owner: Owner)
      requires fd !in channels
      modifies this`channels
      ensures channels == old(channels)[fd := owner]
    {
      channels := channels[fd := owner];
    }

    method RemoveChannel(fd: Fd, owner: Owner)
      requires Registered(Model(), fd, owner)
      modifies this`channels
      ensures channels == old(channels) - {fd}
    {
      channels := channels - {fd};
    }

    method ConnectDestroyed(conn: nat)
      requires CanDestroy(Model(), conn)
      modifies this
      ensures Model() == Gone(old(Model()), conn)
    {
      assert peers[conn].stage == Connected || peers[conn].stage == Disconnecting;
      peers := peers[conn := peers[conn].(stage := Disconnected)];
      destroyed := destroyed + [conn];
      RemoveChannel(peers[conn].fd, Connection(conn));
    }

    /** A close callback of the user that removes the given names. */
    method CloseCallback(removed: seq<string>)
      requires Valid()
      modifies this
      ensures EntriesExist(old(Model())) && Valid() && Model() == ExpireAll(old(Model()), removed)
    {
      hide Inv, ExpireAll, Expired;
      EntriesKnown(Model());
      ghost var start := Model();
      var i := 0;
      assert removed[0..] == removed;
      while i < |removed|
        invariant i <= |removed| && Valid() && EntriesExist(start) && EntriesExist(Model())
        invariant ExpireAll(Model(), removed[i..]) == ExpireAll(start, removed)
      {
        NextExpiry(Model(), removed, i);
        RemoveConn(removed[i]);
        EntriesKnown(Model());
        i := i + 1;
      }
      assert removed[i..] == [];
      NoExpiry(Model());
    }

    /** handleClose of a connection of this server calls removeConnection, and the loop's
        thread calls this at once.  The close callback must leave this connection alone. */
    method RemoveConnectionInLoop(conn: nat, removed: seq<string>)
      requires Valid() && Lifecycles.Enabled(Model(), PeerClosed(conn, removed)) && peers[conn].kind.Served?
      modifies this
      ensures Valid() && Model() == Lifecycles.Apply(old(Model()), PeerClosed(conn, removed))
      ensures conn < |peers| && peers[conn].kind == old(peers[conn]).kind
      ensures multiset(destroyed)[conn] == 1 && ConnName(name, peers[conn].kind.id) !in connections
    {
      hide Inv, ConnName, ExpireAll, ExpiriesSafe, OwnNameIn;
      StepIsSafe(Model(), PeerClosed(conn, removed));
      ExpiriesAdvance(Model(), removed, conn);
      CloseCallback(removed);
      ConnectDestroyed(conn);
      var n := Erase(ConnName(name, peers[conn].kind.id));
      assert n == 1;
      OnceGone(Model(), conn);
    }

    method Erase(connName: string) returns (n: nat)
      modifies this`connections
      ensures connections == old(connections) - {connName}
      ensures n == if connName in old(connections) then 1 else 0
    {
      n := if connName in connections then 1 else 0;
      connections := connections - {connName};
    }

    /** The subscript operator: a name that is not there gets a null entry. */
    method GetConn(connName: string) returns (conn: Entry)
      requires Valid()
      modifies this`connections
      ensures Valid() && Model() == Lookup(old(Model()), connName)
      ensures conn == if connName in old(connections) then old(connections)[connName] else Null
      ensures conn.To? ==> conn.handle < |peers| && IsLive(peers[conn.handle])
    {
      hide Inv, ConnName;
      LookupKeeps(Model(), connName);
      EntriesAreLive(Model());
      if connName !in connections {
        connections := connections[connName := Null];
      }
      conn := connections[connName];
    }

    method ShutdownAll(conn: nat)
      requires conn < |peers|
      modifies this`peers
      ensures Model() == ShutDownPeer(old(Model()), conn)
    {
      if peers[conn].stage.Connected? {
        peers := peers[conn := peers[conn].(stage := Disconnecting)];
      }
    }

    /** The session of that name is over. */
    method RemoveConn(connName: string)
      requires Valid() && Lifecycles.Enabled(Model(), Expire(connName))
      modifies this
      ensures Valid() && Model() == Lifecycles.Apply(old(Model()), Expire(connName))
      ensures connName !in connections || connections[connName] == Null
    {
      hide Inv, ConnName;
      StepIsSafe(Model(), Expire(connName));
      var conn := GetConn(connName);
      if conn.To? {
        LiveCanBeDestroyed(Model(), conn.handle);
        ShutdownAll(conn.handle);
        ConnectDestroyed(conn.handle);
        var n := Erase(connName);
        assert n == 1;
      }
    }
  }

  lemma NextExpiry(l: Loop, names: seq<string>, i: nat)
    requires EntriesExist(l) && i < |names|
    ensures EntriesExist(Expired(l, names[i]))
    ensures ExpireAll(l, names[i..]) == ExpireAll(Expired(l, names[i]), names[i + 1..])
  {
    hide Expired;
    ExpiryKeepsEntries(l, names[i]);
    var rest := names[i..];
    assert rest[0] == names[i] && rest[1..] == names[i + 1..];
  }

  lemma ExpiryKeepsEntries(l: Loop, name: string)
    requires EntriesExist(l)
    ensures EntriesExist(Expired(l, name))
  {
  }

  lemma NoExpiry(l: Loop)
    requires EntriesExist(l)
    ensures ExpireAll(l, []) == l
  {
  }

  lemma OnceGone(l: Loop, h: nat)
    requires Inv(l) && h < |l.peers| && l.peers[h].stage.Disconnected?
    ensures multiset(l.destroyed)[h] == 1
  {
    hide Named, Numbered, Polled, Held;
  }

  lemma EntriesAreLive(l: Loop)
    requires Inv(l)
    ensures forall name :: name in l.connections && l.connections[name].To? ==>
              l.connections[name].handle < |l.peers| && IsLive(l.peers[l.connections[name].handle])
  {
    hide ConnName, Numbered, Polled, Held, Once;
  }
}
