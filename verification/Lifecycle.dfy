/** The connections of one loop, from the accept or the connector to the destruction: the
    server's table of names, the poller's table of descriptors and the kernel's set of open
    descriptors, under every order of events. */
module Lifecycles {
  import Numerals
  import opened Connections

  type Fd = nat

  /** Connections accepted by the server carry the number in their name. */
  datatype Kind = Served(id: nat) | Upstream

  datatype Peer = Peer(fd: Fd, stage: Stage, kind: Kind)

  /** Whose channel the poller has for a descriptor. */
  datatype Owner = Attempt | Connection(handle: nat)

  /** A value of TcpServer::connections_; the subscript operator inserts null ones. */
  datatype Entry = Null | To(handle: nat)

  /** `peers` are the connections ever made, `released` those whose last reference is gone,
      so that their descriptor is closed; `destroyed` lists the calls of connectDestroyed.
      `waiting` are the sockets that connectors wait for. */
  datatype Loop = Loop(
    prefix: string,
    nextConnId: nat,
    connections: map<string, Entry>,
    peers: seq<Peer>,
    channels: map<Fd, Owner>,
    waiting: set<Fd>,
    open: set<Fd>,
    destroyed: seq<nat>,
    released: set<nat>)

  function Empty(prefix: string): Loop {
    Loop(prefix, 1, map[], [], map[], {}, {}, [], {})
  }

  function ConnName(prefix: string, id: nat): string {
    prefix + "#" + Numerals.Digits(id, 10)
  }

  // ---------------------------------------------------------------- operations

  function AddPeer(l: Loop, fd: Fd, kind: Kind): Loop {
    l.(peers := l.peers + [Peer(fd, Connecting, kind)])
  }

  function SetStage(l: Loop, h: nat, stage: Stage): Loop
    requires h < |l.peers|
  {
    l.(peers := l.peers[h := l.peers[h].(stage := stage)])
  }

  function Established(l: Loop, h: nat): Loop
    requires h < |l.peers|
  {
    SetStage(l, h, Connected).(channels := l.channels[l.peers[h].fd := Connection(h)])
  }

  /** connectDestroyed. */
  function Gone(l: Loop, h: nat): Loop
    requires h < |l.peers|
  {
    SetStage(l, h, Disconnected).(channels := l.channels - {l.peers[h].fd}, destroyed := l.destroyed + [h])
  }

  function Accepted(l: Loop, fd: Fd): Loop {
    var h := |l.peers|;
    var m := l.(nextConnId := l.nextConnId + 1,
    connections := l.connections[ConnName(l.prefix, l.nextConnId) := To(h)],
    open := l.open + {fd});
    Established(AddPeer(m, fd, Served(l.nextConnId)), h)
  }

  /** A connector lets go of its channel. */
  function Detached(l: Loop, fd: Fd): Loop {
    l.(channels := l.channels - {fd}, waiting := l.waiting - {fd})
  }

  function HandedOver(l: Loop, fd: Fd): Loop {
    Established(AddPeer(Detached(l, fd), fd, Upstream), |l.peers|)
  }

  function Dialled(l: Loop, fd: Fd): Loop {
    l.(channels := l.channels[fd := Attempt], waiting := l.waiting + {fd}, open := l.open + {fd})
  }

  /** removeConnectionInLoop for a connection of the server, TcpClient::removeConnection for
      another. */
  function Closed(l: Loop, h: nat): Loop
    requires h < |l.peers|
  {
    var m := Gone(l, h);
    match l.peers[h].kind
    case Served(id) => m.(connections := m.connections - {ConnName(l.prefix, id)})
    case Upstream => m
  }

  function ShutDownPeer(l: Loop, h: nat): Loop
    requires h < |l.peers|
  {
    if l.peers[h].stage.Connected? then SetStage(l, h, Disconnecting) else l
  }

  function Lookup(l: Loop, name: string): Loop {
    if name in l.connections then l else l.(connections := l.connections[name := Null])
  }

  /** removeConn. */
  function Expired(l: Loop, name: string): Loop
    requires EntriesExist(l)
  {
    var m := Lookup(l, name);
    match m.connections[name]
    case Null => m
    case To(h) =>
      var g := Gone(ShutDownPeer(m, h), h);
      g.(connections := g.connections - {name})
  }

  function ExpireAll(l: Loop, names: seq<string>): (m: Loop)
    requires EntriesExist(l)
    ensures EntriesExist(m) && |m.peers| == |l.peers|
    decreases |names|
  {
    if names == [] then l else ExpireAll(Expired(l, names[0]), names[1..])
  }

  // ---------------------------------------------------------------- steps

  /** A connector that dials waits for its socket until this is closed, handed over, or merely
      forgotten by the connector's destructor.  When a peer closes, the user's close callback
      comes first and may remove any names. */
  datatype Step =
    | Accept(fd: Fd)
    | Dial(fd: Fd)
    | AttemptEnds(fd: Fd)
    | Abandon(fd: Fd)
    | HandOver(fd: Fd)
    | PeerClosed(h: nat, removed: seq<string>)
    | Expire(name: string)
    | GetConn(name: string)
    | ShutDown(h: nat)
    | ClientDropped(h: nat)
    | Release(h: nat)

  predicate EntriesExist(l: Loop) {
    forall name :: name in l.connections && l.connections[name].To? ==> l.connections[name].handle < |l.peers|
  }

  predicate OwnNameIn(l: Loop, h: nat, names: seq<string>)
    requires h < |l.peers|
  {
    l.peers[h].kind.Served? && ConnName(l.prefix, l.peers[h].kind.id) in names
  }

  predicate Registered(l: Loop, fd: Fd, owner: Owner) {
    fd in l.channels && l.channels[fd] == owner
  }

  /** The kernel gives out descriptors that are not open; the poller reports channels it
      has; a close callback leaves its own connection alone; a connection is released after it
      was destroyed. */
  predicate Enabled(l: Loop, step: Step) {
    && EntriesExist(l)
    && match step
       case Accept(fd) => fd !in l.open
       case Dial(fd) => fd !in l.open
       case AttemptEnds(fd) => fd in l.waiting
       case Abandon(fd) => fd in l.waiting
       case HandOver(fd) => fd in l.waiting
       case PeerClosed(h, removed) =>
         && h < |l.peers| && Registered(l, l.peers[h].fd, Connection(h))
         && !OwnNameIn(l, h, removed)
       case Expire(_) => true
       case GetConn(_) => true
       case ShutDown(h) => h < |l.peers|
       case ClientDropped(h) => h < |l.peers| && l.peers[h].kind.Upstream? && !l.peers[h].stage.Disconnected?
       case Release(h) => h < |l.peers| && l.peers[h].stage.Disconnected? && h !in l.released
  }

  function Apply(l: Loop, step: Step): Loop
    requires Enabled(l, step)
  {
    match step
    case Accept(fd) => Accepted(l, fd)
    case Dial(fd) => Dialled(l, fd)
    case AttemptEnds(fd) => Detached(l, fd).(open := l.open - {fd})
    case Abandon(fd) => Detached(l, fd)
    case HandOver(fd) => HandedOver(l, fd)
    case PeerClosed(h, removed) => Closed(ExpireAll(l, removed), h)
    case Expire(name) => Expired(l, name)
    case GetConn(name) => Lookup(l, name)
    case ShutDown(h) => ShutDownPeer(l, h)
    case ClientDropped(h) => Gone(ShutDownPeer(l, h), h)
    case Release(h) => l.(released := l.released + {h}, open := l.open - {l.peers[h].fd})
  }

  /** What the assertions of connectDestroyed and removeChannel ask. */
  predicate CanDestroy(l: Loop, h: nat) {
    && h < |l.peers|
    && (l.peers[h].stage.Connected? || l.peers[h].stage.Disconnecting?)
    && Registered(l, l.peers[h].fd, Connection(h))
  }

  predicate ExpirySafe(l: Loop, name: string) {
    name in l.connections && l.connections[name].To? ==> CanDestroy(l, l.connections[name].handle)
  }

  predicate ExpiriesSafe(l: Loop, names: seq<string>)
    requires EntriesExist(l)
    decreases |names|
  {
    names == [] || (ExpirySafe(l, names[0]) && ExpiriesSafe(Expired(l, names[0]), names[1..]))
  }

  /** A channel may be added only for a descriptor the poller has no channel for. */
  predicate CanAdd(l: Loop, fd: Fd) {
    fd !in l.channels
  }

  /** The assertions a step comes across: of adding a channel, of removing one, which must be
      the one the poller has, and of erasing a name, which must be found. */
  predicate Safe(l: Loop, step: Step)
    requires Enabled(l, step)
  {
    match step
    case Accept(fd) => CanAdd(l, fd)
    case Dial(fd) => CanAdd(l, fd)
    case AttemptEnds(fd) => Registered(l, fd, Attempt)
    case Abandon(fd) => Registered(l, fd, Attempt)
    case HandOver(fd) => Registered(l, fd, Attempt) && CanAdd(Detached(l, fd), fd)
    case PeerClosed(h, removed) =>
      && ExpiriesSafe(l, removed)
      && var m := ExpireAll(l, removed);
      && CanDestroy(m, h)
      && (m.peers[h].kind.Served? ==> ConnName(m.prefix, m.peers[h].kind.id) in m.connections)
    case Expire(name) => ExpirySafe(l, name)
    case ClientDropped(h) => CanDestroy(l, h)
    case _ => true
  }

  predicate IsRun(l: Loop, steps: seq<Step>)
    decreases |steps|
  {
    steps == [] || (Enabled(l, steps[0]) && IsRun(Apply(l, steps[0]), steps[1..]))
  }

  predicate RunIsSafe(l: Loop, steps: seq<Step>)
    requires IsRun(l, steps)
    decreases |steps|
  {
    steps == [] || (Safe(l, steps[0]) && RunIsSafe(Apply(l, steps[0]), steps[1..]))
  }

  function Exec(l: Loop, steps: seq<Step>): Loop
    requires IsRun(l, steps)
    decreases |steps|
  {
    if steps == [] then l else Exec(Apply(l, steps[0]), steps[1..])
  }

  // ---------------------------------------------------------------- the invariant

  predicate IsLive(p: Peer) {
    p.stage.Connected? || p.stage.Disconnecting?
  }

  predicate Listed(l: Loop, h: nat)
    requires h < |l.peers|
  {
    l.peers[h].kind.Served? ==>
      var name := ConnName(l.prefix, l.peers[h].kind.id);
      name in l.connections && l.connections[name] == To(h)
  }

  /** The server's table lists the live connections it accepted, each under its own name. */
  predicate Named(l: Loop) {
    && (forall h :: 0 <= h < |l.peers| && IsLive(l.peers[h]) ==> Listed(l, h))
    && (forall name :: name in l.connections && l.connections[name].To? ==>
          var h := l.connections[name].handle;
          && h < |l.peers| && IsLive(l.peers[h]) && l.peers[h].kind.Served?
          && name == ConnName(l.prefix, l.peers[h].kind.id))
  }

  /** Names are given out once. */
  predicate Numbered(l: Loop) {
    && (forall h :: 0 <= h < |l.peers| && l.peers[h].kind.Served? ==> l.peers[h].kind.id < l.nextConnId)
    && (forall h, k :: 0 <= h < k < |l.peers| && l.peers[h].kind.Served? && l.peers[k].kind.Served? ==>
          l.peers[h].kind.id < l.peers[k].kind.id)
  }

  /** The poller has a channel for each live connection and for no destroyed one, and for each
      socket that is waited for. */
  ghost predicate Polled(l: Loop) {
    && (forall h :: 0 <= h < |l.peers| && IsLive(l.peers[h]) ==> Registered(l, l.peers[h].fd, Connection(h)))
    && (forall fd :: fd in l.channels && l.channels[fd].Connection? ==>
          var h := l.channels[fd].handle;
          h < |l.peers| && IsLive(l.peers[h]) && l.peers[h].fd == fd)
    && (forall fd :: fd in l.waiting <==> Registered(l, fd, Attempt))
  }

  /** A descriptor is open while an attempt or a connection holds it, and only one does. */
  ghost predicate Held(l: Loop) {
    && (forall h :: 0 <= h < |l.peers| && h !in l.released ==>
          l.peers[h].fd in l.open && !Registered(l, l.peers[h].fd, Attempt))
    && (forall h, k :: 0 <= h < k < |l.peers| && h !in l.released && k !in l.released ==> l.peers[h].fd != l.peers[k].fd)
    && (forall fd :: Registered(l, fd, Attempt) ==> fd in l.open)
    && (forall h :: h in l.released ==> h < |l.peers| && l.peers[h].stage.Disconnected?)
  }

  /** connectDestroyed is called once for each connection that is disconnected. */
  ghost predicate Once(l: Loop) {
    && (forall h :: 0 <= h < |l.peers| ==> !l.peers[h].stage.Connecting?)
    && (forall h :: multiset(l.destroyed)[h] == if 0 <= h < |l.peers| && l.peers[h].stage.Disconnected? then 1 else 0)
  }

  ghost predicate Inv(l: Loop) {
    Named(l) && Numbered(l) && Polled(l) && Held(l) && Once(l)
  }

  lemma NamesDiffer(prefix: string, i: nat, j: nat)
    ensures ConnName(prefix, i) == ConnName(prefix, j) <==> i == j
  {
    if ConnName(prefix, i) == ConnName(prefix, j) {
      var head := prefix + "#";
      assert ConnName(prefix, i)[|head|..] == Numerals.Digits(i, 10);
      assert ConnName(prefix, j)[|head|..] == Numerals.Digits(j, 10);
      Numerals.DigitsParse(i, 10);
      Numerals.DigitsParse(j, 10);
    }
  }

  /** No other connection of the server has the name. */
  lemma OwnName(l: Loop, h: nat)
    requires Numbered(l) && h < |l.peers| && l.peers[h].kind.Served?
    ensures forall k :: 0 <= k < |l.peers| && k != h && l.peers[k].kind.Served? ==>
              ConnName(l.prefix, l.peers[k].kind.id) != ConnName(l.prefix, l.peers[h].kind.id)
  {
    hide ConnName;
    forall k | 0 <= k < |l.peers| && k != h && l.peers[k].kind.Served?
      ensures ConnName(l.prefix, l.peers[k].kind.id) != ConnName(l.prefix, l.peers[h].kind.id)
    {
      NamesDiffer(l.prefix, l.peers[k].kind.id, l.peers[h].kind.id);
    }
  }

  lemma NewName(l: Loop)
    requires Numbered(l)
    ensures forall k :: 0 <= k < |l.peers| && l.peers[k].kind.Served? ==>
              ConnName(l.prefix, l.peers[k].kind.id) != ConnName(l.prefix, l.nextConnId)
  {
    hide ConnName;
    forall k | 0 <= k < |l.peers| && l.peers[k].kind.Served?
      ensures ConnName(l.prefix, l.peers[k].kind.id) != ConnName(l.prefix, l.nextConnId)
    {
      NamesDiffer(l.prefix, l.peers[k].kind.id, l.nextConnId);
    }
  }

  lemma EmptyInv(prefix: string)
    ensures Inv(Empty(prefix))
  {
  }

  lemma AcceptNames(l: Loop, fd: Fd)
    requires Named(l) && Numbered(l)
    ensures Named(Accepted(l, fd)) && Numbered(Accepted(l, fd))
  {
    hide ConnName;
    NewName(l);
  }

  lemma AcceptPolled(l: Loop, fd: Fd)
    requires Polled(l) && Held(l) && fd !in l.open
    ensures Polled(Accepted(l, fd)) && fd !in l.channels
  {
    hide ConnName;
    NoChannelWhenClosed(l, fd);
  }

  /** The poller has no channel for a descriptor that is not open. */
  lemma NoChannelWhenClosed(l: Loop, fd: Fd)
    requires Polled(l) && Held(l) && fd !in l.open
    ensures fd !in l.channels
  {
    assert Registered(l, fd, Attempt) ==> fd in l.open;
  }

  lemma AcceptHeld(l: Loop, fd: Fd)
    requires Held(l) && Once(l) && fd !in l.open && fd !in l.channels
    ensures Held(Accepted(l, fd)) && Once(Accepted(l, fd))
  {
    hide ConnName;
  }

  lemma AcceptKeeps(l: Loop, fd: Fd)
    requires Inv(l) && fd !in l.open
    ensures Inv(Accepted(l, fd)) && fd !in l.channels
  {
    hide ConnName, Named, Numbered, Polled, Held, Once, Accepted;
    AcceptNames(l, fd);
    AcceptPolled(l, fd);
    AcceptHeld(l, fd);
  }

  lemma HandOverNames(l: Loop, fd: Fd)
    requires Named(l) && Numbered(l) && Once(l)
    ensures var m := HandedOver(l, fd); Named(m) && Numbered(m) && Once(m)
  {
    hide ConnName;
  }

  lemma HandOverKeeps(l: Loop, fd: Fd)
    requires Inv(l) && fd in l.waiting
    ensures Inv(HandedOver(l, fd)) && Registered(l, fd, Attempt)
  {
    hide ConnName, Named, Numbered, Once;
    HandOverNames(l, fd);
  }

  lemma GoneOnce(l: Loop, h: nat)
    requires Once(l) && CanDestroy(l, h)
    ensures Once(Gone(l, h))
  {
  }

  lemma GoneKeeps(l: Loop, h: nat)
    requires Inv(l) && CanDestroy(l, h)
    ensures var m := Gone(l, h); Numbered(m) && Polled(m) && Held(m) && Once(m)
  {
    hide ConnName, Named, Once;
    GoneOnce(l, h);
  }

  lemma ClosedNames(l: Loop, h: nat)
    requires Named(l) && Numbered(l) && CanDestroy(l, h)
    ensures Named(Closed(l, h))
  {
    hide ConnName;
    if l.peers[h].kind.Served? { OwnName(l, h); }
  }

  /** Only the names look at the server's table. */
  lemma SameTable(l: Loop, m: Loop)
    requires Numbered(l) && Polled(l) && Held(l) && Once(l)
    requires m == l.(connections := m.connections)
    ensures Numbered(m) && Polled(m) && Held(m) && Once(m)
  {
  }

  lemma ClosedKeeps(l: Loop, h: nat)
    requires Inv(l) && CanDestroy(l, h)
    ensures Inv(Closed(l, h))
  {
    hide ConnName, Named, Numbered, Polled, Held, Once;
    ClosedNames(l, h);
    GoneKeeps(l, h);
    SameTable(Gone(l, h), Closed(l, h));
  }

  lemma ShutDownNames(l: Loop, h: nat)
    requires Named(l) && Numbered(l) && h < |l.peers|
    ensures Named(ShutDownPeer(l, h)) && Numbered(ShutDownPeer(l, h))
  {
    hide ConnName;
  }

  lemma ShutDownKeeps(l: Loop, h: nat)
    requires Inv(l) && h < |l.peers|
    ensures Inv(ShutDownPeer(l, h))
  {
    hide ConnName, Named, Numbered;
    ShutDownNames(l, h);
  }

  lemma LookupKeeps(l: Loop, name: string)
    requires Inv(l)
    ensures Inv(Lookup(l, name))
  {
    hide ConnName;
  }

  /** These look neither at channels nor at descriptors. */
  lemma SamePeers(l: Loop, m: Loop)
    requires Named(l) && Numbered(l) && Once(l)
    requires m == l.(channels := m.channels, waiting := m.waiting, open := m.open)
    ensures Named(m) && Numbered(m) && Once(m)
  {
    hide ConnName;
  }

  lemma DialPolled(l: Loop, fd: Fd)
    requires Polled(l) && Held(l) && fd !in l.open
    ensures Polled(Dialled(l, fd)) && fd !in l.channels
  {
    NoChannelWhenClosed(l, fd);
  }

  lemma DialHeld(l: Loop, fd: Fd)
    requires Held(l) && fd !in l.open
    ensures Held(Dialled(l, fd))
  {
  }

  lemma DialKeeps(l: Loop, fd: Fd)
    requires Inv(l) && fd !in l.open
    ensures Inv(Dialled(l, fd)) && fd !in l.channels
  {
    hide Named, Numbered, Polled, Held, Once;
    SamePeers(l, Dialled(l, fd));
    DialPolled(l, fd);
    DialHeld(l, fd);
  }

  lemma DetachedPolled(l: Loop, fd: Fd, open: set<Fd>)
    requires Polled(l) && fd in l.waiting
    ensures Polled(Detached(l, fd).(open := open)) && Registered(l, fd, Attempt)
  {
  }

  lemma DetachedHeld(l: Loop, fd: Fd)
    requires Held(l) && Registered(l, fd, Attempt)
    ensures Held(Detached(l, fd)) && Held(Detached(l, fd).(open := l.open - {fd}))
  {
  }

  lemma AttemptEndsKeeps(l: Loop, fd: Fd)
    requires Inv(l) && fd in l.waiting
    ensures Inv(Detached(l, fd).(open := l.open - {fd})) && Registered(l, fd, Attempt)
  {
    hide Named, Numbered, Polled, Held, Once;
    SamePeers(l, Detached(l, fd).(open := l.open - {fd}));
    DetachedPolled(l, fd, l.open - {fd});
    DetachedHeld(l, fd);
  }

  lemma AbandonKeeps(l: Loop, fd: Fd)
    requires Inv(l) && fd in l.waiting
    ensures Inv(Detached(l, fd)) && Registered(l, fd, Attempt)
  {
    hide Named, Numbered, Polled, Held, Once;
    SamePeers(l, Detached(l, fd));
    DetachedPolled(l, fd, l.open);
    DetachedHeld(l, fd);
  }

  lemma ReleaseHeld(l: Loop, h: nat)
    requires Held(l) && h < |l.peers| && l.peers[h].stage.Disconnected? && h !in l.released
    ensures Held(l.(released := l.released + {h}, open := l.open - {l.peers[h].fd}))
  {
  }

  lemma ReleaseKeeps(l: Loop, h: nat)
    requires Inv(l) && h < |l.peers| && l.peers[h].stage.Disconnected? && h !in l.released
    ensures Inv(l.(released := l.released + {h}, open := l.open - {l.peers[h].fd}))
  {
    hide ConnName, Held;
    ReleaseHeld(l, h);
  }

  // ---------------------------------------------------------------- steps and runs

  lemma LiveCanBeDestroyed(l: Loop, h: nat)
    requires Inv(l) && h < |l.peers|
    ensures !l.peers[h].stage.Disconnected? <==> CanDestroy(l, h)
    ensures CanDestroy(l, h) ==> CanDestroy(ShutDownPeer(l, h), h)
  {
    hide Named, Numbered, Held;
  }

  /** removeConn of a name that is listed closes the connection after its shutdown. */
  lemma ExpiredIsClosed(l: Loop, name: string)
    requires Inv(l) && EntriesExist(l)
    requires name in l.connections && l.connections[name].To?
    ensures var h := l.connections[name].handle;
            CanDestroy(l, h) && Expired(l, name) == Closed(ShutDownPeer(l, h), h)
  {
    hide ConnName, Numbered, Held;
  }

  lemma ExpireKeeps(l: Loop, name: string)
    requires Inv(l) && EntriesExist(l)
    ensures Inv(Expired(l, name)) && Safe(l, Expire(name))
  {
    hide ConnName, Inv, Closed, Gone, ShutDownPeer, CanDestroy;
    if name in l.connections && l.connections[name].To? {
      var h := l.connections[name].handle;
      ExpiredIsClosed(l, name);
      ShutDownKeeps(l, h);
      LiveCanBeDestroyed(l, h);
      ClosedKeeps(ShutDownPeer(l, h), h);
    } else {
      LookupKeeps(l, name);
    }
  }

  lemma DropKeeps(l: Loop, h: nat)
    requires Inv(l) && h < |l.peers| && l.peers[h].kind.Upstream? && CanDestroy(l, h)
    ensures Inv(Gone(ShutDownPeer(l, h), h))
  {
    hide ConnName, Inv, Gone, CanDestroy;
    LiveCanBeDestroyed(l, h);
    ShutDownKeeps(l, h);
    ClosedKeeps(ShutDownPeer(l, h), h);
  }

  lemma NameIsListed(l: Loop, h: nat)
    requires Inv(l) && CanDestroy(l, h) && l.peers[h].kind.Served?
    ensures ConnName(l.prefix, l.peers[h].kind.id) in l.connections
  {
    hide ConnName, Numbered, Polled, Held, Once;
    assert Listed(l, h);
  }

  lemma OwnerIsLive(l: Loop, h: nat)
    requires Inv(l) && h < |l.peers| && Registered(l, l.peers[h].fd, Connection(h))
    ensures CanDestroy(l, h)
  {
    hide ConnName, Named, Numbered, Held, Once;
  }

  lemma ExpiresOnlyItsName(l: Loop, name: string, h: nat)
    requires Inv(l) && EntriesExist(l) && h < |l.peers|
    ensures var m := Expired(l, name);
            && m.prefix == l.prefix && h < |m.peers| && m.peers[h].kind == l.peers[h].kind
            && (CanDestroy(m, h) <==> CanDestroy(l, h) && !OwnNameIn(l, h, [name]))
  {
    hide ConnName, Inv, CanDestroy;
    ExpireKeeps(l, name);
    LiveCanBeDestroyed(l, h);
    LiveCanBeDestroyed(Expired(l, name), h);
    if CanDestroy(l, h) { LiveIsListed(l, h); }
    if name in l.connections && l.connections[name].To? { EntryIsLive(l, name); }
  }

  lemma LiveIsListed(l: Loop, h: nat)
    requires Inv(l) && CanDestroy(l, h)
    ensures Listed(l, h)
  {
    hide ConnName, Numbered, Polled, Held, Once;
  }

  lemma EntryIsLive(l: Loop, name: string)
    requires Inv(l) && name in l.connections && l.connections[name].To?
    ensures var h := l.connections[name].handle;
            h < |l.peers| && l.peers[h].kind.Served? && name == ConnName(l.prefix, l.peers[h].kind.id)
  {
    hide ConnName, Numbered, Polled, Held, Once;
  }

  lemma EntriesKnown(l: Loop)
    requires Inv(l)
    ensures EntriesExist(l)
  {
    hide Numbered, Polled, Held, Once;
  }

  /** Removing names keeps everything, and destroys exactly the connections that bear them. */
  lemma {:induction false} ExpireAllKeeps(l: Loop, names: seq<string>, h: nat)
    requires Inv(l) && EntriesExist(l) && h < |l.peers|
    ensures var m := ExpireAll(l, names);
            && ExpiriesSafe(l, names) && Inv(m) && m.prefix == l.prefix && m.peers[h].kind == l.peers[h].kind
            && (CanDestroy(m, h) <==> CanDestroy(l, h) && !OwnNameIn(l, h, names))
    decreases |names|
  {
    hide ConnName, Inv, CanDestroy, Expired;
    if names != [] {
      ExpireKeeps(l, names[0]);
      ExpiresOnlyItsName(l, names[0], h);
      EntriesKnown(Expired(l, names[0]));
      ExpireAllKeeps(Expired(l, names[0]), names[1..], h);
    }
  }

  lemma PeerClosedKeeps(l: Loop, h: nat, removed: seq<string>)
    requires Inv(l) && Enabled(l, PeerClosed(h, removed))
    ensures Safe(l, PeerClosed(h, removed)) && Inv(Apply(l, PeerClosed(h, removed)))
  {
    hide Inv, CanDestroy, ConnName, Registered, OwnNameIn, ExpiriesSafe, ExpireAll, Closed;
    OwnerIsLive(l, h);
    ExpireAllKeeps(l, removed, h);
    var m := ExpireAll(l, removed);
    ClosedKeeps(m, h);
    if m.peers[h].kind.Served? { NameIsListed(m, h); }
  }

  /** No assertion fails, and the invariant is kept. */
  lemma StepIsSafe(l: Loop, step: Step)
    requires Inv(l) && Enabled(l, step)
    ensures Safe(l, step) && Inv(Apply(l, step))
  {
    hide Inv, CanDestroy, ConnName, Accepted, HandedOver, Closed, Expired, Lookup, ShutDownPeer, Gone, Registered;
    match step
    case Accept(fd) => AcceptKeeps(l, fd);
    case Dial(fd) => DialKeeps(l, fd);
    case AttemptEnds(fd) => AttemptEndsKeeps(l, fd);
    case Abandon(fd) => AbandonKeeps(l, fd);
    case HandOver(fd) => HandOverKeeps(l, fd);
    case PeerClosed(h, removed) => PeerClosedKeeps(l, h, removed);
    case Expire(name) => ExpireKeeps(l, name);
    case GetConn(name) => LookupKeeps(l, name);
    case ShutDown(h) => ShutDownKeeps(l, h);
    case ClientDropped(h) =>
      LiveCanBeDestroyed(l, h);
      DropKeeps(l, h);
    case Release(h) => ReleaseKeeps(l, h);
  }

  lemma {:induction false} RunKeepsInvariant(l: Loop, steps: seq<Step>)
    requires Inv(l) && IsRun(l, steps)
    ensures RunIsSafe(l, steps) && Inv(Exec(l, steps))
    decreases |steps|
  {
    hide Inv, Enabled, Safe, Apply;
    if steps != [] {
      StepIsSafe(l, steps[0]);
      RunKeepsInvariant(Apply(l, steps[0]), steps[1..]);
    }
  }

  ghost predicate Reachable(l: Loop) {
    exists prefix, steps :: IsRun(Empty(prefix), steps) && l == Exec(Empty(prefix), steps)
  }

  lemma ReachableInv(l: Loop)
    requires Reachable(l)
    ensures Inv(l)
  {
    hide Inv;
    var prefix, steps :| IsRun(Empty(prefix), steps) && l == Exec(Empty(prefix), steps);
    EmptyInv(prefix);
    RunKeepsInvariant(Empty(prefix), steps);
  }

  /** In every run, whatever the order of closes, expiries, lookups and reused descriptors:
      no connection is destroyed when it is not connected, no channel is registered for a
      descriptor that has one, and every erased name is found. */
  lemma NoAssertionFails(prefix: string, steps: seq<Step>)
    requires IsRun(Empty(prefix), steps)
    ensures RunIsSafe(Empty(prefix), steps)
  {
    EmptyInv(prefix);
    RunKeepsInvariant(Empty(prefix), steps);
  }

  /** Each connection that is disconnected was destroyed exactly once, by whichever path, and
      no other one ever was. */
  lemma DestroyedExactlyOnce(l: Loop, h: nat)
    requires Reachable(l) && h < |l.peers|
    ensures multiset(l.destroyed)[h] == if l.peers[h].stage.Disconnected? then 1 else 0
  {
    hide Reachable;
    ReachableInv(l);
  }

  /** The server's table, the poller's table and the stages agree: a name has a non-null
      entry iff a live connection of the server bears it, and a descriptor has a connection's
      channel iff that connection is live. */
  lemma TablesAgree(l: Loop, h: nat)
    requires Reachable(l) && h < |l.peers|
    ensures IsLive(l.peers[h]) <==> !l.peers[h].stage.Disconnected?
    ensures l.peers[h].kind.Served? ==>
              var name := ConnName(l.prefix, l.peers[h].kind.id);
              IsLive(l.peers[h]) <==> name in l.connections && l.connections[name] == To(h)
    ensures IsLive(l.peers[h]) <==> Registered(l, l.peers[h].fd, Connection(h))
    ensures forall fd :: Registered(l, fd, Connection(h)) ==> fd == l.peers[h].fd
  {
    hide Reachable, ConnName, Numbered, Held;
    ReachableInv(l);
  }

  /** No two attempts or live connections share a descriptor, and each one's is open. */
  lemma DescriptorsAreExclusive(l: Loop, h: nat, k: nat)
    requires Reachable(l) && h < |l.peers| && k < |l.peers| && IsLive(l.peers[h])
    ensures l.peers[h].fd in l.open && !Registered(l, l.peers[h].fd, Attempt)
    ensures k != h && IsLive(l.peers[k]) ==> l.peers[k].fd != l.peers[h].fd
  {
    hide Reachable, Named, Numbered, Polled, Once;
    ReachableInv(l);
    assert h !in l.released;
  }

  /** A connection keeps its descriptor and its name, and its stage only moves forward. */
  predicate Advances(l: Loop, m: Loop, h: nat) {
    && h < |l.peers| && h < |m.peers|
    && m.peers[h].fd == l.peers[h].fd && m.peers[h].kind == l.peers[h].kind
    && Rank(l.peers[h].stage) <= Rank(m.peers[h].stage)
  }

  lemma ExpiryAdvances(l: Loop, name: string, h: nat)
    requires EntriesExist(l) && h < |l.peers|
    ensures Advances(l, Expired(l, name), h)
  {
    hide ConnName;
  }

  lemma {:induction false} ExpiriesAdvance(l: Loop, names: seq<string>, h: nat)
    requires EntriesExist(l) && h < |l.peers|
    ensures Advances(l, ExpireAll(l, names), h)
    decreases |names|
  {
    if names != [] {
      ExpiryAdvances(l, names[0], h);
      ExpiriesAdvance(Expired(l, names[0]), names[1..], h);
    }
  }

  lemma StepAdvances(l: Loop, step: Step, h: nat)
    requires Inv(l) && Enabled(l, step) && h < |l.peers|
    ensures Advances(l, Apply(l, step), h)
  {
    hide ConnName, Numbered, Polled, Held, Named, Expired, ExpireAll;
    match step
    case Expire(name) => ExpiryAdvances(l, name, h);
    case PeerClosed(_, removed) => ExpiriesAdvance(l, removed, h);
    case _ =>
  }

  lemma {:induction false} StagesOnlyAdvance(l: Loop, steps: seq<Step>, h: nat)
    requires Inv(l) && IsRun(l, steps) && h < |l.peers|
    ensures Advances(l, Exec(l, steps), h)
    decreases |steps|
  {
    hide Inv, Enabled, Apply;
    if steps != [] {
      StepIsSafe(l, steps[0]);
      StepAdvances(l, steps[0], h);
      StagesOnlyAdvance(Apply(l, steps[0]), steps[1..], h);
    }
  }

  predicate NoneHalfway(l: Loop) {
    forall p :: p in l.peers ==> p.stage.Connected? || p.stage.Disconnected?
  }

  lemma ExpiryKeepsWhole(l: Loop, name: string)
    requires EntriesExist(l) && NoneHalfway(l)
    ensures NoneHalfway(Expired(l, name))
  {
    hide ConnName;
  }

  lemma {:induction false} ExpiriesKeepWhole(l: Loop, names: seq<string>)
    requires EntriesExist(l) && NoneHalfway(l)
    ensures NoneHalfway(ExpireAll(l, names))
    decreases |names|
  {
    hide NoneHalfway;
    if names != [] {
      ExpiryKeepsWhole(l, names[0]);
      ExpiriesKeepWhole(Expired(l, names[0]), names[1..]);
    }
  }

  lemma StepKeepsWhole(l: Loop, step: Step)
    requires NoneHalfway(l) && Enabled(l, step) && !step.ShutDown?
    ensures NoneHalfway(Apply(l, step))
  {
    hide ConnName, Expired, ExpireAll;
    match step
    case Expire(name) => ExpiryKeepsWhole(l, name);
    case PeerClosed(_, removed) => ExpiriesKeepWhole(l, removed);
    case _ =>
  }

  /** As long as nobody calls shutdown from outside, a connection that is not destroyed is
      connected between events, on both removal paths. */
  lemma {:induction false} LiveMeansConnected(l: Loop, steps: seq<Step>)
    requires Inv(l) && NoneHalfway(l) && IsRun(l, steps)
    requires forall step :: step in steps ==> !step.ShutDown?
    ensures NoneHalfway(Exec(l, steps))
    decreases |steps|
  {
    hide Inv, NoneHalfway, Enabled, Apply;
    if steps != [] {
      StepIsSafe(l, steps[0]);
      StepKeepsWhole(l, steps[0]);
      LiveMeansConnected(Apply(l, steps[0]), steps[1..]);
    }
  }

  // ---------------------------------------------------------------- removal inside a callback

  /** removeConnectionInLoop calls the user's close callback first.  Whatever names the
      callback removes, the rest of the function passes its assertions exactly when the name
      being closed is not one of them. */
  lemma CloseCallbackIff(l: Loop, h: nat, names: seq<string>)
    requires Reachable(l) && EntriesExist(l) && CanDestroy(l, h) && l.peers[h].kind.Served?
    ensures var m := ExpireAll(l, names); var name := ConnName(l.prefix, l.peers[h].kind.id);
            CanDestroy(m, h) && name in m.connections <==> name !in names
  {
    hide Reachable, ConnName, Inv;
    ReachableInv(l);
    ExpireAllKeeps(l, names, h);
    var m := ExpireAll(l, names);
    if CanDestroy(m, h) { NameIsListed(m, h); }
  }

  // ---------------------------------------------------------------- removal inside the other callback

  /** connectDestroyed calls the connection callback when the state is set and the channel is
      still registered, with the name still listed. */
  function HalfGone(l: Loop, h: nat): Loop
    requires h < |l.peers|
  {
    SetStage(l, h, Disconnected)
  }

  /** Removing another name neither sees nor changes what is half done. */
  lemma ExpiryCommutes(l: Loop, h: nat, name: string)
    requires Inv(l) && EntriesExist(l) && CanDestroy(l, h) && !OwnNameIn(l, h, [name])
    ensures EntriesExist(HalfGone(l, h)) && ExpirySafe(HalfGone(l, h), name)
    ensures h < |Expired(l, name).peers| && Expired(HalfGone(l, h), name) == HalfGone(Expired(l, name), h)
  {
    hide ConnName, Inv;
    ExpireKeeps(l, name);
    if name in l.connections && l.connections[name].To? {
      EntryIsLive(l, name);
      ExpiredIsClosed(l, name);
      LiveChannelsDiffer(l, h, l.connections[name].handle);
    }
  }

  lemma LiveChannelsDiffer(l: Loop, h: nat, k: nat)
    requires CanDestroy(l, h) && CanDestroy(l, k)
    ensures h != k ==> l.peers[h].fd != l.peers[k].fd
  {
  }

  lemma OwnExpiryFails(l: Loop, h: nat)
    requires Inv(l) && CanDestroy(l, h) && l.peers[h].kind.Served?
    ensures !ExpirySafe(HalfGone(l, h), ConnName(l.prefix, l.peers[h].kind.id))
  {
    hide ConnName, Inv;
    LiveIsListed(l, h);
  }

  lemma {:induction false} HalfGoneExpiries(l: Loop, h: nat, names: seq<string>)
    requires Inv(l) && EntriesExist(l) && CanDestroy(l, h)
    ensures EntriesExist(HalfGone(l, h))
    ensures ExpiriesSafe(HalfGone(l, h), names) <==> !OwnNameIn(l, h, names)
    ensures !OwnNameIn(l, h, names) ==> ExpireAll(HalfGone(l, h), names) == HalfGone(ExpireAll(l, names), h)
    decreases |names|
  {
    hide ConnName, Inv, Expired, CanDestroy;
    HalfGoneEntries(l, h);
    if names != [] {
      var name := names[0];
      if OwnNameIn(l, h, [name]) {
        OwnExpiryFails(l, h);
      } else {
        ExpiryCommutes(l, h, name);
        ExpireKeeps(l, name);
        ExpiresOnlyItsName(l, name, h);
        EntriesKnown(Expired(l, name));
        HalfGoneExpiries(Expired(l, name), h, names[1..]);
      }
    }
  }

  lemma HalfGoneEntries(l: Loop, h: nat)
    requires EntriesExist(l) && CanDestroy(l, h)
    ensures h < |l.peers| && EntriesExist(HalfGone(l, h))
  {
  }

  /** The connection callback that connectDestroyed calls may remove names too.  No assertion
      fails exactly when the connection's own name is not one of them; the channel is then
      still the one to remove, and the outcome is that of removing those names first. */
  lemma ConnectionCallbackIff(l: Loop, h: nat, names: seq<string>)
    requires Reachable(l) && EntriesExist(l) && CanDestroy(l, h)
    ensures EntriesExist(HalfGone(l, h))
    ensures var m := ExpireAll(HalfGone(l, h), names);
            ExpiriesSafe(HalfGone(l, h), names) && Registered(m, l.peers[h].fd, Connection(h)) <==> !OwnNameIn(l, h, names)
    ensures !OwnNameIn(l, h, names) ==>
              var m := ExpireAll(HalfGone(l, h), names);
              m.(channels := m.channels - {l.peers[h].fd}, destroyed := m.destroyed + [h]) == Gone(ExpireAll(l, names), h)
  {
    hide Reachable, ConnName, Inv, OwnNameIn, ExpiriesSafe, ExpireAll;
    ReachableInv(l);
    HalfGoneExpiries(l, h, names);
    ExpireAllKeeps(l, names, h);
    ExpiriesAdvance(l, names, h);
  }

  // ---------------------------------------------------------------- outcomes, one by one

  /** A name is the server's, a number sign and the number in decimal. */
  lemma NameSpelled(prefix: string, id: nat)
    ensures var name := ConnName(prefix, id);
            && |name| > |prefix| + 1 && name[..|prefix|] == prefix && name[|prefix|] == '#'
            && Numerals.AreDigits(name[|prefix| + 1..], 10) && Numerals.Value(name[|prefix| + 1..], 10) == id
  {
    Numerals.DigitsParse(id, 10);
    assert ConnName(prefix, id)[|prefix| + 1..] == Numerals.Digits(id, 10);
  }

  /** Asking for a name that is not there leaves a null entry; nothing else ever changes by
      asking. */
  lemma LookupOutcome(l: Loop, name: string)
    ensures var m := Lookup(l, name);
            && name in m.connections && m == l.(connections := m.connections)
            && m.connections[name] == (if name in l.connections then l.connections[name] else Null)
            && (forall other :: other != name ==>
                                  && (other in m.connections <==> other in l.connections)
                                  && (other in l.connections ==> m.connections[other] == l.connections[other]))
  {
  }

  /** Accepting makes one connection, connected, under the next number and on its own
      descriptor. */
  lemma AcceptOutcome(l: Loop, fd: Fd)
    ensures var m := Accepted(l, fd); var h := |l.peers|;
            && |m.peers| == h + 1 && m.peers[h] == Peer(fd, Connected, Served(l.nextConnId))
            && m.nextConnId == l.nextConnId + 1 && Registered(m, fd, Connection(h)) && fd in m.open
            && ConnName(l.prefix, l.nextConnId) in m.connections
            && m.connections[ConnName(l.prefix, l.nextConnId)] == To(h)
            && (forall k :: 0 <= k < h ==> m.peers[k] == l.peers[k])
  {
    hide ConnName;
  }

  /** A socket handed over becomes one connection on the same descriptor, and the connector no
      longer waits for it. */
  lemma HandOverOutcome(l: Loop, fd: Fd)
    ensures var m := HandedOver(l, fd); var h := |l.peers|;
            && |m.peers| == h + 1 && m.peers[h] == Peer(fd, Connected, Upstream)
            && Registered(m, fd, Connection(h)) && fd !in m.waiting && m.connections == l.connections
  {
  }

  /** A connection that was shut down is disconnecting or gone in every later state. */
  lemma ShutDownSticks(l: Loop, h: nat, steps: seq<Step>)
    requires Inv(l) && h < |l.peers| && IsRun(ShutDownPeer(l, h), steps)
    ensures var m := Exec(ShutDownPeer(l, h), steps);
            h < |m.peers| && (m.peers[h].stage.Disconnecting? || m.peers[h].stage.Disconnected?)
  {
    hide Inv, IsRun, Exec;
    ShutDownKeeps(l, h);
    WholeStages(l, h);
    StagesOnlyAdvance(ShutDownPeer(l, h), steps, h);
  }

  lemma WholeStages(l: Loop, h: nat)
    requires Inv(l) && h < |l.peers|
    ensures !l.peers[h].stage.Connecting?
  {
    hide Named, Numbered, Polled, Held;
  }

  // ---------------------------------------------------------------- descriptors kept open

  /** Some attempt or connection holds the descriptor. */
  predicate HeldByAny(l: Loop, fd: Fd) {
    fd in l.waiting || exists h :: 0 <= h < |l.peers| && h !in l.released && l.peers[h].fd == fd
  }

  predicate NoneLeaked(l: Loop) {
    forall fd :: fd in l.open ==> HeldByAny(l, fd)
  }

  lemma HolderStays(l: Loop, m: Loop, fd: Fd)
    requires HeldByAny(l, fd) && (fd in l.waiting ==> fd in m.waiting)
    requires |l.peers| <= |m.peers| && m.released == l.released
    requires forall k :: 0 <= k < |l.peers| ==> m.peers[k].fd == l.peers[k].fd
    ensures HeldByAny(m, fd)
  {
    if fd !in l.waiting {
      var h :| 0 <= h < |l.peers| && h !in l.released && l.peers[h].fd == fd;
      assert m.peers[h].fd == fd;
    }
  }

  lemma AcceptLeaksNone(l: Loop, fd: Fd)
    requires Held(l) && NoneLeaked(l)
    ensures NoneLeaked(Accepted(l, fd))
  {
    hide ConnName;
    var m := Accepted(l, fd);
    assert m.peers[|l.peers|].fd == fd && |l.peers| !in l.released;
    forall other | other in m.open ensures HeldByAny(m, other) {
      if other != fd { HolderStays(l, m, other); }
    }
  }

  lemma DialLeaksNone(l: Loop, fd: Fd)
    requires NoneLeaked(l)
    ensures NoneLeaked(Dialled(l, fd))
  {
    var m := Dialled(l, fd);
    forall other | other in m.open ensures HeldByAny(m, other) {
      if other != fd { HolderStays(l, m, other); }
    }
  }

  lemma AttemptLeaksNone(l: Loop, fd: Fd)
    requires NoneLeaked(l)
    ensures NoneLeaked(Detached(l, fd).(open := l.open - {fd}))
  {
    var m := Detached(l, fd).(open := l.open - {fd});
    forall other | other in m.open ensures HeldByAny(m, other) {
      HolderStays(l, m, other);
    }
  }

  lemma HandOverLeaksNone(l: Loop, fd: Fd)
    requires Held(l) && NoneLeaked(l)
    ensures NoneLeaked(HandedOver(l, fd))
  {
    var m := HandedOver(l, fd);
    assert m.peers[|l.peers|].fd == fd && |l.peers| !in l.released;
    forall other | other in m.open ensures HeldByAny(m, other) {
      if other != fd { HolderStays(l, m, other); }
    }
  }

  lemma ReleaseLeaksNone(l: Loop, h: nat)
    requires NoneLeaked(l) && h < |l.peers|
    ensures NoneLeaked(l.(released := l.released + {h}, open := l.open - {l.peers[h].fd}))
  {
    var m := l.(released := l.released + {h}, open := l.open - {l.peers[h].fd});
    forall fd | fd in m.open ensures HeldByAny(m, fd) {
      if fd !in l.waiting {
        var k :| 0 <= k < |l.peers| && k !in l.released && l.peers[k].fd == fd;
        assert k !in m.released && m.peers[k].fd == fd;
      }
    }
  }

  /** Steps that neither open nor close a descriptor. */
  predicate KeepsDescriptors(l: Loop, m: Loop) {
    && m.waiting == l.waiting && m.open == l.open && m.released == l.released && |m.peers| == |l.peers|
    && (forall k :: 0 <= k < |l.peers| ==> m.peers[k].fd == l.peers[k].fd)
  }

  lemma KeptLeaksNone(l: Loop, m: Loop)
    requires NoneLeaked(l) && KeepsDescriptors(l, m)
    ensures NoneLeaked(m)
  {
    forall fd | fd in m.open ensures HeldByAny(m, fd) {
      HolderStays(l, m, fd);
    }
  }

  lemma ExpiryKeepsDescriptors(l: Loop, name: string)
    requires EntriesExist(l)
    ensures KeepsDescriptors(l, Expired(l, name))
  {
    hide ConnName;
  }

  lemma {:induction false} ExpiriesKeepDescriptors(l: Loop, names: seq<string>)
    requires EntriesExist(l)
    ensures KeepsDescriptors(l, ExpireAll(l, names))
    decreases |names|
  {
    if names != [] {
      ExpiryKeepsDescriptors(l, names[0]);
      ExpiriesKeepDescriptors(Expired(l, names[0]), names[1..]);
    }
  }

  lemma OthersKeepDescriptors(l: Loop, step: Step)
    requires Enabled(l, step)
    requires step.PeerClosed? || step.Expire? || step.GetConn? || step.ShutDown? || step.ClientDropped?
    ensures KeepsDescriptors(l, Apply(l, step))
  {
    hide ConnName, Expired, ExpireAll;
    match step
    case Expire(name) => ExpiryKeepsDescriptors(l, name);
    case PeerClosed(_, removed) => ExpiriesKeepDescriptors(l, removed);
    case _ =>
  }

  lemma StepLeaksNone(l: Loop, step: Step)
    requires Inv(l) && NoneLeaked(l) && Enabled(l, step) && !step.Abandon?
    ensures NoneLeaked(Apply(l, step))
  {
    hide Named, Numbered, Polled, Held, Once, NoneLeaked, Accepted, Dialled, Detached, HandedOver, Closed, Expired, ExpireAll;
    match step
    case Accept(fd) => AcceptLeaksNone(l, fd);
    case Dial(fd) => DialLeaksNone(l, fd);
    case AttemptEnds(fd) => AttemptLeaksNone(l, fd);
    case HandOver(fd) => HandOverLeaksNone(l, fd);
    case Release(h) => ReleaseLeaksNone(l, h);
    case Abandon(_) =>
    case _ =>
      OthersKeepDescriptors(l, step);
      KeptLeaksNone(l, Apply(l, step));
  }

  lemma {:induction false} RunLeaksNone(l: Loop, steps: seq<Step>)
    requires Inv(l) && NoneLeaked(l) && IsRun(l, steps)
    requires forall step :: step in steps ==> !step.Abandon?
    ensures NoneLeaked(Exec(l, steps)) && Inv(Exec(l, steps))
    decreases |steps|
  {
    hide Inv, NoneLeaked, Enabled, Apply;
    if steps != [] {
      StepIsSafe(l, steps[0]);
      StepLeaksNone(l, steps[0]);
      RunLeaksNone(Apply(l, steps[0]), steps[1..]);
    }
  }

  lemma HoldersAreOpen(l: Loop, fd: Fd)
    requires Inv(l) && HeldByAny(l, fd)
    ensures fd in l.open
  {
    hide Named, Numbered, Once;
  }

  /** In every run in which no connector is destroyed while it waits, the open descriptors are
      exactly those that an attempt or a connection holds. */
  lemma OpenIffHeld(prefix: string, steps: seq<Step>, fd: Fd)
    requires IsRun(Empty(prefix), steps) && forall step :: step in steps ==> !step.Abandon?
    ensures fd in Exec(Empty(prefix), steps).open <==> HeldByAny(Exec(Empty(prefix), steps), fd)
  {
    EmptyInv(prefix);
    hide Inv, IsRun, Exec;
    RunLeaksNone(Empty(prefix), steps);
    var l := Exec(Empty(prefix), steps);
    if HeldByAny(l, fd) { HoldersAreOpen(l, fd); }
  }

  /** Otherwise that one descriptor stays open, and nobody holds it. */
  lemma AbandonLeaks(l: Loop, fd: Fd)
    requires Inv(l) && Enabled(l, Abandon(fd))
    ensures var m := Apply(l, Abandon(fd)); fd in m.open && !HeldByAny(m, fd)
  {
    hide Named, Numbered, Once;
    assert Registered(l, fd, Attempt);
  }
}
