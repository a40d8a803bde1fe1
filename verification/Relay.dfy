/** A session of the proxy: the client's connection, the upstream connections that come and
    go, and the connector that makes them; every step of all of them, in any order. */
module Relays {
  import opened Buffers
  import opened Connections
  import opened Options
  import Attempts

  /** `upstream` is the connection of the TcpClient, if it has one.  `past` holds the former
      upstream connections as they were when they were destroyed. */
  datatype Relay = Relay(
    client: Conn,
    upstream: Option<Conn>,
    connecting: bool,
    connector: Attempts.State,
    past: seq<Conn>,
    over: bool)

  /** The constructor runs inside connectEstablished of the client's connection. */
  function Begin(errno: Attempts.Errno): Relay {
    Relay(Establish(NEW_CONN), None, true,
          Attempts.StartInLoop(Attempts.INIT.(connect := true), errno), [], false)
  }

  // ---------------------------------------------------------------- handlers

  /** onTcpServerMessage_: pass on what the client sent, or see to it that an upstream
      connection is made. */
  function OnServerMessage(r: Relay, nwrote: int, errno: Attempts.Errno): Relay {
    if r.upstream.Some? then
      r.(client := TakeInput(r.client), upstream := Some(Send(r.upstream.value, r.client.input, nwrote)))
    else if r.connecting then r
    else r.(connecting := true, connector := Attempts.StartInLoop(r.connector.(connect := true), errno))
  }

  /** onTcpClientMessage_. */
  function OnClientMessage(r: Relay, nwrote: int): Relay
    requires r.upstream.Some?
  {
    if Live(r.client) then
      r.(upstream := Some(TakeInput(r.upstream.value)), client := Send(r.client, r.upstream.value.input, nwrote))
    else r
  }

  /** onTcpClientConnection_: what the client has sent so far is passed on at once. */
  function OnClientConnection(r: Relay, nwrote: int): Relay
    requires r.upstream.Some?
  {
    if Live(r.client) then
      r.(client := TakeInput(r.client), upstream := Some(Send(r.upstream.value, r.client.input, nwrote)))
    else r
  }

  /** TcpClient::newConnection with the connection callback. */
  function NewUpstream(r: Relay, nwrote: int): Relay {
    OnClientConnection(r.(connecting := false, upstream := Some(Establish(NEW_CONN))), nwrote)
  }

  // ---------------------------------------------------------------- steps

  datatype Step =
    | ClientReadable(bytes: seq<Byte>, nwrote: int, errno: Attempts.Errno)
    | ClientWritable(n: int)
    | ClientClosed
    | UpReadable(bytes: seq<Byte>, nwrote: int)
    | UpWritable(n: int)
    | UpClosed
    | ConnectorEvent(error: bool, writable: bool, failed: bool, nwrote: int)
    | ConnectorTimer(timer: nat, errno: Attempts.Errno)
    | Expire

  /** Only what the kernel and the loop guarantee: sockets report for live connections, a
      read delivers something, and a write takes at most what it is given. */
  predicate Enabled(r: Relay, step: Step) {
    !r.over &&
    match step
    case ClientReadable(bytes, nwrote, _) => Live(r.client) && bytes != [] && -1 <= nwrote <= |r.client.input| + |bytes|
    case ClientWritable(n) => Live(r.client) && -1 <= n <= |r.client.output|
    case ClientClosed => Live(r.client)
    case UpReadable(bytes, nwrote) =>
      r.upstream.Some? && bytes != [] && -1 <= nwrote <= |r.upstream.value.input| + |bytes|
    case UpWritable(n) => r.upstream.Some? && -1 <= n <= |r.upstream.value.output|
    case UpClosed => r.upstream.Some?
    case ConnectorEvent(error, writable, failed, nwrote) =>
      Attempts.Enabled(r.connector, Attempts.Event(error, writable, failed)) && -1 <= nwrote <= |r.client.input|
    case ConnectorTimer(timer, _) => timer in r.connector.timers
    case Expire => true
  }

  /** The connector hands a socket over. */
  predicate HandsOver(before: Attempts.State, after: Attempts.State) {
    |after.handed| > |before.handed|
  }

  function Apply(r: Relay, step: Step): Relay
    requires Enabled(r, step)
  {
    match step
    case ClientReadable(bytes, nwrote, errno) =>
      OnServerMessage(r.(client := Receive(r.client, bytes)), nwrote, errno)
    case ClientWritable(n) => r.(client := HandleWrite(r.client, n))
    case ClientClosed => r.(client := Destroy(r.client))
    case UpReadable(bytes, nwrote) =>
      OnClientMessage(r.(upstream := Some(Receive(r.upstream.value, bytes))), nwrote)
    case UpWritable(n) => r.(upstream := Some(HandleWrite(r.upstream.value, n)))
    case UpClosed => r.(upstream := None, past := r.past + [Destroy(r.upstream.value)])
    case ConnectorEvent(error, writable, failed, nwrote) =>
      var connector := Attempts.Apply(r.connector, Attempts.Event(error, writable, failed));
      if HandsOver(r.connector, connector) then NewUpstream(r.(connector := connector), nwrote)
      else r.(connector := connector)
    case ConnectorTimer(timer, errno) =>
      r.(connector := Attempts.Apply(r.connector, Attempts.TimerFires(timer, errno)))
    case Expire => ExpireSession(r)
  }

  /** The destructor: removeConn for the client's side, ~TcpClient for the other, and with it
      ~Connector. */
  function ExpireSession(r: Relay): Relay {
    var q := if Live(r.client) then r.(client := Destroy(Shutdown(r.client))) else r;
    var p := if q.upstream.Some? then q.(upstream := None, past := q.past + [Destroy(Shutdown(q.upstream.value))]) else q;
    p.(connector := Attempts.Delete(p.connector), over := true)
  }

  predicate IsRun(r: Relay, steps: seq<Step>)
    decreases |steps|
  {
    steps == [] || (Enabled(r, steps[0]) && IsRun(Apply(r, steps[0]), steps[1..]))
  }

  function Exec(r: Relay, steps: seq<Step>): Relay
    requires IsRun(r, steps)
    decreases |steps|
  {
    if steps == [] then r else Exec(Apply(r, steps[0]), steps[1..])
  }

  // ---------------------------------------------------------------- the two streams

  function Upstreams(r: Relay): seq<Conn> {
    r.past + if r.upstream.Some? then [r.upstream.value] else []
  }

  /** Everything ever passed to the upstream connections, in order. */
  function Requested(ups: seq<Conn>): seq<Byte> {
    if ups == [] then [] else Requested(ups[..|ups| - 1]) + ups[|ups| - 1].accepted
  }

  /** What was read from a connection and taken out of its input buffer. */
  function Taken(c: Conn): seq<Byte> {
    if |c.input| <= |c.received| then c.received[..|c.received| - |c.input|] else []
  }

  /** Everything ever taken from the upstream connections, in order. */
  function Answered(ups: seq<Conn>): seq<Byte> {
    if ups == [] then [] else Answered(ups[..|ups| - 1]) + Taken(ups[|ups| - 1])
  }

  lemma LastRequested(ups: seq<Conn>, up: Conn)
    ensures Requested(ups + [up]) == Requested(ups) + up.accepted
    ensures Answered(ups + [up]) == Answered(ups) + Taken(up)
  {
    assert (ups + [up])[..|ups|] == ups;
  }

  predicate AllSettled(past: seq<Conn>) {
    forall c :: c in past ==> ConnInv(c) && c.state.Disconnected?
  }

  predicate ConnectionsOk(r: Relay) {
    && ConnInv(r.client) && (r.client.state.Connected? || r.client.state.Disconnected?)
    && (r.upstream.Some? ==> ConnInv(r.upstream.value) && r.upstream.value.state.Connected?)
    && AllSettled(r.past)
    && (r.over ==> r.client.state.Disconnected? && r.upstream.None?)
  }

  /** After its destructor a connector has nothing under way, and has lost the socket that it
      was waiting for, if it was. */
  ghost predicate Deleted(s: Attempts.State) {
    Attempts.Quiet(s) && (Attempts.Accounted(s) <==> !s.stage.Connecting?)
  }

  /** One attempt at a time, and none while an upstream connection exists. */
  ghost predicate ConnectorOk(r: Relay) {
    && (if r.over then Deleted(r.connector) else Attempts.Inv(r.connector))
    && r.connector.connect
    && (!r.connecting ==> Attempts.Quiet(r.connector))
    && (r.upstream.Some? ==> !r.connecting)
    && |r.connector.handed| == |Upstreams(r)|
  }

  /** Nothing that a former upstream connection delivered is left in its input buffer, unless
      the client was gone. */
  predicate AllTaken(r: Relay) {
    Live(r.client) ==> forall c :: c in r.past ==> c.input == []
  }

  /** Nothing waits in an input buffer that could be passed on. */
  predicate Drained(r: Relay) {
    && (Live(r.client) && r.upstream.Some? ==> r.client.input == [] && r.upstream.value.input == [])
    && AllTaken(r)
  }

  predicate Conserved(r: Relay) {
    && r.client.received == Requested(Upstreams(r)) + r.client.input
    && r.client.accepted == Answered(Upstreams(r))
  }

  ghost predicate Inv(r: Relay) {
    ConnectionsOk(r) && ConnectorOk(r) && Drained(r) && Conserved(r)
  }

  lemma NothingYet()
    ensures Requested([]) == [] && Answered([]) == []
  {
  }

  lemma EstablishedConn()
    ensures ConnInv(Establish(NEW_CONN)) && Establish(NEW_CONN).state.Connected?
    ensures Establish(NEW_CONN) == NEW_CONN.(state := Connected, reading := true)
  {
  }

  lemma BeginInv(errno: Attempts.Errno)
    ensures Inv(Begin(errno))
  {
    hide ConnInv, Attempts.Inv, Attempts.StartInLoop, Requested, Answered, Deleted;
    EstablishedConn();
    NothingYet();
    Attempts.InitInv();
    Attempts.StepKeepsInvariant(Attempts.INIT, Attempts.Start(errno));
    StartsKeepHanded(Attempts.INIT.(connect := true), errno);
    assert Upstreams(Begin(errno)) == [];
  }

  // ---------------------------------------------------------------- conservation, piece by piece

  lemma Regroup(a: seq<Byte>, b: seq<Byte>, c: seq<Byte>)
    ensures (a + b) + c == a + (b + c)
    ensures a + [] == a
  {
  }

  lemma TakenStays(c: Conn, bytes: seq<Byte>)
    requires ConnInv(c)
    ensures Taken(Receive(c, bytes)) == Taken(c)
  {
  }

  lemma TakenGrows(c: Conn)
    requires ConnInv(c)
    ensures Taken(TakeInput(c)) == Taken(c) + c.input
    ensures c.input == [] ==> Taken(c) == c.received
  {
    assert c.received == c.received[..|c.received| - |c.input|] + c.input;
  }

  /** An upstream connection enters the equations only through these. */
  lemma TakenDepends(c: Conn, d: Conn)
    requires c.received == d.received && c.input == d.input
    ensures Taken(c) == Taken(d)
  {
  }

  lemma UpstreamsWith(r: Relay)
    ensures r.upstream.Some? ==> Requested(Upstreams(r)) == Requested(r.past) + r.upstream.value.accepted
    ensures r.upstream.Some? ==> Answered(Upstreams(r)) == Answered(r.past) + Taken(r.upstream.value)
    ensures r.upstream.None? ==> Requested(Upstreams(r)) == Requested(r.past) && Answered(Upstreams(r)) == Answered(r.past)
    ensures |Upstreams(r)| == |r.past| + if r.upstream.Some? then 1 else 0
  {
    hide Taken;
    if r.upstream.Some? {
      LastRequested(r.past, r.upstream.value);
    } else {
      assert Upstreams(r) == r.past;
    }
  }

  lemma ClientReceives(r: Relay, bytes: seq<Byte>)
    requires Conserved(r)
    ensures Conserved(r.(client := Receive(r.client, bytes)))
  {
    hide Requested, Answered;
    var q := r.(client := Receive(r.client, bytes));
    assert Upstreams(q) == Upstreams(r);
    Regroup(Requested(Upstreams(r)), r.client.input, bytes);
  }

  /** The client's input moves to the upstream connection. */
  lemma RequestMoves(r: Relay, nwrote: int)
    requires Conserved(r) && r.upstream.Some? && r.upstream.value.state.Connected?
    ensures var q := r.(client := TakeInput(r.client), upstream := Some(Send(r.upstream.value, r.client.input, nwrote)));
            Conserved(q)
  {
    hide Requested, Answered, Taken, Upstreams;
    var up := r.upstream.value;
    var q := r.(client := TakeInput(r.client), upstream := Some(Send(up, r.client.input, nwrote)));
    UpstreamsWith(r);
    UpstreamsWith(q);
    TakenDepends(q.upstream.value, up);
    Regroup(Requested(r.past), up.accepted, r.client.input);
    Regroup(Requested(Upstreams(q)), [], []);
  }

  lemma UpReceives(r: Relay, bytes: seq<Byte>)
    requires Conserved(r) && r.upstream.Some? && ConnInv(r.upstream.value)
    ensures Conserved(r.(upstream := Some(Receive(r.upstream.value, bytes))))
  {
    hide Requested, Answered, Taken, Upstreams, ConnInv;
    var q := r.(upstream := Some(Receive(r.upstream.value, bytes)));
    UpstreamsWith(r);
    UpstreamsWith(q);
    TakenStays(r.upstream.value, bytes);
  }

  /** The upstream connection's input moves to the client. */
  lemma AnswerMoves(r: Relay, nwrote: int)
    requires Conserved(r) && r.upstream.Some? && ConnInv(r.upstream.value) && r.client.state.Connected?
    ensures var q := r.(upstream := Some(TakeInput(r.upstream.value)), client := Send(r.client, r.upstream.value.input, nwrote));
            Conserved(q)
  {
    hide Requested, Answered, Taken, Upstreams, ConnInv;
    var up := r.upstream.value;
    var q := r.(upstream := Some(TakeInput(up)), client := Send(r.client, up.input, nwrote));
    UpstreamsWith(r);
    UpstreamsWith(q);
    TakenGrows(up);
    Regroup(Answered(r.past), Taken(up), up.input);
  }

  lemma UpRetires(r: Relay, closed: Conn)
    requires Conserved(r) && r.upstream.Some?
    requires closed.accepted == r.upstream.value.accepted
    requires closed.received == r.upstream.value.received && closed.input == r.upstream.value.input
    ensures Conserved(r.(upstream := None, past := r.past + [closed]))
  {
    hide Requested, Answered, Taken, Upstreams;
    var q := r.(upstream := None, past := r.past + [closed]);
    UpstreamsWith(r);
    UpstreamsWith(q);
    LastRequested(r.past, closed);
    TakenDepends(closed, r.upstream.value);
  }

  lemma UpArrives(r: Relay)
    requires Conserved(r) && r.upstream.None?
    ensures Conserved(r.(upstream := Some(Establish(NEW_CONN))))
  {
    hide Requested, Answered, Upstreams;
    var q := r.(upstream := Some(Establish(NEW_CONN)));
    UpstreamsWith(r);
    UpstreamsWith(q);
    assert Taken(Establish(NEW_CONN)) == [];
    Regroup(Requested(r.past), [], []);
    Regroup(Answered(r.past), [], []);
  }

  // ---------------------------------------------------------------- the connector's side

  lemma AttemptsUnderWay(r: Relay)
    requires ConnectorOk(r) && !Attempts.Quiet(r.connector)
    ensures r.connecting && r.upstream.None?
  {
    hide Attempts.Inv, Deleted;
  }

  lemma HandsOverOnce(s: Attempts.State, error: bool, writable: bool, failed: bool)
    requires Attempts.Inv(s) && Attempts.Enabled(s, Attempts.Event(error, writable, failed))
    ensures var t := Attempts.Apply(s, Attempts.Event(error, writable, failed));
            && Attempts.Inv(t) && !Attempts.Quiet(s)
            && (HandsOver(s, t) ==> Attempts.Quiet(t) && |t.handed| == |s.handed| + 1
                                    && t.handed[|s.handed|] == s.channel.value && s.channel.value !in t.registered)
            && (!HandsOver(s, t) ==> t.handed == s.handed)
            && t.connect == s.connect
  {
    Attempts.StepKeepsInvariant(s, Attempts.Event(error, writable, failed));
  }

  lemma StartsKeepHanded(s: Attempts.State, errno: Attempts.Errno)
    ensures Attempts.StartInLoop(s, errno).handed == s.handed && Attempts.StartInLoop(s, errno).connect == s.connect
  {
  }

  // ---------------------------------------------------------------- step by step

  lemma ClientReadableKeeps(r: Relay, bytes: seq<Byte>, nwrote: int, errno: Attempts.Errno)
    requires Inv(r) && Enabled(r, ClientReadable(bytes, nwrote, errno))
    ensures Inv(Apply(r, ClientReadable(bytes, nwrote, errno)))
  {
    hide ConnInv, Conserved, Attempts.Inv, Attempts.StartInLoop;
    var m := r.(client := Receive(r.client, bytes));
    StepKeepsInvariant(r.client, Readable(bytes));
    ClientReceives(r, bytes);
    if r.upstream.Some? {
      StepKeepsInvariant(m.client, InputTaken);
      StepKeepsInvariant(m.upstream.value, Sent(m.client.input, nwrote));
      RequestMoves(m, nwrote);
    } else if !r.connecting {
      Attempts.StepKeepsInvariant(r.connector, Attempts.Start(errno));
      StartsKeepHanded(r.connector.(connect := true), errno);
      SameStreams(m, OnServerMessage(m, nwrote, errno));
    }
  }

  /** The equations speak only of the connections. */
  lemma SameStreams(r: Relay, q: Relay)
    requires Conserved(r) && q.client == r.client && q.upstream == r.upstream && q.past == r.past
    ensures Conserved(q)
  {
  }

  lemma ClientOnlyKeeps(r: Relay, client: Conn)
    requires Inv(r) && ConnInv(client) && (client.state.Connected? || client.state.Disconnected?)
    requires client.input == r.client.input && client.received == r.client.received && client.accepted == r.client.accepted
    requires Live(client) ==> Live(r.client)
    requires r.over ==> client.state.Disconnected?
    ensures Inv(r.(client := client))
  {
    hide ConnInv, Attempts.Inv, Requested, Answered;
    assert Upstreams(r.(client := client)) == Upstreams(r);
  }

  lemma UpReadableKeeps(r: Relay, bytes: seq<Byte>, nwrote: int)
    requires Inv(r) && Enabled(r, UpReadable(bytes, nwrote))
    ensures Inv(Apply(r, UpReadable(bytes, nwrote)))
  {
    hide ConnInv, Conserved, Attempts.Inv;
    var m := r.(upstream := Some(Receive(r.upstream.value, bytes)));
    StepKeepsInvariant(r.upstream.value, Readable(bytes));
    UpReceives(r, bytes);
    if Live(r.client) {
      StepKeepsInvariant(m.upstream.value, InputTaken);
      StepKeepsInvariant(m.client, Sent(m.upstream.value.input, nwrote));
      AnswerMoves(m, nwrote);
    }
  }

  lemma UpWritableKeeps(r: Relay, n: int)
    requires Inv(r) && Enabled(r, UpWritable(n))
    ensures Inv(Apply(r, UpWritable(n)))
  {
    hide ConnInv, Attempts.Inv, Requested, Answered, Taken, Upstreams;
    var q := Apply(r, UpWritable(n));
    StepKeepsInvariant(r.upstream.value, Writable(n));
    TakenDepends(r.upstream.value, q.upstream.value);
    UpstreamsWith(r);
    UpstreamsWith(q);
  }

  lemma UpEndKeeps(r: Relay, closed: Conn)
    requires Inv(r) && r.upstream.Some? && ConnInv(closed) && closed.state.Disconnected?
    requires closed.accepted == r.upstream.value.accepted
    requires closed.received == r.upstream.value.received && closed.input == r.upstream.value.input
    ensures Inv(r.(upstream := None, past := r.past + [closed]))
  {
    hide ConnInv, Conserved, Attempts.Inv, Upstreams;
    UpRetires(r, closed);
    UpstreamsWith(r);
    UpstreamsWith(r.(upstream := None, past := r.past + [closed]));
  }

  lemma NewUpstreamArrives(r: Relay, connector: Attempts.State)
    requires Inv(r) && r.upstream.None? && !r.over
    requires Attempts.Inv(connector) && Attempts.Quiet(connector) && |connector.handed| == |r.connector.handed| + 1
    requires connector.connect
    ensures var m := r.(connecting := false, connector := connector, upstream := Some(Establish(NEW_CONN)));
            ConnectionsOk(m) && ConnectorOk(m) && Conserved(m) && AllTaken(m)
  {
    hide ConnInv, Conserved, Attempts.Inv, Requested, Answered, Taken, Upstreams;
    NewConnInv();
    StepKeepsInvariant(NEW_CONN, Established);
    UpArrives(r);
    var m := r.(connecting := false, connector := connector, upstream := Some(Establish(NEW_CONN)));
    SameStreams(r.(upstream := Some(Establish(NEW_CONN))), m);
    UpstreamsWith(r);
    UpstreamsWith(m);
  }

  /** The callback of a new upstream connection passes the client's input on. */
  lemma ClientConnectionKeeps(r: Relay, nwrote: int)
    requires ConnectionsOk(r) && ConnectorOk(r) && Conserved(r) && AllTaken(r)
    requires r.upstream.Some? && r.upstream.value.input == [] && -1 <= nwrote <= |r.client.input|
    ensures Inv(OnClientConnection(r, nwrote))
  {
    hide ConnInv, Conserved, Attempts.Inv, Requested, Answered, Taken, Upstreams;
    if Live(r.client) {
      var q := OnClientConnection(r, nwrote);
      StepKeepsInvariant(r.client, InputTaken);
      StepKeepsInvariant(r.upstream.value, Sent(r.client.input, nwrote));
      RequestMoves(r, nwrote);
      UpstreamsWith(r);
      UpstreamsWith(q);
    }
  }

  lemma NewUpstreamKeeps(r: Relay, connector: Attempts.State, nwrote: int)
    requires Inv(r) && r.upstream.None? && !r.over && -1 <= nwrote <= |r.client.input|
    requires Attempts.Inv(connector) && Attempts.Quiet(connector) && |connector.handed| == |r.connector.handed| + 1
    requires connector.connect
    ensures Inv(NewUpstream(r.(connector := connector), nwrote))
  {
    hide Inv, ConnectionsOk, ConnectorOk, Conserved, AllTaken, OnClientConnection, Attempts.Inv;
    NewUpstreamArrives(r, connector);
    ClientConnectionKeeps(r.(connecting := false, connector := connector, upstream := Some(Establish(NEW_CONN))), nwrote);
  }

  lemma ConnectorEventKeeps(r: Relay, error: bool, writable: bool, failed: bool, nwrote: int)
    requires Inv(r) && Enabled(r, ConnectorEvent(error, writable, failed, nwrote))
    ensures Inv(Apply(r, ConnectorEvent(error, writable, failed, nwrote)))
  {
    var connector := Attempts.Apply(r.connector, Attempts.Event(error, writable, failed));
    HandsOverOnce(r.connector, error, writable, failed);
    AttemptsUnderWay(r);
    hide ConnInv, Conserved, Attempts.Inv, Attempts.Apply;
    if HandsOver(r.connector, connector) {
      NewUpstreamKeeps(r, connector, nwrote);
    } else {
      SameStreams(r, r.(connector := connector));
    }
  }

  lemma ConnectorTimerKeeps(r: Relay, timer: nat, errno: Attempts.Errno)
    requires Inv(r) && Enabled(r, ConnectorTimer(timer, errno))
    ensures Inv(Apply(r, ConnectorTimer(timer, errno)))
  {
    Attempts.StepKeepsInvariant(r.connector, Attempts.TimerFires(timer, errno));
    AttemptsUnderWay(r);
    StartsKeepHanded(r.connector.(timers := r.connector.timers - {timer}), errno);
    hide ConnInv, Conserved, Attempts.Inv, Attempts.StartInLoop;
    SameStreams(r, Apply(r, ConnectorTimer(timer, errno)));
  }

  lemma ShutdownThenDestroyed(c: Conn)
    requires ConnInv(c) && Live(c)
    ensures ConnInv(Destroy(Shutdown(c))) && Live(Shutdown(c))
  {
    StepKeepsInvariant(c, ShutDown);
    StepKeepsInvariant(Shutdown(c), Destroyed);
  }

  lemma ClientExpires(r: Relay)
    requires Inv(r) && Live(r.client)
    ensures Inv(r.(client := Destroy(Shutdown(r.client))))
  {
    hide ConnInv, Conserved, Attempts.Inv;
    ShutdownThenDestroyed(r.client);
    ClientOnlyKeeps(r, Destroy(Shutdown(r.client)));
  }

  lemma UpExpires(r: Relay)
    requires Inv(r) && r.upstream.Some?
    ensures Inv(r.(upstream := None, past := r.past + [Destroy(Shutdown(r.upstream.value))]))
  {
    hide ConnInv, Conserved, Attempts.Inv;
    ShutdownThenDestroyed(r.upstream.value);
    UpEndKeeps(r, Destroy(Shutdown(r.upstream.value)));
  }

  lemma OverKeeps(r: Relay)
    requires Inv(r) && !Live(r.client) && r.upstream.None? && !r.over
    ensures Inv(r.(connector := Attempts.Delete(r.connector), over := true))
  {
    hide ConnInv, Conserved, Attempts.Inv;
    Attempts.DestructorAccounts(r.connector);
    SameStreams(r, r.(connector := Attempts.Delete(r.connector), over := true));
  }

  lemma ExpireKeeps(r: Relay)
    requires Inv(r) && Enabled(r, Expire)
    ensures Inv(ExpireSession(r))
  {
    hide Inv;
    var q := if Live(r.client) then r.(client := Destroy(Shutdown(r.client))) else r;
    if Live(r.client) {
      ClientExpires(r);
    }
    var p := if q.upstream.Some? then q.(upstream := None, past := q.past + [Destroy(Shutdown(q.upstream.value))]) else q;
    if q.upstream.Some? {
      UpExpires(q);
    }
    OverKeeps(p);
  }

  lemma ClientWritableKeeps(r: Relay, n: int)
    requires Inv(r) && Enabled(r, ClientWritable(n))
    ensures Inv(Apply(r, ClientWritable(n)))
  {
    hide ConnInv, Conserved, Attempts.Inv;
    StepKeepsInvariant(r.client, Writable(n));
    ClientOnlyKeeps(r, HandleWrite(r.client, n));
  }

  lemma ClientClosedKeeps(r: Relay)
    requires Inv(r) && Enabled(r, ClientClosed)
    ensures Inv(Apply(r, ClientClosed))
  {
    hide ConnInv, Conserved, Attempts.Inv;
    StepKeepsInvariant(r.client, Destroyed);
    ClientOnlyKeeps(r, Destroy(r.client));
  }

  lemma UpClosedKeeps(r: Relay)
    requires Inv(r) && Enabled(r, UpClosed)
    ensures Inv(Apply(r, UpClosed))
  {
    hide ConnInv, Conserved, Attempts.Inv;
    StepKeepsInvariant(r.upstream.value, Destroyed);
    UpEndKeeps(r, Destroy(r.upstream.value));
  }

  lemma StepKeepsRelay(r: Relay, step: Step)
    requires Inv(r) && Enabled(r, step)
    ensures Inv(Apply(r, step))
  {
    hide Inv, Enabled;
    match step
    case ClientReadable(bytes, nwrote, errno) => ClientReadableKeeps(r, bytes, nwrote, errno);
    case ClientWritable(n) => ClientWritableKeeps(r, n);
    case ClientClosed => ClientClosedKeeps(r);
    case UpReadable(bytes, nwrote) => UpReadableKeeps(r, bytes, nwrote);
    case UpWritable(n) => UpWritableKeeps(r, n);
    case UpClosed => UpClosedKeeps(r);
    case ConnectorEvent(error, writable, failed, nwrote) => ConnectorEventKeeps(r, error, writable, failed, nwrote);
    case ConnectorTimer(timer, errno) => ConnectorTimerKeeps(r, timer, errno);
    case Expire => ExpireKeeps(r);
  }

  lemma {:induction false} RunKeepsRelay(r: Relay, steps: seq<Step>)
    requires Inv(r) && IsRun(r, steps)
    ensures Inv(Exec(r, steps))
    decreases |steps|
  {
    if steps != [] {
      StepKeepsRelay(r, steps[0]);
      RunKeepsRelay(Apply(r, steps[0]), steps[1..]);
    }
  }

  // ---------------------------------------------------------------- requests

  /** What was written to the sockets of these connections, in order: nothing else ever
      leaves the process. */
  function Wire(ups: seq<Conn>): seq<Byte> {
    if ups == [] then [] else Wire(ups[..|ups| - 1]) + ups[|ups| - 1].written
  }

  lemma LastWire(ups: seq<Conn>, up: Conn)
    ensures Wire(ups + [up]) == Wire(ups) + up.written
  {
    assert (ups + [up])[..|ups|] == ups;
  }

  /** How many bytes these connections were given and never wrote. */
  function Unwritten(ups: seq<Conn>): nat {
    if ups == [] then 0 else Unwritten(ups[..|ups| - 1]) + |ups[|ups| - 1].output|
  }

  lemma {:induction false} UnwrittenIff(ups: seq<Conn>)
    ensures Unwritten(ups) == 0 <==> forall c :: c in ups ==> c.output == []
  {
    if ups != [] {
      var front, last := ups[..|ups| - 1], ups[|ups| - 1];
      UnwrittenIff(front);
      assert ups == front + [last] && last in ups;
      assert forall c :: c in ups <==> c in front || c == last;
    }
  }

  lemma {:induction false} WireFallsShort(ups: seq<Conn>)
    requires forall c :: c in ups ==> ConnInv(c)
    ensures |Requested(ups)| == |Wire(ups)| + Unwritten(ups)
    ensures Unwritten(ups) == 0 ==> Requested(ups) == Wire(ups)
  {
    hide ConnInv;
    if ups != [] {
      var front, last := ups[..|ups| - 1], ups[|ups| - 1];
      assert last in ups && forall c :: c in front ==> c in ups;
      WireFallsShort(front);
      AcceptedSplits(last);
    }
  }

  lemma AcceptedSplits(c: Conn)
    requires ConnInv(c)
    ensures |c.accepted| == |c.written| + |c.output| && c.accepted == c.written + c.output
    ensures c.output == [] ==> c.accepted == c.written
  {
    Regroup(c.written, [], []);
  }

  /** What the current upstream connection has still to write. */
  function Waiting(r: Relay): seq<Byte> {
    if r.upstream.Some? then r.upstream.value.output else []
  }

  /** In every run, through every reconnection, everything read from the client was handed in
      order to one upstream connection after another or waits in its input buffer.  That all
      of it was also written to an upstream socket, or still waits to be, is so exactly when
      every former upstream connection had an empty output buffer when it was destroyed. */
  lemma RequestsConserved(errno: Attempts.Errno, steps: seq<Step>)
    requires IsRun(Begin(errno), steps)
    ensures var r := Exec(Begin(errno), steps);
            && r.client.received == Requested(Upstreams(r)) + r.client.input
            && (r.client.received == Wire(Upstreams(r)) + Waiting(r) + r.client.input
                <==> forall c :: c in r.past ==> c.output == [])
            && |r.client.received| == |Wire(Upstreams(r))| + Unwritten(r.past) + |Waiting(r)| + |r.client.input|
  {
    hide Inv;
    BeginInv(errno);
    RunKeepsRelay(Begin(errno), steps);
    RequestsIff(Exec(Begin(errno), steps));
  }

  lemma UpstreamsWire(r: Relay)
    ensures Wire(Upstreams(r)) == Wire(r.past) + (if r.upstream.Some? then r.upstream.value.written else [])
  {
    if r.upstream.Some? {
      LastWire(r.past, r.upstream.value);
    } else {
      assert Upstreams(r) == r.past;
      Regroup(Wire(r.past), [], []);
    }
  }

  lemma RequestsIff(r: Relay)
    requires Inv(r)
    ensures r.client.received == Requested(Upstreams(r)) + r.client.input
    ensures r.client.received == Wire(Upstreams(r)) + Waiting(r) + r.client.input
       <==> forall c :: c in r.past ==> c.output == []
    ensures |r.client.received| == |Wire(Upstreams(r))| + Unwritten(r.past) + |Waiting(r)| + |r.client.input|
  {
    hide ConnInv, Requested, Answered, Taken, Upstreams, Wire, Unwritten, Attempts.Inv;
    UpstreamsWith(r);
    UpstreamsWire(r);
    WireFallsShort(r.past);
    UnwrittenIff(r.past);
    if r.upstream.Some? {
      AcceptedSplits(r.upstream.value);
      Regroup(Wire(r.past), r.upstream.value.written, r.upstream.value.output);
    } else {
      Regroup(Wire(r.past), [], []);
    }
  }

  lemma RequestRead(bytes: seq<Byte>)
    requires bytes != []
    ensures var r, step := Begin(Attempts.Zero), ClientReadable(bytes, 0, Attempts.Zero);
            && Enabled(r, step) && var q := Apply(r, step);
            && q.connector == r.connector && q.upstream.None? && q.past == [] && !q.over && q.client.state.Connected?
            && q.client.input == bytes && q.client.received == bytes
    ensures var s := Begin(Attempts.Zero).connector;
            s.connect && s.stage.Connecting? && s.channel == Some(1) && s.registered == {1}
  {
    assert [] + bytes == bytes;
  }

  lemma RequestRefused(r: Relay)
    requires r.upstream.None? && r.past == [] && !r.over && r.client.state.Connected?
    requires r.connector.connect && r.connector.stage.Connecting?
    requires r.connector.channel == Some(1) && r.connector.registered == {1}
    ensures var step := ConnectorEvent(false, true, false, 0);
            && Enabled(r, step) && var q := Apply(r, step);
            && q.client == TakeInput(r.client) && q.past == [] && !q.over && q.upstream.Some?
            && q.upstream.value.output == r.client.input && q.upstream.value.written == []
  {
    var bytes := r.client.input;
    assert [] + bytes[0..] == bytes && [] + bytes[..0] == [];
  }

  lemma ServerCloses(r: Relay)
    requires r.past == [] && !r.over && r.upstream.Some? && r.upstream.value.written == []
    ensures Enabled(r, UpClosed) && var q := Apply(r, UpClosed);
            && q.client == r.client && q.upstream.None? && Wire(Upstreams(q)) == []
            && q.past != [] && q.past[0].output == r.upstream.value.output
  {
    var q := Apply(r, UpClosed);
    assert Upstreams(q) == q.past && q.past[..0] == [];
    assert Wire(q.past) == Wire([]) + [];
  }

  lemma ThreeSteps(r: Relay, s1: Step, s2: Step, s3: Step)
    requires Enabled(r, s1) && Enabled(Apply(r, s1), s2) && Enabled(Apply(Apply(r, s1), s2), s3)
    ensures IsRun(r, [s1, s2, s3]) && Exec(r, [s1, s2, s3]) == Apply(Apply(Apply(r, s1), s2), s3)
  {
    hide Enabled, Apply;
    var r3 := Apply(Apply(Apply(r, s1), s2), s3);
    assert [s1, s2, s3][1..] == [s2, s3] && [s2, s3][1..] == [s3] && [s3][1..] == [];
    assert IsRun(r3, []) && Exec(r3, []) == r3;
    assert IsRun(Apply(Apply(r, s1), s2), [s3]) && Exec(Apply(Apply(r, s1), s2), [s3]) == r3;
    assert IsRun(Apply(r, s1), [s2, s3]) && Exec(Apply(r, s1), [s2, s3]) == r3;
  }

  /** Such a loss, for any bytes: the client sends them, the upstream connection comes up, the
      first write to it is refused, and the server closes it. */
  lemma ClosedUpstreamLoses(bytes: seq<Byte>)
    requires bytes != []
    ensures var steps := [ClientReadable(bytes, 0, Attempts.Zero), ConnectorEvent(false, true, false, 0), UpClosed];
            && IsRun(Begin(Attempts.Zero), steps)
            && var r := Exec(Begin(Attempts.Zero), steps);
            && r.client.received == bytes && r.client.input == [] && r.upstream.None? && Wire(Upstreams(r)) == []
            && r.past != [] && r.past[0].output == bytes
  {
    hide Begin, Enabled, Apply, IsRun, Exec, Wire, Upstreams;
    var r := Begin(Attempts.Zero);
    var s1, s2 := ClientReadable(bytes, 0, Attempts.Zero), ConnectorEvent(false, true, false, 0);
    RequestRead(bytes);
    RequestRefused(Apply(r, s1));
    ServerCloses(Apply(Apply(r, s1), s2));
    ThreeSteps(r, s1, s2, UpClosed);
  }

  // ---------------------------------------------------------------- responses

  /** Everything ever read from the upstream connections, in order. */
  function ReceivedUpstream(ups: seq<Conn>): seq<Byte> {
    if ups == [] then [] else ReceivedUpstream(ups[..|ups| - 1]) + ups[|ups| - 1].received
  }

  lemma {:induction false} AnsweredIsReceived(ups: seq<Conn>)
    requires forall c :: c in ups ==> ConnInv(c) && c.input == []
    ensures Answered(ups) == ReceivedUpstream(ups)
  {
    if ups != [] {
      var last := ups[|ups| - 1];
      assert last in ups;
      assert Taken(last) == last.received;
      AnsweredIsReceived(ups[..|ups| - 1]);
    }
  }

  /** While the client's connection is live, every byte read from any upstream connection
      was written to the client or waits in its output buffer, in order. */
  lemma ResponsesConserved(errno: Attempts.Errno, steps: seq<Step>)
    requires IsRun(Begin(errno), steps) && Live(Exec(Begin(errno), steps).client)
    ensures var r := Exec(Begin(errno), steps);
            ReceivedUpstream(Upstreams(r)) == r.client.written + r.client.output
  {
    hide Inv;
    BeginInv(errno);
    RunKeepsRelay(Begin(errno), steps);
    ResponsesAreKept(Exec(Begin(errno), steps));
  }

  lemma ResponsesAreKept(r: Relay)
    requires Inv(r) && Live(r.client)
    ensures ReceivedUpstream(Upstreams(r)) == r.client.written + r.client.output
  {
    hide ConnInv, Requested, Attempts.Inv;
    assert forall c :: c in Upstreams(r) ==> ConnInv(c) && c.input == [];
    AnsweredIsReceived(Upstreams(r));
    AcceptedSplits(r.client);
  }

  /** While both connections are live, however many upstream connections there were before:
      nothing waits in an input buffer, everything read on either side was written to the
      other or waits in its output buffer, and each side asks to write iff something waits. */
  lemma LiveSessionRelays(errno: Attempts.Errno, steps: seq<Step>)
    requires IsRun(Begin(errno), steps)
    requires var r := Exec(Begin(errno), steps); Live(r.client) && r.upstream.Some?
    ensures var r := Exec(Begin(errno), steps); var up := r.upstream.value;
            && r.client.input == [] && up.input == []
            && r.client.received == Requested(r.past) + (up.written + up.output)
            && ReceivedUpstream(Upstreams(r)) == r.client.written + r.client.output
            && (up.writing <==> up.output != []) && (r.client.writing <==> r.client.output != [])
  {
    hide Inv;
    BeginInv(errno);
    RunKeepsRelay(Begin(errno), steps);
    BothLive(Exec(Begin(errno), steps));
  }

  lemma LiveWrites(c: Conn)
    requires ConnInv(c) && Live(c)
    ensures c.writing <==> c.output != []
  {
  }

  lemma BothLive(r: Relay)
    requires Inv(r) && Live(r.client) && r.upstream.Some?
    ensures var up := r.upstream.value;
            && r.client.input == [] && up.input == []
            && r.client.received == Requested(r.past) + (up.written + up.output)
            && ReceivedUpstream(Upstreams(r)) == r.client.written + r.client.output
            && (up.writing <==> up.output != []) && (r.client.writing <==> r.client.output != [])
  {
    hide ConnInv, Requested, Answered, Taken, Upstreams, ReceivedUpstream, Attempts.Inv;
    var up := r.upstream.value;
    UpstreamsWith(r);
    AcceptedSplits(up);
    ResponsesAreKept(r);
    Regroup(Requested(r.past) + up.accepted, [], []);
    LiveWrites(up);
    LiveWrites(r.client);
  }

  /** With the first upstream connection, each socket has been written a prefix of what the
      other delivered. */
  lemma FirstUpstreamRelays(errno: Attempts.Errno, steps: seq<Step>)
    requires IsRun(Begin(errno), steps)
    requires var r := Exec(Begin(errno), steps); Live(r.client) && r.upstream.Some? && r.past == []
    ensures var r := Exec(Begin(errno), steps); var up := r.upstream.value;
            && r.client.received == up.written + up.output && up.received == r.client.written + r.client.output
            && up.written <= r.client.received && r.client.written <= up.received
  {
    LiveSessionRelays(errno, steps);
    var r := Exec(Begin(errno), steps);
    var up := r.upstream.value;
    assert Upstreams(r) == [up] && [up][..0] == [];
    assert ReceivedUpstream([up]) == [] + up.received == up.received;
    assert [] + (up.written + up.output) == up.written + up.output;
  }

  // ---------------------------------------------------------------- attempts

  /** The flag keeps the connector to one attempt, and none while an upstream connection
      exists or the session is over.  Every socket handed over became one connection, whose
      descriptor the connector no longer has registered.  Every socket is accounted for
      unless the session ended while the connector was waiting for one. */
  lemma OneAttemptAtATime(errno: Attempts.Errno, steps: seq<Step>)
    requires IsRun(Begin(errno), steps)
    ensures var r := Exec(Begin(errno), steps);
            && Attempts.SingleAttempt(r.connector)
            && (r.upstream.Some? || !r.connecting || r.over ==> Attempts.Quiet(r.connector))
            && (Attempts.Accounted(r.connector) <==> !(r.over && r.connector.stage.Connecting?))
            && |r.connector.handed| == |Upstreams(r)|
  {
    hide Inv;
    BeginInv(errno);
    RunKeepsRelay(Begin(errno), steps);
    OneAttempt(Exec(Begin(errno), steps));
  }

  lemma OneAttempt(r: Relay)
    requires Inv(r)
    ensures Attempts.SingleAttempt(r.connector)
    ensures r.upstream.Some? || !r.connecting || r.over ==> Attempts.Quiet(r.connector)
    ensures Attempts.Accounted(r.connector) <==> !(r.over && r.connector.stage.Connecting?)
    ensures |r.connector.handed| == |Upstreams(r)|
  {
    hide ConnectionsOk, Drained, Conserved, Upstreams, Attempts.Accounted;
  }

  /** The connector never has a channel registered for a socket it has handed over. */
  lemma HandedIsUnregistered(errno: Attempts.Errno, steps: seq<Step>, socket: Attempts.Socket)
    requires IsRun(Begin(errno), steps)
    requires socket in Exec(Begin(errno), steps).connector.handed
    ensures socket !in Exec(Begin(errno), steps).connector.registered
  {
    hide Inv;
    BeginInv(errno);
    RunKeepsRelay(Begin(errno), steps);
    Unregistered(Exec(Begin(errno), steps), socket);
  }

  lemma Unregistered(r: Relay, socket: Attempts.Socket)
    requires Inv(r) && socket in r.connector.handed
    ensures socket !in r.connector.registered
  {
    hide ConnectionsOk, Drained, Conserved, Upstreams;
    Attempts.CountNone(socket, r.connector.handed);
  }

  /** The end of a session, in every run: nothing is under way any more, and the one socket
      that is neither closed nor handed over is the one the connector was waiting for. */
  lemma EndLosesWaitingSocket(errno: Attempts.Errno, steps: seq<Step>, socket: Attempts.Socket)
    requires IsRun(Begin(errno), steps) && !Exec(Begin(errno), steps).over
    requires 1 <= socket <= Exec(Begin(errno), steps).connector.created
    ensures var q := Exec(Begin(errno), steps); var r := Apply(q, Expire);
            && r.over && Attempts.Quiet(r.connector)
            && Attempts.Times(socket, r.connector.closed) + Attempts.Times(socket, r.connector.handed)
               == if socket in q.connector.registered then 0 else 1
  {
    hide Inv;
    BeginInv(errno);
    RunKeepsRelay(Begin(errno), steps);
    EndLoses(Exec(Begin(errno), steps), socket);
  }

  lemma EndLoses(q: Relay, socket: Attempts.Socket)
    requires Inv(q) && !q.over && 1 <= socket <= q.connector.created
    ensures var r := ExpireSession(q);
            && r.over && Attempts.Quiet(r.connector)
            && Attempts.Times(socket, r.connector.closed) + Attempts.Times(socket, r.connector.handed)
               == if socket in q.connector.registered then 0 else 1
  {
    hide ConnectionsOk, Drained, Conserved, Upstreams;
    Attempts.DestructorAccounts(q.connector);
  }

  // ---------------------------------------------------------------- a session that is stuck

  /** The session believes that an upstream connection is being made, and none is. */
  predicate Stuck(r: Relay) {
    !r.over && r.connecting && Attempts.Quiet(r.connector)
  }

  /** This step starts an attempt whose connect(2) fails for good. */
  predicate FailsForGood(r: Relay, step: Step) {
    match step
    case ClientReadable(_, _, errno) => r.upstream.None? && !r.connecting && !Attempts.Lasting(errno)
    case ConnectorTimer(_, errno) => !Attempts.Lasting(errno)
    case _ => false
  }

  /** Exactly such a step makes a session stuck. */
  lemma GetsStuckIff(r: Relay, step: Step)
    requires Inv(r) && Enabled(r, step) && !Stuck(r)
    ensures Stuck(Apply(r, step)) <==> FailsForGood(r, step)
  {
    hide ConnectionsOk, Drained, Conserved, Upstreams, Attempts.Accounted;
    var q := Apply(r, step);
    if step.ConnectorEvent? {
      AfterEvent(r.connector, step.error, step.writable, step.failed);
    } else if step.ConnectorTimer? {
      AfterAttempt(r.connector.(timers := r.connector.timers - {step.timer}), step.errno);
    } else if step.ClientReadable? && r.upstream.None? && !r.connecting {
      AfterAttempt(r.connector, step.errno);
      assert r.connector.(connect := true) == r.connector;
    }
  }

  lemma AfterAttempt(s: Attempts.State, errno: Attempts.Errno)
    requires s.connect && Attempts.Quiet(s)
    ensures Attempts.Quiet(Attempts.StartInLoop(s, errno)) <==> !Attempts.Lasting(errno)
  {
    var r := Attempts.StartInLoop(s, errno);
    if Attempts.UnderWay(errno) {
      assert s.created + 1 in r.registered;
    } else if Attempts.Retryable(errno) {
      assert s.lastTimer + 1 in r.timers;
    }
  }

  /** Without a hand-over, something is under way after an event. */
  lemma AfterEvent(s: Attempts.State, error: bool, writable: bool, failed: bool)
    requires Attempts.Inv(s) && s.connect && Attempts.Enabled(s, Attempts.Event(error, writable, failed))
    ensures var t := Attempts.Apply(s, Attempts.Event(error, writable, failed));
            HandsOver(s, t) || !Attempts.Quiet(t)
  {
    var t := Attempts.Apply(s, Attempts.Event(error, writable, failed));
    if !HandsOver(s, t) {
      assert s.lastTimer + 1 in t.timers;
    }
  }

  /** A stuck session stays stuck until it is over: no upstream connection ever comes, and
      what the client sends is only kept. */
  lemma {:induction false} StuckForGood(r: Relay, steps: seq<Step>)
    requires Inv(r) && Stuck(r) && IsRun(r, steps)
    ensures var q := Exec(r, steps);
            && (q.over || Stuck(q))
            && q.upstream.None? && q.past == r.past && q.client.accepted == r.client.accepted
            && r.client.input <= q.client.input && Attempts.Quiet(q.connector)
    decreases |steps|
  {
    hide Inv, Enabled, Apply;
    StuckHasNone(r);
    if steps != [] {
      StepKeepsRelay(r, steps[0]);
      StuckStep(r, steps[0]);
      var q := Apply(r, steps[0]);
      if q.over {
        OverEnds(q, steps[1..]);
      } else {
        StuckForGood(q, steps[1..]);
      }
    }
  }

  lemma OverEnds(r: Relay, steps: seq<Step>)
    requires r.over && IsRun(r, steps)
    ensures steps == []
  {
  }

  lemma StuckHasNone(r: Relay)
    requires Inv(r) && r.connecting
    ensures r.upstream.None?
  {
    hide ConnectionsOk, Drained, Conserved, Attempts.Inv, Deleted, Upstreams;
  }

  lemma StuckStep(r: Relay, step: Step)
    requires Inv(r) && Stuck(r) && Enabled(r, step)
    ensures var q := Apply(r, step);
            && (q.over || Stuck(q)) && q.upstream.None? && q.past == r.past
            && q.client.accepted == r.client.accepted && r.client.input <= q.client.input
            && Attempts.Quiet(q.connector)
  {
    hide ConnectionsOk, Drained, Conserved, Attempts.Inv, Deleted, Upstreams;
  }

  /** No attempt in these steps fails for good. */
  predicate AllLasting(steps: seq<Step>) {
    forall step :: step in steps ==>
                     && (step.ClientReadable? ==> Attempts.Lasting(step.errno))
                     && (step.ConnectorTimer? ==> Attempts.Lasting(step.errno))
  }

  /** Where no attempt fails for good, a session that has no upstream connection and believes
      that one is being made is right. */
  lemma NeverStuck(errno: Attempts.Errno, steps: seq<Step>)
    requires IsRun(Begin(errno), steps) && Attempts.Lasting(errno) && AllLasting(steps)
    ensures !Stuck(Exec(Begin(errno), steps))
  {
    hide Inv;
    BeginInv(errno);
    AfterAttempt(Attempts.INIT.(connect := true), errno);
    NeverStuckFrom(Begin(errno), steps);
  }

  lemma {:induction false} NeverStuckFrom(r: Relay, steps: seq<Step>)
    requires Inv(r) && !Stuck(r) && IsRun(r, steps) && AllLasting(steps)
    ensures !Stuck(Exec(r, steps))
    decreases |steps|
  {
    hide Inv, Enabled, Apply, Stuck;
    if steps != [] {
      assert steps[0] in steps;
      StepKeepsRelay(r, steps[0]);
      GetsStuckIff(r, steps[0]);
      NeverStuckFrom(Apply(r, steps[0]), steps[1..]);
    }
  }

  /** The very first attempt can do it. */
  lemma StuckFromTheStart(errno: Attempts.Errno)
    ensures Stuck(Begin(errno)) <==> !Attempts.Lasting(errno)
  {
    AfterAttempt(Attempts.INIT.(connect := true), errno);
  }

  // ---------------------------------------------------------------- the steps, told from outside

  /** What the kernel delivered from the client, in order. */
  function ClientBytes(steps: seq<Step>): seq<Byte> {
    if steps == [] then []
    else (if steps[0].ClientReadable? then steps[0].bytes else []) + ClientBytes(steps[1..])
  }

  /** What it delivered from upstream connections. */
  function UpBytes(steps: seq<Step>): seq<Byte> {
    if steps == [] then []
    else (if steps[0].UpReadable? then steps[0].bytes else []) + UpBytes(steps[1..])
  }

  lemma LastReceived(ups: seq<Conn>, up: Conn)
    ensures ReceivedUpstream(ups + [up]) == ReceivedUpstream(ups) + up.received
  {
    assert (ups + [up])[..|ups|] == ups;
  }

  function AllReceived(r: Relay): seq<Byte> {
    ReceivedUpstream(r.past) + if r.upstream.Some? then r.upstream.value.received else []
  }

  lemma AllReceivedIs(r: Relay)
    ensures AllReceived(r) == ReceivedUpstream(Upstreams(r))
  {
    if r.upstream.Some? {
      LastReceived(r.past, r.upstream.value);
    } else {
      assert Upstreams(r) == r.past;
      Regroup(ReceivedUpstream(r.past), [], []);
    }
  }

  lemma WriteKeepsReceived(c: Conn, n: int)
    ensures HandleWrite(c, n).received == c.received
  {
  }

  lemma StepReceives(r: Relay, step: Step)
    requires Enabled(r, step)
    requires step.ConnectorEvent? ==> r.upstream.None? || !HandsOver(r.connector, Attempts.Apply(r.connector, Attempts.Event(step.error, step.writable, step.failed)))
    ensures var q := Apply(r, step);
            && q.client.received == r.client.received + (if step.ClientReadable? then step.bytes else [])
            && AllReceived(q) == AllReceived(r) + (if step.UpReadable? then step.bytes else [])
  {
    hide ReceivedUpstream, Attempts.Apply, Attempts.StartInLoop, Attempts.Delete, HandleWrite;
    Regroup(r.client.received, [], []);
    Regroup(AllReceived(r), [], []);
    Regroup(ReceivedUpstream(r.past), [], []);
    match step
    case ClientWritable(n) => WriteKeepsReceived(r.client, n);
    case UpWritable(n) => WriteKeepsReceived(r.upstream.value, n);
    case UpReadable(bytes, _) => Regroup(ReceivedUpstream(r.past), r.upstream.value.received, bytes);
    case UpClosed => Retired(r, Destroy(r.upstream.value));
    case Expire => if r.upstream.Some? { Retired(r, Destroy(Shutdown(r.upstream.value))); }
    case _ =>
  }

  lemma Retired(r: Relay, closed: Conn)
    requires r.upstream.Some? && closed.received == r.upstream.value.received
    ensures ReceivedUpstream(r.past + [closed]) + [] == AllReceived(r)
  {
    LastReceived(r.past, closed);
    Regroup(ReceivedUpstream(r.past + [closed]), [], []);
  }

  lemma {:induction false} RunReceives(r: Relay, steps: seq<Step>)
    requires Inv(r) && IsRun(r, steps)
    ensures Exec(r, steps).client.received == r.client.received + ClientBytes(steps)
    ensures AllReceived(Exec(r, steps)) == AllReceived(r) + UpBytes(steps)
    decreases |steps|
  {
    hide Inv, Enabled, Apply, AllReceived, HandsOver;
    if steps == [] {
      Regroup(r.client.received, [], []);
      Regroup(AllReceived(r), [], []);
    } else {
      StepKeepsRelay(r, steps[0]);
      if steps[0].ConnectorEvent? { EventMeansNone(r, steps[0]); }
      StepReceives(r, steps[0]);
      RunReceives(Apply(r, steps[0]), steps[1..]);
      Regroup(r.client.received, if steps[0].ClientReadable? then steps[0].bytes else [], ClientBytes(steps[1..]));
      Regroup(AllReceived(r), if steps[0].UpReadable? then steps[0].bytes else [], UpBytes(steps[1..]));
    }
  }

  lemma EventMeansNone(r: Relay, step: Step)
    requires Inv(r) && Enabled(r, step) && step.ConnectorEvent?
    ensures r.upstream.None?
  {
    hide ConnectionsOk, Drained, Conserved, Upstreams;
    assert !Attempts.Quiet(r.connector);
  }

  /** In every run, what the conservation laws speak of as read is exactly what the kernel
      delivered, on either side, in order. */
  lemma ReadsAreRecorded(errno: Attempts.Errno, steps: seq<Step>)
    requires IsRun(Begin(errno), steps)
    ensures var r := Exec(Begin(errno), steps);
            r.client.received == ClientBytes(steps) && ReceivedUpstream(Upstreams(r)) == UpBytes(steps)
  {
    var b := Begin(errno);
    BeginInv(errno);
    assert b.client.received == [] && AllReceived(b) == [];
    hide Inv, Begin, IsRun, Exec, AllReceived, ClientBytes, UpBytes;
    RunReceives(b, steps);
    AllReceivedIs(Exec(b, steps));
    Regroup(ClientBytes(steps), [], []);
    assert [] + ClientBytes(steps) == ClientBytes(steps) && [] + UpBytes(steps) == UpBytes(steps);
  }

  /** What comes in from the client goes on to the upstream connection in the same step: the
      kernel is offered it at once when nothing waits there, and what it takes is written. */
  lemma RequestForwarded(r: Relay, bytes: seq<Byte>, nwrote: int, errno: Attempts.Errno)
    requires Inv(r) && Enabled(r, ClientReadable(bytes, nwrote, errno)) && r.upstream.Some?
    ensures var q := Apply(r, ClientReadable(bytes, nwrote, errno)); var up := r.upstream.value;
            && q.upstream.Some? && q.client.input == [] && q.connector == r.connector
            && q.upstream.value.accepted == up.accepted + bytes
            && (up.output == [] && nwrote >= 0 ==>
                  q.upstream.value.written == up.written + bytes[..nwrote] && q.upstream.value.output == bytes[nwrote..])
            && (up.output != [] || nwrote < 0 ==>
                  q.upstream.value.written == up.written && q.upstream.value.output == up.output + bytes)
  {
    var up := r.upstream.value;
    hide Inv, Send;
    BothReady(r);
    assert [] + bytes == bytes;
    SendOutcome(up, bytes, nwrote);
  }

  lemma BothReady(r: Relay)
    requires Inv(r) && Live(r.client) && r.upstream.Some?
    ensures r.client.input == [] && r.upstream.value.input == []
    ensures r.client.state.Connected? && r.upstream.value.state.Connected?
    ensures r.upstream.value.writing <==> r.upstream.value.output != []
    ensures r.client.writing <==> r.client.output != []
  {
    hide Conserved, ConnectorOk;
  }

  /** And the other way round. */
  lemma AnswerForwarded(r: Relay, bytes: seq<Byte>, nwrote: int)
    requires Inv(r) && Enabled(r, UpReadable(bytes, nwrote)) && Live(r.client)
    ensures var q := Apply(r, UpReadable(bytes, nwrote)); var client := r.client;
            && q.upstream.Some? && q.upstream.value.input == []
            && q.client.accepted == client.accepted + bytes
            && (client.output == [] && nwrote >= 0 ==>
                  q.client.written == client.written + bytes[..nwrote] && q.client.output == bytes[nwrote..])
            && (client.output != [] || nwrote < 0 ==>
                  q.client.written == client.written && q.client.output == client.output + bytes)
  {
    hide Inv, Send;
    BothReady(r);
    assert [] + bytes == bytes;
    SendOutcome(r.client, bytes, nwrote);
  }

  /** An event of the connector brings an upstream connection exactly when it reports a
      connected socket without an error; what the client sent so far is then offered to the
      kernel at once. */
  lemma UpstreamComesIff(r: Relay, error: bool, writable: bool, failed: bool, nwrote: int)
    requires Inv(r) && Enabled(r, ConnectorEvent(error, writable, failed, nwrote))
    ensures var q := Apply(r, ConnectorEvent(error, writable, failed, nwrote));
            && (q.upstream.Some? <==> !error && writable && !failed)
            && (q.upstream.Some? && Live(r.client) ==>
                  && q.client.input == [] && q.upstream.value.accepted == r.client.input
                  && (nwrote >= 0 ==> q.upstream.value.written == r.client.input[..nwrote])
                  && (nwrote < 0 ==> q.upstream.value.written == []))
            && (q.upstream.None? ==> q.client == r.client)
  {
    hide Inv, Attempts.Inv, Attempts.Apply, Attempts.Enabled, NewUpstream, Live;
    EventMeansNone(r, ConnectorEvent(error, writable, failed, nwrote));
    ConnectorWanted(r);
    var s := r.connector;
    Attempts.EventOutcome(s, error, writable, failed);
    var t := Attempts.Apply(s, Attempts.Event(error, writable, failed));
    assert |t.handed| == |s.handed| + if !error && writable && !failed then 1 else 0;
    FirstOffer(r.(connector := t), nwrote);
  }

  lemma FirstOffer(r: Relay, nwrote: int)
    requires -1 <= nwrote <= |r.client.input|
    ensures var q := NewUpstream(r, nwrote);
            && q.upstream.Some?
            && (Live(r.client) ==>
                  && q.client.input == [] && q.upstream.value.accepted == r.client.input
                  && (nwrote >= 0 ==> q.upstream.value.written == r.client.input[..nwrote])
                  && (nwrote < 0 ==> q.upstream.value.written == []))
  {
    hide Send, ConnInv;
    EstablishedConn();
    SendOutcome(Establish(NEW_CONN), r.client.input, nwrote);
    assert [] + r.client.input == r.client.input;
    if nwrote >= 0 { assert [] + r.client.input[..nwrote] == r.client.input[..nwrote]; }
  }

  lemma ConnectorWanted(r: Relay)
    requires Inv(r) && !r.over
    ensures r.connector.connect && Attempts.Inv(r.connector)
  {
    hide ConnectionsOk, Drained, Conserved, Upstreams, Attempts.Inv;
  }

  /** At its end a session half-closes the connections it still has, where nothing waits, and
      destroys them. */
  lemma EndHalfCloses(r: Relay)
    requires Inv(r) && !r.over
    ensures var q := ExpireSession(r);
            && q.client.state.Disconnected? && q.upstream.None?
            && (Live(r.client) ==> q.client.shutAt == if r.client.output == [] then [|r.client.written|] else [])
            && (r.upstream.Some? ==>
                  && |q.past| == |r.past| + 1 && q.past[|r.past|].state.Disconnected?
                  && q.past[|r.past|].shutAt ==
                     if r.upstream.value.output == [] then [|r.upstream.value.written|] else [])
  {
    hide Conserved, ConnectorOk, Attempts.Delete;
  }
}
