/** The session over its two connections and its connector. */
module Sessions {
  import opened Buffers
  import opened Connections
  import opened TcpConnections
  import opened Connectors
  import opened Options
  import opened Relays
  import Attempts

  /** What a read of the client's or the upstream socket amounts to: the end of file is an
      empty read. */
  function ClientStep(bytes: seq<Byte>, nwrote: int, errno: Attempts.Errno): Relays.Step {
    if bytes == [] then ClientClosed else ClientReadable(bytes, nwrote, errno)
  }

  function UpStep(bytes: seq<Byte>, nwrote: int): Relays.Step {
    if bytes == [] then UpClosed else UpReadable(bytes, nwrote)
  }

  class Session {
    /** The client's connection, and whether TcpServer::getConn still finds it. */
    const client: TcpConnection
    var clientListed: bool
    var upstream: TcpConnection?
    var connecting: bool
    const connector: Connector

    ghost var past: seq<Conn>
    ghost var over: bool

    ghost function Footprint(): set<object>
      reads this, client, client.inputBuffer, client.outputBuffer
      reads if upstream == null then {} else {upstream, upstream.inputBuffer, upstream.outputBuffer}
    {
      {this, connector} + client.Footprint() + if upstream == null then {} else upstream.Footprint()
    }

    /** The parts are well-formed and share nothing. */
    ghost predicate Parts()
      reads this, connector
      reads client, client.inputBuffer, client.outputBuffer, client.inputBuffer.data, client.outputBuffer.data
      reads if upstream == null then {} else {upstream, upstream.inputBuffer, upstream.outputBuffer,
                                              upstream.inputBuffer.data, upstream.outputBuffer.data}
    {
      && client.Valid()
      && this !in client.Footprint() && connector !in client.Footprint()
      && (upstream != null ==>
            && upstream.Valid()
            && this !in upstream.Footprint() && connector !in upstream.Footprint()
            && client.Footprint() !! upstream.Footprint())
    }

    ghost function Model(): Relay
      requires Parts()
      reads this, connector
      reads client, client.inputBuffer, client.outputBuffer, client.inputBuffer.data, client.outputBuffer.data
      reads if upstream == null then {} else {upstream, upstream.inputBuffer, upstream.outputBuffer,
                                              upstream.inputBuffer.data, upstream.outputBuffer.data}
    {
      Relay(client.Model(), if upstream == null then None else Some(upstream.Model()), connecting, connector.Model(), past, over)
    }

    ghost predicate Valid()
      reads this, connector
      reads client, client.inputBuffer, client.outputBuffer, client.inputBuffer.data, client.outputBuffer.data
      reads if upstream == null then {} else {upstream, upstream.inputBuffer, upstream.outputBuffer,
                                              upstream.inputBuffer.data, upstream.outputBuffer.data}
    {
      Parts() && Inv(Model()) && (clientListed <==> Live(client.Model()))
    }

    constructor (client: TcpConnection, errno: Attempts.Errno)
      requires client.Valid() && client.Model() == Establish(NEW_CONN)
      ensures Valid() && this.client == client && fresh(Footprint() - client.Footprint())
      ensures Model() == Begin(errno)
    {
      hide Inv, ConnInv, Attempts.Inv, Attempts.StartInLoop, Establish, Live, TcpConnection.Model, Buffer.Valid, Buffer.Contents;
      this.client := client;
      clientListed := true;
      upstream := null;
      past, over := [], false;
      connector := new Connector();
      connecting := true;
      new;
      EstablishLives();
      BeginInv(errno);
      connector.Start(errno);
    }

    /** onTcpServerMessage_. */
    method OnTcpServerMessage(nwrote: int, errno: Attempts.Errno)
      requires Parts() && -1 <= nwrote <= |client.Model().input|
      modifies Footprint()
      ensures Parts() && fresh(Footprint() - old(Footprint()))
      ensures Model() == OnServerMessage(old(Model()), nwrote, errno)
      ensures clientListed == old(clientListed)
    {
      hide ConnInv, Attempts.Inv, Attempts.StartInLoop, Connections.Send, Connections.TakeInput;
      hide TcpConnection.Model, Buffer.Valid, Buffer.Contents;
      if upstream != null {
        var message := client.TakeInput();
        var queued := upstream.Send(message, nwrote, true);
      } else {
        if connecting {
        } else {
          connector.Start(errno);
          connecting := true;
        }
      }
    }

    /** onTcpClientMessage_. */
    method OnTcpClientMessage(nwrote: int)
      requires Parts() && upstream != null && -1 <= nwrote <= |upstream.Model().input|
      requires clientListed <==> Live(client.Model())
      modifies Footprint()
      ensures Parts() && fresh(Footprint() - old(Footprint()))
      ensures Model() == OnClientMessage(old(Model()), nwrote)
      ensures clientListed == old(clientListed) && (clientListed <==> Live(client.Model()))
    {
      hide ConnInv, Attempts.Inv, Connections.SendInLoop;
      if clientListed {
        var message := upstream.TakeInput();
        SendKeepsLive(client.Model(), message, nwrote);
        var queued := client.Send(message, nwrote, true);
      }
    }

    /** TcpClient::newConnection, then connectEstablished, then onTcpClientConnection_. */
    method NewConnection(nwrote: int)
      requires Parts() && -1 <= nwrote <= |client.Model().input|
      requires clientListed <==> Live(client.Model())
      modifies Footprint()
      ensures Parts() && fresh(Footprint() - old(Footprint()))
      ensures Model() == NewUpstream(old(Model()), nwrote)
      ensures clientListed == old(clientListed) && (clientListed <==> Live(client.Model()))
    {
      hide ConnInv, Attempts.Inv, OnClientConnection, Live, Establish;
      hide TcpConnection.Model, TcpConnection.Valid, Buffer.Valid, Buffer.Contents;
      hide Session.Model, Session.Parts;
      Adopt();
      OnTcpClientConnection(nwrote);
    }

    method Adopt()
      requires Parts()
      modifies this`upstream, this`connecting
      ensures Parts() && fresh(Footprint() - old(Footprint())) && client.Model() == old(client.Model())
      ensures Model() == old(Model()).(connecting := false, upstream := Some(Establish(NEW_CONN)))
      ensures upstream != null && clientListed == old(clientListed)
    {
      hide ConnInv, Attempts.Inv, OnClientConnection, Live, Establish;
      hide TcpConnection.Model, Buffer.Valid, Buffer.Contents;
      upstream := MakeConnection();
      connecting := false;
    }

    static method MakeConnection() returns (conn: TcpConnection)
      ensures conn.Valid() && fresh(conn.Footprint()) && conn.Model() == Establish(NEW_CONN)
    {
      conn := new TcpConnection();
      conn.ConnectEstablished();
    }

    /** onTcpClientConnection_ for a connection that is up. */
    method OnTcpClientConnection(nwrote: int)
      requires Parts() && upstream != null && -1 <= nwrote <= |client.Model().input|
      requires clientListed <==> Live(client.Model())
      modifies Footprint()
      ensures Parts() && fresh(Footprint() - old(Footprint()))
      ensures Model() == OnClientConnection(old(Model()), nwrote)
      ensures clientListed == old(clientListed) && (clientListed <==> Live(client.Model()))
    {
      hide ConnInv, Attempts.Inv, Connections.Send;
      if clientListed {
        var message := client.TakeInput();
        var queued := upstream.Send(message, nwrote, true);
      }
    }

    /** The client's socket is readable: data, end of file or an error. */
    method ClientReads(read: ReadResult, nwrote: int, errno: Attempts.Errno)
      requires Valid() && !over && clientListed
      requires read.Got? ==> |read.bytes| <= client.inputBuffer.WritableBytes() + EXTRA_SIZE
      requires read.Got? ==> Relays.Enabled(Model(), ClientStep(read.bytes, nwrote, errno))
      modifies Footprint()
      ensures Valid() && fresh(Footprint() - old(Footprint()))
      ensures Model() == if read.Failed? then old(Model())
                         else Relays.Apply(old(Model()), ClientStep(read.bytes, nwrote, errno))
    {
      hide Inv, ConnInv, Attempts.Inv, Attempts.Quiet, Relays.Apply, Relays.Enabled, OnServerMessage, Receive, Destroy, Live;
      hide TcpConnection.Model, Buffer.Valid, Buffer.Contents;
      UpstreamIsLive(Model());
      if read.Got? {
        StepKeepsRelay(Model(), ClientStep(read.bytes, nwrote, errno));
        ClientReadStep(Model(), read.bytes, nwrote, errno);
      }
      var outcome := ReadClient(read);
      match outcome {
        case Message => OnTcpServerMessage(nwrote, errno);
        case Close => CloseClient();
        case Error =>
      }
    }

    /** handleRead of the client's connection up to its callback. */
    method ReadClient(read: ReadResult) returns (outcome: ReadOutcome)
      requires Parts() && Live(client.Model())
      requires read.Got? ==> |read.bytes| <= client.inputBuffer.WritableBytes() + EXTRA_SIZE
      modifies client.Footprint()
      ensures Parts() && fresh(Footprint() - old(Footprint()))
      ensures outcome == if read.Failed? then Error else if read.bytes == [] then ReadOutcome.Close else Message
      ensures Model() == if outcome.Message? then old(Model()).(client := Receive(old(Model()).client, read.bytes))
                         else old(Model())
    {
      hide ConnInv, Receive, Live, TcpConnection.Model, Buffer.Valid, Buffer.Contents;
      outcome := client.HandleRead(read);
    }

    /** handleClose of the client's connection, by which the server forgets it. */
    method CloseClient()
      requires Parts() && Live(client.Model())
      modifies client, this`clientListed
      ensures Parts() && Footprint() == old(Footprint()) && !clientListed
      ensures Model() == old(Model()).(client := Destroy(old(Model()).client))
    {
      hide ConnInv, Destroy, Live, TcpConnection.Model, Buffer.Valid, Buffer.Contents;
      client.HandleClose();
      clientListed := false;
    }

    method ClientWrites(n: int)
      requires Valid() && Relays.Enabled(Model(), ClientWritable(n))
      modifies Footprint()
      ensures Valid() && Footprint() == old(Footprint())
      ensures Model() == Relays.Apply(old(Model()), ClientWritable(n))
    {
      hide Inv, ConnInv, Attempts.Inv, Relays.Apply, Connections.HandleWrite, Live;
      hide TcpConnection.Model, Buffer.Valid, Buffer.Contents;
      StepKeepsRelay(Model(), ClientWritable(n));
      ClientWritableStep(Model(), n);
      client.HandleWrite(n);
    }

    method UpReads(read: ReadResult, nwrote: int)
      requires Valid() && !over && upstream != null
      requires read.Got? ==> |read.bytes| <= upstream.inputBuffer.WritableBytes() + EXTRA_SIZE
      requires read.Got? ==> Relays.Enabled(Model(), UpStep(read.bytes, nwrote))
      modifies Footprint()
      ensures Valid() && fresh(Footprint() - old(Footprint()))
      ensures Model() == if read.Failed? then old(Model())
                         else Relays.Apply(old(Model()), UpStep(read.bytes, nwrote))
    {
      hide Inv, ConnInv, Attempts.Inv, Attempts.Quiet, Relays.Apply, Relays.Enabled, OnClientMessage, Receive, Destroy, Live;
      hide TcpConnection.Model, Buffer.Valid, Buffer.Contents;
      UpstreamIsLive(Model());
      if read.Got? {
        StepKeepsRelay(Model(), UpStep(read.bytes, nwrote));
        UpReadStep(Model(), read.bytes, nwrote);
      }
      var outcome := ReadUpstream(read);
      match outcome {
        case Message => OnTcpClientMessage(nwrote);
        case Close => RemoveConnection();
        case Error =>
      }
    }

    method ReadUpstream(read: ReadResult) returns (outcome: ReadOutcome)
      requires Parts() && upstream != null && Live(upstream.Model())
      requires read.Got? ==> |read.bytes| <= upstream.inputBuffer.WritableBytes() + EXTRA_SIZE
      modifies upstream.Footprint()
      ensures Parts() && fresh(Footprint() - old(Footprint())) && client.Model() == old(client.Model())
      ensures outcome == if read.Failed? then Error else if read.bytes == [] then ReadOutcome.Close else Message
      ensures Model() == if outcome.Message? then old(Model()).(upstream := Some(Receive(old(upstream.Model()), read.bytes)))
                         else old(Model())
    {
      hide ConnInv, Receive, Live, TcpConnection.Model, Buffer.Valid, Buffer.Contents;
      outcome := upstream.HandleRead(read);
    }

    /** handleClose of the upstream connection, which calls TcpClient::removeConnection. */
    method RemoveConnection()
      requires Parts() && upstream != null && Live(upstream.Model())
      modifies upstream, this`upstream, this`past
      ensures Parts() && Footprint() <= old(Footprint())
      ensures Model() == old(Model()).(upstream := None, past := old(past) + [Destroy(old(upstream.Model()))])
    {
      hide ConnInv, Destroy, Live, Buffer.Valid, Buffer.Contents;
      upstream.HandleClose();
      past := past + [upstream.Model()];
      upstream := null;
    }

    method UpWrites(n: int)
      requires Valid() && Relays.Enabled(Model(), UpWritable(n))
      modifies Footprint()
      ensures Valid() && Footprint() == old(Footprint())
      ensures Model() == Relays.Apply(old(Model()), UpWritable(n))
    {
      hide Inv, ConnInv, Attempts.Inv, Relays.Apply, Connections.HandleWrite, Live;
      hide TcpConnection.Model, Buffer.Valid, Buffer.Contents;
      StepKeepsRelay(Model(), UpWritable(n));
      UpWritableStep(Model(), n);
      upstream.HandleWrite(n);
    }

    /** The connector's channel has an event; `nwrote` is what the first write to the new
        connection would take. */
    method ConnectorReports(error: bool, writable: bool, failed: bool, nwrote: int)
      requires Valid() && Relays.Enabled(Model(), ConnectorEvent(error, writable, failed, nwrote))
      modifies Footprint()
      ensures Valid() && fresh(Footprint() - old(Footprint()))
      ensures Model() == Relays.Apply(old(Model()), ConnectorEvent(error, writable, failed, nwrote))
    {
      hide Inv, ConnInv, Attempts.Inv, Attempts.Apply, Attempts.Enabled, NewUpstream, Live;
      hide TcpConnection.Model, Buffer.Valid, Buffer.Contents;
      StepKeepsRelay(Model(), ConnectorEvent(error, writable, failed, nwrote));
      ConnectorIsKept(Model());
      var newConnection := connector.HandleEvent(error, writable, failed);
      if newConnection.Some? {
        NewConnection(nwrote);
      }
    }

    method ConnectorRetries(timer: nat, errno: Attempts.Errno)
      requires Valid() && Relays.Enabled(Model(), ConnectorTimer(timer, errno))
      modifies connector
      ensures Valid() && Footprint() == old(Footprint())
      ensures Model() == Relays.Apply(old(Model()), ConnectorTimer(timer, errno))
    {
      hide Inv, ConnInv, Attempts.Inv, Attempts.Apply, Relays.Apply, Relays.Enabled, Live;
      hide TcpConnection.Model, Buffer.Valid, Buffer.Contents;
      ConnectorTimerStep(Model(), timer, errno);
      connector.OnTimer(timer, errno);
    }

    /** TcpServer::removeConn for a listed connection. */
    method RemoveClient()
      requires Parts() && Live(client.Model()) && Live(Connections.Shutdown(client.Model()))
      modifies client, this`clientListed
      ensures Parts() && Footprint() == old(Footprint()) && !clientListed
      ensures Model() == old(Model()).(client := Destroy(Connections.Shutdown(old(Model()).client)))
    {
      hide ConnInv, Connections.Shutdown, Destroy, Live, TcpConnection.Model, Buffer.Valid, Buffer.Contents;
      client.ShutdownAll();
      CloseClient();
    }

    /** What ~TcpClient does to its connection. */
    method DropUpstream()
      requires Parts() && upstream != null && Live(Connections.Shutdown(upstream.Model()))
      modifies upstream, this`upstream, this`past
      ensures Parts() && Footprint() <= old(Footprint())
      ensures Model() == old(Model()).(upstream := None, past := old(past) + [Destroy(Connections.Shutdown(old(upstream.Model())))])
    {
      hide ConnInv, Connections.Shutdown, Destroy, Live, TcpConnection.Model, Buffer.Valid, Buffer.Contents;
      upstream.ShutdownAll();
      RemoveConnection();
    }

    /** The destructor: TcpServer::removeConn, then ~TcpClient, whose connector goes last. */
    method Close()
      requires Valid() && Relays.Enabled(Model(), Expire)
      modifies Footprint()
      ensures Valid() && fresh(Footprint() - old(Footprint()))
      ensures Model() == Relays.Apply(old(Model()), Expire)
    {
      hide Inv, ConnInv, Attempts.Inv, Attempts.Delete, Relays.Apply, Connections.Shutdown, Destroy, Live;
      hide TcpConnection.Model, Buffer.Valid, Buffer.Contents;
      ExpireStep(Model());
      if clientListed {
        RemoveClient();
      }
      if upstream != null {
        DropUpstream();
      }
      connector.Delete();
      over := true;
    }
  }

  lemma ClientWritableStep(r: Relay, n: int)
    requires Relays.Enabled(r, ClientWritable(n))
    ensures Relays.Apply(r, ClientWritable(n)) == r.(client := Connections.HandleWrite(r.client, n))
    ensures Live(Connections.HandleWrite(r.client, n))
  {
  }

  lemma UpWritableStep(r: Relay, n: int)
    requires Relays.Enabled(r, UpWritable(n))
    ensures Relays.Apply(r, UpWritable(n)) == r.(upstream := Some(Connections.HandleWrite(r.upstream.value, n)))
  {
  }

  lemma EstablishLives()
    ensures Live(Establish(NEW_CONN))
  {
  }

  lemma ClientReadStep(r: Relay, bytes: seq<Byte>, nwrote: int, errno: Attempts.Errno)
    requires Relays.Enabled(r, ClientStep(bytes, nwrote, errno))
    ensures !Live(Destroy(r.client))
    ensures Relays.Apply(r, ClientClosed) == r.(client := Destroy(r.client))
    ensures bytes != [] ==>
              var m := Receive(r.client, bytes);
              && Relays.Apply(r, ClientReadable(bytes, nwrote, errno)) == OnServerMessage(r.(client := m), nwrote, errno)
              && -1 <= nwrote <= |m.input| && Live(OnServerMessage(r.(client := m), nwrote, errno).client)
  {
    hide Attempts.StartInLoop, Connections.Send;
  }

  lemma UpReadStep(r: Relay, bytes: seq<Byte>, nwrote: int)
    requires r.upstream.Some? && Relays.Enabled(r, UpStep(bytes, nwrote))
    ensures Relays.Apply(r, UpClosed) == r.(upstream := None, past := r.past + [Destroy(r.upstream.value)])
    ensures bytes != [] ==>
              var m := Receive(r.upstream.value, bytes);
              && Relays.Apply(r, UpReadable(bytes, nwrote)) == OnClientMessage(r.(upstream := Some(m)), nwrote)
              && -1 <= nwrote <= |m.input|
  {
    hide Connections.Send;
  }

  lemma ConnectorTimerStep(r: Relay, timer: nat, errno: Attempts.Errno)
    requires Inv(r) && Relays.Enabled(r, ConnectorTimer(timer, errno))
    ensures Attempts.Inv(r.connector) && timer in r.connector.timers && Inv(Relays.Apply(r, ConnectorTimer(timer, errno)))
    ensures Relays.Apply(r, ConnectorTimer(timer, errno))
            == r.(connector := Attempts.Apply(r.connector, Attempts.TimerFires(timer, errno)))
  {
    hide Inv, Attempts.StartInLoop;
    StepKeepsRelay(r, ConnectorTimer(timer, errno));
    ConnectorIsKept(r);
  }

  lemma ExpireStep(r: Relay)
    requires Inv(r) && !r.over
    ensures Relays.Enabled(r, Expire) && Inv(Relays.Apply(r, Expire))
    ensures Relays.Apply(r, Expire) == ExpireSession(r) && !Live(ExpireSession(r).client)
    ensures Live(r.client) ==> Live(Connections.Shutdown(r.client)) && !Live(Destroy(Connections.Shutdown(r.client)))
    ensures r.upstream.Some? ==> Live(Connections.Shutdown(r.upstream.value))
    ensures Attempts.Inv(r.connector)
  {
    hide Inv;
    StepKeepsRelay(r, Expire);
    UpstreamIsLive(r);
    ConnectorIsKept(r);
  }

  lemma ConnectorIsKept(r: Relay)
    requires Inv(r) && !r.over
    ensures Attempts.Inv(r.connector)
  {
    hide ConnectionsOk, Drained, Conserved, Attempts.Inv, Upstreams;
  }

  lemma SendKeepsLive(c: Conn, message: seq<Byte>, nwrote: int)
    ensures Live(Connections.Send(c, message, nwrote)) <==> Live(c)
  {
  }

  lemma UpstreamIsLive(r: Relay)
    requires Inv(r)
    ensures r.upstream.Some? ==> Live(r.upstream.value)
    ensures !r.connecting ==> Attempts.Quiet(r.connector)
  {
    hide ConnInv, Attempts.Inv;
  }
}
