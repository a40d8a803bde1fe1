/** The class over its two buffers. */
module TcpConnections {
  import opened Buffers
  import opened Connections
  import opened Options

  /** What handleRead calls next: the message callback, handleClose or handleError. */
  datatype ReadOutcome = Message | Close | Error

  class TcpConnection {
    const inputBuffer: Buffer
    const outputBuffer: Buffer
    var state: Stage
    var reading: bool
    var writing: bool

    ghost var received: seq<Byte>
    ghost var accepted: seq<Byte>
    ghost var written: seq<Byte>
    ghost var shutAt: seq<nat>

    ghost function Footprint(): set<object>
      reads this, inputBuffer, outputBuffer
    {
      {this, inputBuffer, outputBuffer, inputBuffer.data, outputBuffer.data}
    }

    ghost predicate Separate()
      reads this, inputBuffer, outputBuffer
    {
      && inputBuffer != outputBuffer && inputBuffer.data != outputBuffer.data
      && inputBuffer.Valid() && outputBuffer.Valid()
    }

    ghost function Model(): Conn
      requires Separate()
      reads this, inputBuffer, outputBuffer, inputBuffer.data, outputBuffer.data
    {
      Conn(state, reading, writing, inputBuffer.Contents(), outputBuffer.Contents(), received, accepted, written, shutAt)
    }

    ghost predicate Valid()
      reads this, inputBuffer, outputBuffer, inputBuffer.data, outputBuffer.data
    {
      Separate() && ConnInv(Model())
    }

    constructor ()
      ensures Valid() && fresh(Footprint()) && Model() == NEW_CONN && state.Connecting?
    {
      hide ConnInv;
      NewConnInv();
      inputBuffer := new Buffer();
      outputBuffer := new Buffer();
      state, reading, writing := Connecting, false, false;
      received, accepted, written, shutAt := [], [], [], [];
    }

    method ConnectEstablished()
      requires Valid() && state.Connecting?
      modifies this
      ensures Valid() && Footprint() == old(Footprint()) && Model() == Establish(old(Model()))
    {
      hide ConnInv;
      StepKeepsInvariant(Model(), Established);
      assert state == Connecting;
      state := Connected;
      reading := true;
    }

    /** `nwrote` is what write would return, negative for an error.  On another thread the state
        is tested now, and the message is returned for the loop to run sendInLoop with. */
    method Send(message: seq<Byte>, nwrote: int, inLoopThread: bool) returns (queued: Option<seq<Byte>>)
      requires Valid() && -1 <= nwrote <= |message|
      modifies Footprint()
      ensures Valid() && fresh(Footprint() - old(Footprint()))
      ensures Model() == if inLoopThread then Connections.Send(old(Model()), message, nwrote) else old(Model())
      ensures queued == if !inLoopThread && state.Connected? then Some(message) else None
    {
      queued := None;
      if state.Connected? {
        if inLoopThread {
          SendInLoop(message, nwrote);
        } else {
          queued := Some(message);
        }
      }
    }

    /** In whatever state the connection is by then. */
    method SendInLoop(message: seq<Byte>, nwrote: int)
      requires Separate() && -1 <= nwrote <= |message|
      modifies Footprint()
      ensures Separate() && fresh(Footprint() - old(Footprint()))
      ensures Model() == Connections.SendInLoop(old(Model()), message, nwrote) && state == old(state)
      ensures old(Valid() && state.Connected?) ==> Valid()
    {
      hide ConnInv, Connections.SendInLoop;
      SendStays(Model(), message, nwrote);
      SendsParts(Model(), message, nwrote);
      var n := 0;
      if !writing && outputBuffer.ReadableBytes() == 0 {
        n := nwrote;
        if n < 0 {
          n := 0;
        }
      }
      assert n >= 0;
      accepted := accepted + message;
      written := written + message[..n];
      if n < |message| {
        outputBuffer.Append(message[n..]);
        if !writing {
          writing := true;
        }
      }
    }

    /** The socket takes bytes again; `n` is what write returns. */
    method HandleWrite(n: int)
      requires Valid() && -1 <= n <= |Model().output|
      modifies this, outputBuffer
      ensures Valid() && Footprint() == old(Footprint())
      ensures Model() == Connections.HandleWrite(old(Model()), n)
    {
      hide ConnInv;
      StepKeepsInvariant(Model(), Writable(n));
      if writing {
        if n > 0 {
          written := written + outputBuffer.Contents()[..n];
          outputBuffer.Retrieve(n);
          if outputBuffer.ReadableBytes() == 0 {
            writing := false;
            if state.Disconnecting? {
              ShutdownInLoop();
            }
          }
        }
      }
    }

    method ShutdownInLoop()
      modifies this`shutAt
      ensures shutAt == if writing then old(shutAt) else old(shutAt) + [|written|]
    {
      if !writing {
        shutAt := shutAt + [|written|];
      }
    }

    method Shutdown()
      requires Valid()
      modifies this
      ensures Valid() && Footprint() == old(Footprint())
      ensures Model() == Connections.Shutdown(old(Model()))
    {
      hide ConnInv;
      StepKeepsInvariant(Model(), ShutDown);
      if state.Connected? {
        state := Disconnecting;
        ShutdownInLoop();
      }
    }

    /** Like shutdown: reading is enabled as long as the connection is live, so that the
        other half of shutdownAllInLoop is never taken. */
    method ShutdownAll()
      requires Valid()
      modifies this
      ensures Valid() && Footprint() == old(Footprint())
      ensures Model() == Connections.Shutdown(old(Model()))
    {
      StepKeepsInvariant(Model(), ShutDown);
      if state.Connected? {
        state := Disconnecting;
        ShutdownInLoop();
        if !reading {
          assert false;
        }
      }
    }

    method HandleRead(read: ReadResult) returns (outcome: ReadOutcome)
      requires Valid() && Live(Model())
      requires read.Got? ==> |read.bytes| <= inputBuffer.WritableBytes() + EXTRA_SIZE
      modifies Footprint()
      ensures Valid() && fresh(Footprint() - old(Footprint()))
      ensures outcome == if read.Failed? then Error else if read.bytes == [] then Close else Message
      ensures Model() == if outcome.Message? then Receive(old(Model()), read.bytes) else old(Model())
    {
      hide ConnInv;
      if read.Got? {
        StepKeepsInvariant(Model(), Readable(read.bytes));
      }
      var n := inputBuffer.ReadFd(read);
      if n > 0 {
        received := received + read.bytes;
        outcome := Message;
      } else if n == 0 {
        assert inputBuffer.Contents() == old(inputBuffer.Contents());
        outcome := Close;
      } else {
        assert inputBuffer.Contents() == old(inputBuffer.Contents());
        outcome := Error;
      }
    }

    /** inputBuffer().retrieveAsString(). */
    method TakeInput() returns (message: seq<Byte>)
      requires Valid()
      modifies Footprint()
      ensures Valid() && Footprint() == old(Footprint())
      ensures message == old(Model()).input && Model() == Connections.TakeInput(old(Model()))
    {
      hide ConnInv;
      StepKeepsInvariant(Model(), InputTaken);
      message := inputBuffer.RetrieveAsString();
    }

    /** Channel::handleEvent with this connection's callbacks.  `n` is what write returns and
        `read` what readv does, if they are called. */
    method HandleEvent(e: Revents, n: int, read: ReadResult) returns (message: bool)
      requires Valid() && Live(Model()) && -1 <= n <= |Model().output|
      requires read.Got? ==> |read.bytes| <= inputBuffer.WritableBytes() + EXTRA_SIZE
      modifies Footprint()
      ensures Valid() && fresh(Footprint() - old(Footprint()))
      ensures Model() == Exec(old(Model()), Dispatch(e, n, read))
      ensures message <==> Reads(e) && read.Got? && read.bytes != []
    {
      hide ConnInv, Connections.HandleWrite, Receive, Destroy, Exec, Dispatch;
      message := false;
      DispatchLeads(Model(), e, n, read);
      if e.out {
        StaysLive(Model(), n);
        HandleWrite(n);
      }
      if Reads(e) {
        var outcome := HandleRead(read);
        match outcome {
          case Message => message := true;
          case Close => HandleClose();
          case Error =>
        }
        return;
      }
      if e.hup && !e.readable {
        HandleClose();
        return;
      }
    }

    /** handleClose and, through the close callback on the same loop, connectDestroyed. */
    method HandleClose()
      requires Valid() && Live(Model())
      modifies this
      ensures Valid() && Footprint() == old(Footprint())
      ensures Model() == Destroy(old(Model()))
    {
      hide ConnInv;
      StepKeepsInvariant(Model(), Destroyed);
      reading, writing := false, false;
      ConnectDestroyed();
    }

    method ConnectDestroyed()
      requires Separate() && Live(Model())
      modifies this
      ensures Separate() && Footprint() == old(Footprint())
      ensures Model() == Destroy(old(Model()))
    {
      assert state == Connected || state == Disconnecting;
      state := Disconnected;
      reading, writing := false, false;
    }
  }

  lemma SendStays(c: Conn, message: seq<Byte>, nwrote: int)
    requires -1 <= nwrote <= |message|
    ensures ConnInv(c) && c.state.Connected? ==> ConnInv(Connections.SendInLoop(c, message, nwrote))
  {
    if ConnInv(c) && c.state.Connected? {
      StepKeepsInvariant(c, Sent(message, nwrote));
    }
  }

  lemma SendsParts(c: Conn, message: seq<Byte>, nwrote: int)
    ensures var r := Connections.SendInLoop(c, message, nwrote); var n := Direct(c, message, nwrote);
            && r == c.(accepted := r.accepted, written := r.written, output := r.output, writing := r.writing)
            && r.accepted == c.accepted + message && r.written == c.written + message[..n]
            && r.output == c.output + message[n..] && r.writing == (c.writing || n < |message|)
            && (n == |message| ==> r.output == c.output)
  {
    var n := Direct(c, message, nwrote);
    if n == |message| { assert c.output + message[n..] == c.output; }
  }
}
