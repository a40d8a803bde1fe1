/** One TCP connection as a byte stream in each direction, and every step it can take.

    All steps run on the connection's own loop.  What the kernel answers to a read or a
    write is part of the step. */
module Connections {
  import opened Buffers

  datatype Stage = Connecting | Connected | Disconnecting | Disconnected

  function Rank(stage: Stage): nat {
    match stage
    case Connecting => 0
    case Connected => 1
    case Disconnecting => 2
    case Disconnected => 3
  }

  /** The fields of a connection and four histories: the bytes read from the socket, the
      bytes accepted by send, the bytes written to the socket, and how many bytes had been
      written at each call of shutdownWrite. */
  datatype Conn = Conn(
    state: Stage,
    reading: bool,
    writing: bool,
    input: seq<Byte>,
    output: seq<Byte>,
    received: seq<Byte>,
    accepted: seq<Byte>,
    written: seq<Byte>,
    shutAt: seq<nat>)

  const NEW_CONN := Conn(Connecting, false, false, [], [], [], [], [], [])

  /** Set up and not yet destroyed. */
  predicate Live(c: Conn) {
    c.state.Connected? || c.state.Disconnecting?
  }

  // ---------------------------------------------------------------- operations

  function Establish(c: Conn): Conn {
    c.(state := Connected, reading := true)
  }

  /** What a direct write takes of a message; it is tried only when nothing waits. */
  function Direct(c: Conn, message: seq<Byte>, nwrote: int): nat {
    if !c.writing && c.output == [] && 0 <= nwrote <= |message| then nwrote else 0
  }

  function SendInLoop(c: Conn, message: seq<Byte>, nwrote: int): Conn {
    var n := Direct(c, message, nwrote);
    c.(accepted := c.accepted + message,
    written := c.written + message[..n],
    output := c.output + message[n..],
    writing := c.writing || n < |message|)
  }

  function Send(c: Conn, message: seq<Byte>, nwrote: int): Conn {
    if c.state.Connected? then SendInLoop(c, message, nwrote) else c
  }

  function ShutdownWrite(c: Conn): Conn {
    if c.writing then c else c.(shutAt := c.shutAt + [|c.written|])
  }

  /** shutdown, and shutdownAll: a live connection is always reading, so that the latter
      never gets to shut down the reading side. */
  function Shutdown(c: Conn): Conn {
    if c.state.Connected? then ShutdownWrite(c.(state := Disconnecting)) else c
  }

  function HandleWrite(c: Conn, n: int): Conn {
    if c.writing && 0 < n <= |c.output| then
      var d := c.(written := c.written + c.output[..n], output := c.output[n..]);
      if d.output == [] then
        var e := d.(writing := false);
        if e.state.Disconnecting? then ShutdownWrite(e) else e
      else d
    else c
  }

  function Receive(c: Conn, bytes: seq<Byte>): Conn {
    c.(input := c.input + bytes, received := c.received + bytes)
  }

  function TakeInput(c: Conn): Conn {
    c.(input := [])
  }

  function DisableAll(c: Conn): Conn {
    c.(reading := false, writing := false)
  }

  function Destroy(c: Conn): Conn {
    DisableAll(c).(state := Disconnected)
  }

  // ---------------------------------------------------------------- steps

  datatype Step =
    | Established
    | Sent(message: seq<Byte>, nwrote: int)
    | Writable(n: int)
    | Readable(bytes: seq<Byte>)
    | InputTaken
    | ShutDown
    | Destroyed

  predicate Enabled(c: Conn, step: Step) {
    match step
    case Established => c.state.Connecting?
    case Sent(message, nwrote) => -1 <= nwrote <= |message|
    case Writable(n) => -1 <= n <= |c.output|
    case Readable(_) => Live(c)
    case InputTaken => true
    case ShutDown => true
    case Destroyed => Live(c)
  }

  function Apply(c: Conn, step: Step): Conn {
    match step
    case Established => Establish(c)
    case Sent(message, nwrote) => Send(c, message, nwrote)
    case Writable(n) => HandleWrite(c, n)
    case Readable(bytes) => Receive(c, bytes)
    case InputTaken => TakeInput(c)
    case ShutDown => Shutdown(c)
    case Destroyed => Destroy(c)
  }

  predicate IsRun(c: Conn, steps: seq<Step>)
    decreases |steps|
  {
    steps == [] || (Enabled(c, steps[0]) && IsRun(Apply(c, steps[0]), steps[1..]))
  }

  function Exec(c: Conn, steps: seq<Step>): Conn
    decreases |steps|
  {
    if steps == [] then c else Exec(Apply(c, steps[0]), steps[1..])
  }

  // ---------------------------------------------------------------- the invariant

  /** Everything accepted was written or waits, in order; a live connection asks to write
      exactly when something waits, and is half-closed exactly when it is disconnecting and
      nothing waits, with everything accepted written by then. */
  predicate ConnInv(c: Conn) {
    && c.accepted == c.written + c.output
    && |c.input| <= |c.received| && c.input == c.received[|c.received| - |c.input|..]
    && (if Live(c) then c.reading && (c.writing <==> c.output != []) else !c.reading && !c.writing)
    && (c.state.Connecting? ==> c.accepted == [] && c.received == [])
    && (c.shutAt == [] || (c.shutAt == [|c.accepted|] && c.output == []))
    && (Rank(c.state) < Rank(Disconnecting) ==> c.shutAt == [])
    && (c.state.Disconnecting? ==> (c.shutAt == [] <==> c.output != []))
  }

  lemma NewConnInv()
    ensures ConnInv(NEW_CONN)
  {
  }

  lemma StepKeepsInvariant(c: Conn, step: Step)
    requires ConnInv(c) && Enabled(c, step)
    ensures ConnInv(Apply(c, step))
  {
    match step
    case Sent(message, nwrote) => SendKeeps(c, message, nwrote);
    case Writable(n) => WriteKeeps(c, n);
    case _ =>
  }

  /** Writing the first n bytes of a message and queueing the rest keeps the order,
      provided that a direct write happens only when nothing waits. */
  lemma MessageSplits(waiting: seq<Byte>, written: seq<Byte>, message: seq<Byte>, n: nat)
    requires n <= |message| && (n > 0 ==> waiting == [])
    ensures (written + waiting) + message == (written + message[..n]) + (waiting + message[n..])
    ensures waiting + message[n..] == [] <==> waiting == [] && n == |message|
  {
    var l := (written + waiting) + message;
    var r := (written + message[..n]) + (waiting + message[n..]);
    assert |l| == |r|;
    if n == 0 {
      assert message[..0] == [] && message[0..] == message;
    } else {
      assert message == message[..n] + message[n..];
    }
  }

  lemma OutputSplits(written: seq<Byte>, waiting: seq<Byte>, n: nat)
    requires n <= |waiting|
    ensures written + waiting == (written + waiting[..n]) + waiting[n..]
    ensures waiting[n..] == [] ==> written + waiting[..n] == written + waiting
  {
    assert waiting == waiting[..n] + waiting[n..];
  }

  lemma SendKeeps(c: Conn, message: seq<Byte>, nwrote: int)
    requires ConnInv(c) && -1 <= nwrote <= |message|
    ensures ConnInv(Send(c, message, nwrote))
  {
    if c.state.Connected? {
      var n := Direct(c, message, nwrote);
      MessageSplits(c.output, c.written, message, n);
      var accepted, written, output := c.accepted + message, c.written + message[..n], c.output + message[n..];
      assert accepted == written + output;
      assert Send(c, message, nwrote) == c.(accepted := accepted, written := written, output := output,
      writing := c.writing || n < |message|);
    }
  }

  lemma WriteKeeps(c: Conn, n: int)
    requires ConnInv(c) && -1 <= n <= |c.output|
    ensures ConnInv(HandleWrite(c, n))
  {
    if c.writing && n > 0 {
      OutputSplits(c.written, c.output, n);
    }
  }

  lemma {:induction false} RunKeepsInvariant(c: Conn, steps: seq<Step>)
    requires ConnInv(c) && IsRun(c, steps)
    ensures ConnInv(Exec(c, steps))
    decreases |steps|
  {
    if steps != [] {
      StepKeepsInvariant(c, steps[0]);
      RunKeepsInvariant(Apply(c, steps[0]), steps[1..]);
    }
  }

  // ---------------------------------------------------------------- whole runs

  /** What a stream promises: the written bytes are a prefix of the accepted ones and the rest
      waits in order; writing is enabled iff something waits; shutdownWrite is called at most
      once, after the last accepted byte was written. */
  predicate StreamHolds(c: Conn) {
    && c.written + c.output == c.accepted
    && (Live(c) ==> (c.writing <==> c.output != []))
    && |c.shutAt| <= 1
    && (c.shutAt != [] ==> c.shutAt[0] == |c.accepted| == |c.written|)
  }

  /** It holds whatever the kernel answers. */
  lemma StreamIsKept(steps: seq<Step>)
    requires IsRun(NEW_CONN, steps)
    ensures StreamHolds(Exec(NEW_CONN, steps))
  {
    hide ConnInv, StreamHolds, Exec, IsRun;
    NewConnInv();
    RunKeepsInvariant(NEW_CONN, steps);
    InvMeans(Exec(NEW_CONN, steps));
  }

  lemma InvMeans(c: Conn)
    requires ConnInv(c)
    ensures StreamHolds(c)
  {
    assert |c.accepted| == |c.written| + |c.output|;
  }

  /** After shutdownWrite nothing is accepted or written any more. */
  lemma {:induction false} NothingAfterShutdown(c: Conn, steps: seq<Step>)
    requires ConnInv(c) && c.shutAt != [] && IsRun(c, steps)
    ensures var r := Exec(c, steps);
            r.written == c.written && r.accepted == c.accepted && r.shutAt == c.shutAt
    decreases |steps|
  {
    if steps != [] {
      StepKeepsInvariant(c, steps[0]);
      NothingAfterShutdown(Apply(c, steps[0]), steps[1..]);
    }
  }

  /** A connection that was shut down is half-closed as soon as nothing waits. */
  lemma ShutdownTakesEffect(c: Conn, steps: seq<Step>)
    requires ConnInv(c) && c.state.Connected? && IsRun(Shutdown(c), steps)
    ensures var r := Exec(Shutdown(c), steps);
            Live(r) ==> (r.shutAt == [|r.written|] <==> r.output == [])
  {
    StepKeepsInvariant(c, ShutDown);
    RunKeepsInvariant(Shutdown(c), steps);
    StagesOnlyAdvance(Shutdown(c), steps);
    var r := Exec(Shutdown(c), steps);
    if r.output == [] { assert r.written == r.accepted; }
  }

  function CountDestroyed(steps: seq<Step>): nat {
    if steps == [] then 0 else (if steps[0].Destroyed? then 1 else 0) + CountDestroyed(steps[1..])
  }

  /** States only move forward, and a connection is destroyed at most once. */
  lemma {:induction false} StagesOnlyAdvance(c: Conn, steps: seq<Step>)
    requires IsRun(c, steps)
    ensures Rank(c.state) <= Rank(Exec(c, steps).state)
    ensures CountDestroyed(steps) <= 1 && (c.state.Disconnected? ==> CountDestroyed(steps) == 0)
    ensures c.state.Disconnected? ==> Exec(c, steps).state.Disconnected?
    decreases |steps|
  {
    if steps != [] {
      StagesOnlyAdvance(Apply(c, steps[0]), steps[1..]);
    }
  }

  // ---------------------------------------------------------------- one write

  /** send, by what write answers.  It is asked only when nothing waits; what it takes is
      written and the rest waits.  An error takes nothing.  Unless connected, nothing happens. */
  lemma SendOutcome(c: Conn, message: seq<Byte>, nwrote: int)
    requires -1 <= nwrote <= |message|
    ensures var r := Send(c, message, nwrote);
            && r == c.(accepted := r.accepted, written := r.written, output := r.output, writing := r.writing)
            && (!c.state.Connected? ==> r == c)
            && (c.state.Connected? ==> r.accepted == c.accepted + message)
            && (c.state.Connected? && !c.writing && c.output == [] && nwrote >= 0 ==>
                  && r.written == c.written + message[..nwrote] && r.output == message[nwrote..]
                  && (r.writing <==> nwrote < |message|))
            && (c.state.Connected? && !c.writing && c.output == [] && nwrote < 0 ==>
                  r.written == c.written && r.output == message && (r.writing <==> message != []))
            && (c.state.Connected? && (c.writing || c.output != []) ==>
                  r.written == c.written && r.output == c.output + message && (c.writing ==> r.writing))
  {
    assert c.written + [] == c.written && message[..0] == [] && message[0..] == message;
    assert c.output == [] ==> c.output + message == message;
  }

  /** handleWrite, by what write answers: exactly the bytes taken move, also when they are only
      some of those that wait. */
  lemma WriteOutcome(c: Conn, n: int)
    requires -1 <= n <= |c.output|
    ensures var r := HandleWrite(c, n);
            if c.writing && n > 0 then
              && r.written == c.written + c.output[..n] && r.output == c.output[n..] && |r.output| == |c.output| - n
              && (r.writing <==> n < |c.output|)
              && r.shutAt == (if c.state.Disconnecting? && n == |c.output| then c.shutAt + [|c.written| + n] else c.shutAt)
              && r == c.(written := r.written, output := r.output, writing := r.writing, shutAt := r.shutAt)
            else r == c
  {
  }

  // ---------------------------------------------------------------- dispatch

  /** What poll reports. */
  datatype Revents = Revents(nval: bool, err: bool, hup: bool, out: bool, readable: bool, pri: bool, rdhup: bool)

  predicate Reads(e: Revents) {
    e.readable || e.pri || e.rdhup
  }

  function ReadSteps(read: ReadResult): seq<Step> {
    match read
    case Failed => []
    case Got(bytes) => if bytes == [] then [Destroyed] else [Readable(bytes)]
  }

  /** The steps that one Channel::handleEvent makes of a connection; errors are only logged. */
  function Dispatch(e: Revents, n: int, read: ReadResult): seq<Step> {
    (if e.out then [Writable(n)] else []) +
    (if Reads(e) then ReadSteps(read) else if e.hup then [Destroyed] else [])
  }

  lemma ExecFirst(c: Conn, step: Step, rest: seq<Step>)
    ensures Exec(c, [step] + rest) == Exec(Apply(c, step), rest)
    ensures IsRun(c, [step] + rest) <==> Enabled(c, step) && IsRun(Apply(c, step), rest)
    ensures Exec(c, [step]) == Apply(c, step) && (IsRun(c, [step]) <==> Enabled(c, step))
  {
    hide Apply, Enabled;
    assert ([step] + rest)[1..] == rest && [step][1..] == [];
    assert Exec(Apply(c, step), []) == Apply(c, step) && IsRun(Apply(c, step), []);
  }

  /** Where one dispatch leads. */
  lemma DispatchLeads(c: Conn, e: Revents, n: int, read: ReadResult)
    ensures var d := if e.out then HandleWrite(c, n) else c;
            Exec(c, Dispatch(e, n, read)) ==
            (if Reads(e) then
               if read.Failed? then d else if read.bytes == [] then Destroy(d) else Receive(d, read.bytes)
             else if e.hup then Destroy(d) else d)
    ensures Live(c) && -1 <= n <= |c.output| ==> IsRun(c, Dispatch(e, n, read))
  {
    hide HandleWrite, Receive, Destroy;
    var d := if e.out then HandleWrite(c, n) else c;
    var second := if Reads(e) then ReadSteps(read) else if e.hup then [Destroyed] else [];
    if e.out {
      ExecFirst(c, Writable(n), second);
      StaysLive(c, n);
    } else {
      assert [] + second == second;
    }
    if second != [] {
      ExecFirst(d, second[0], []);
    }
  }

  lemma StaysLive(c: Conn, n: int)
    ensures Live(HandleWrite(c, n)) <==> Live(c)
  {
  }

  /** One dispatch on a live connection is a run: it never reads from, writes to or destroys
      a connection that it has already destroyed.  It destroys it iff the read finds the end
      of the stream, or the peer hung up and there was nothing to read. */
  lemma DispatchIsRun(c: Conn, e: Revents, n: int, read: ReadResult)
    requires ConnInv(c) && Live(c) && -1 <= n <= |c.output|
    ensures IsRun(c, Dispatch(e, n, read)) && ConnInv(Exec(c, Dispatch(e, n, read)))
    ensures Live(Exec(c, Dispatch(e, n, read))) <==> !(if Reads(e) then read == Got([]) else e.hup)
  {
    hide ConnInv, HandleWrite, Dispatch, IsRun, Exec;
    DispatchLeads(c, e, n, read);
    StaysLive(c, n);
    RunKeepsInvariant(c, Dispatch(e, n, read));
  }

  /** Flag by flag, for a live connection.  Room to write comes first.  Ordinary data, urgent
      data and a peer that stopped sending each cause a read, whatever else is set; without any
      of them nothing is read, and the connection is destroyed iff the peer hung up. */
  lemma DispatchByFlags(c: Conn, e: Revents, n: int, read: ReadResult)
    requires Live(c) && -1 <= n <= |c.output|
    ensures var d := if e.out then HandleWrite(c, n) else c;
            var r := Exec(c, Dispatch(e, n, read));
            && (e.readable && read.Got? && read.bytes != [] ==> r == Receive(d, read.bytes))
            && (e.pri && read.Got? && read.bytes != [] ==> r == Receive(d, read.bytes))
            && (e.rdhup && read.Got? && read.bytes != [] ==> r == Receive(d, read.bytes))
            && ((e.readable || e.pri || e.rdhup) && read == Got([]) ==> r == Destroy(d))
            && ((e.readable || e.pri || e.rdhup) && read.Failed? ==> r == d)
            && (!e.readable && !e.pri && !e.rdhup ==> r == (if e.hup then Destroy(d) else d))
            && (!e.readable && !e.pri && !e.rdhup ==> r.received == c.received)
  {
    DispatchLeads(c, e, n, read);
    hide Exec, Dispatch;
  }

  // ---------------------------------------------------------------- the public enableWriting

  /** Connected and asking to write although nothing waits; else as it should be. */
  predicate Idling(c: Conn) {
    c.state.Connected? && c.writing && c.output == [] && ConnInv(c.(writing := false))
  }

  lemma IdlingStep(c: Conn, step: Step)
    requires (ConnInv(c) && c.state.Connected?) || Idling(c)
    requires Enabled(c, step) && Apply(c, step).state.Connected?
    ensures ConnInv(Apply(c, step)) || Idling(Apply(c, step))
  {
    if ConnInv(c) {
      StepKeepsInvariant(c, step);
    } else if step.Sent? {
      assert step.message[..0] == [] && step.message[0..] == step.message;
      assert [] + step.message == step.message && c.written + [] == c.written;
    }
  }

  /** Only a message that has to wait ends it. */
  lemma {:induction false} IdlingRun(c: Conn, steps: seq<Step>)
    requires (ConnInv(c) && c.state.Connected?) || Idling(c)
    requires IsRun(c, steps) && Exec(c, steps).state.Connected?
    ensures ConnInv(Exec(c, steps)) || Idling(Exec(c, steps))
    decreases |steps|
  {
    hide ConnInv, Enabled, Apply;
    if steps != [] {
      var d := Apply(c, steps[0]);
      StagesOnlyAdvance(d, steps[1..]);
      StepAdvances(c, steps[0]);
      IdlingStep(c, steps[0]);
      IdlingRun(d, steps[1..]);
    }
  }

  lemma StepAdvances(c: Conn, step: Step)
    requires Enabled(c, step)
    ensures Rank(c.state) <= Rank(Apply(c, step).state)
    ensures c.state.Connected? && Rank(Apply(c, step).state) <= Rank(Connected) ==> Apply(c, step).state.Connected?
  {
  }

  /** Shut down with nothing left to write but writing on: the half-close was put off to a
      drain that never comes. */
  predicate HalfCloseLost(c: Conn) {
    c.shutAt == [] && c.output == [] && (c.state.Disconnected? || (c.state.Disconnecting? && c.writing))
  }

  lemma {:induction false} LostForGood(c: Conn, steps: seq<Step>)
    requires HalfCloseLost(c) && IsRun(c, steps)
    ensures HalfCloseLost(Exec(c, steps))
    decreases |steps|
  {
    if steps != [] {
      LostForGood(Apply(c, steps[0]), steps[1..]);
    }
  }

  /** The public enableWriting on a connected connection, then anything, then shutdown, then
      anything.  If at the shutdown writing is on with nothing to write, the half-close never
      comes, whatever happens; otherwise it comes as soon as nothing waits. */
  lemma EnableWritingLosesShutdown(c: Conn, before: seq<Step>, after: seq<Step>)
    requires ConnInv(c) && c.state.Connected?
    requires IsRun(c.(writing := true), before) && Exec(c.(writing := true), before).state.Connected?
    requires IsRun(Shutdown(Exec(c.(writing := true), before)), after)
    ensures var d := Exec(c.(writing := true), before);
            var r := Exec(Shutdown(d), after);
            if d.writing && d.output == [] then r.shutAt == []
            else Live(r) ==> (r.shutAt == [|r.written|] <==> r.output == [])
  {
    var e := c.(writing := true);
    hide IsRun, Exec;
    if c.output != [] {
      assert e == c;
    }
    IdlingRun(e, before);
    var d := Exec(e, before);
    if d.writing && d.output == [] {
      LostForGood(Shutdown(d), after);
    } else {
      ShutdownTakesEffect(d, after);
    }
  }

  /** Enabled right before the shutdown, it suppresses the half-close in every run exactly
      when nothing waited to be written. */
  lemma EnableWritingIff(c: Conn)
    requires ConnInv(c) && c.state.Connected?
    ensures (forall after :: IsRun(Shutdown(c.(writing := true)), after) ==> Exec(Shutdown(c.(writing := true)), after).shutAt == [])
       <==> c.output == []
  {
    var e := c.(writing := true);
    var s := Shutdown(e);
    if c.output == [] {
      forall after | IsRun(s, after) ensures Exec(s, after).shutAt == [] {
        LostForGood(s, after);
      }
    } else {
      var drain := Writable(|c.output|);
      ExecFirst(s, drain, []);
      assert IsRun(s, [drain]) && Exec(s, [drain]).shutAt != [];
    }
  }
}
