/** A connection to which other threads send.  send tests the state at once; the loop runs
    sendInLoop later, in whatever state the connection is then. */
module LateSends {
  import opened Buffers
  import opened Connections

  /** The connection, and the messages whose sendInLoop the loop has still to run. */
  datatype Sender = Sender(conn: Conn, queue: seq<seq<Byte>>)

  datatype Step =
    | Own(step: Connections.Step)
    | SendElsewhere(message: seq<Byte>)
    | RunQueued(nwrote: int)

  predicate Enabled(s: Sender, step: Step) {
    match step
    case Own(inner) => Connections.Enabled(s.conn, inner)
    case SendElsewhere(_) => true
    case RunQueued(nwrote) => s.queue != [] && -1 <= nwrote <= |s.queue[0]|
  }

  /** sendInLoop calls enableWriting. */
  predicate SwitchesOn(c: Conn, message: seq<Byte>, nwrote: int) {
    Direct(c, message, nwrote) < |message| && !c.writing
  }

  /** handleWrite calls disableWriting. */
  predicate SwitchesOff(c: Conn, n: int) {
    c.writing && 0 < n == |c.output|
  }

  /** A switch updates the channel, which the poller must still have. */
  predicate Safe(s: Sender, step: Step)
    requires Enabled(s, step)
  {
    match step
    case Own(inner) => inner.Writable? && SwitchesOff(s.conn, inner.n) ==> Live(s.conn)
    case SendElsewhere(_) => true
    case RunQueued(nwrote) => SwitchesOn(s.conn, s.queue[0], nwrote) ==> Live(s.conn)
  }

  function Apply(s: Sender, step: Step): Sender
    requires Enabled(s, step)
  {
    match step
    case Own(inner) => s.(conn := Connections.Apply(s.conn, inner))
    case SendElsewhere(message) => if s.conn.state.Connected? then s.(queue := s.queue + [message]) else s
    case RunQueued(nwrote) => Sender(SendInLoop(s.conn, s.queue[0], nwrote), s.queue[1..])
  }

  predicate IsRun(s: Sender, steps: seq<Step>)
    decreases |steps|
  {
    steps == [] || (Enabled(s, steps[0]) && IsRun(Apply(s, steps[0]), steps[1..]))
  }

  function Exec(s: Sender, steps: seq<Step>): Sender
    requires IsRun(s, steps)
    decreases |steps|
  {
    if steps == [] then s else Exec(Apply(s, steps[0]), steps[1..])
  }

  /** The stream keeps its promises in every state of the run, and no assertion of the poller
      fails. */
  predicate Kept(s: Sender, steps: seq<Step>)
    requires IsRun(s, steps)
    decreases |steps|
  {
    StreamHolds(s.conn) && (steps == [] || (Safe(s, steps[0]) && Kept(Apply(s, steps[0]), steps[1..])))
  }

  /** A queued message that is not empty is run before any half-close, and on a connection that
      is gone only if the kernel takes all of it at once. */
  predicate InTime(s: Sender, step: Step)
    requires Enabled(s, step)
  {
    step.RunQueued? ==>
      var message := s.queue[0];
      message == [] || (s.conn.shutAt == [] && (Live(s.conn) || Direct(s.conn, message, step.nwrote) == |message|))
  }

  predicate AllInTime(s: Sender, steps: seq<Step>)
    requires IsRun(s, steps)
    decreases |steps|
  {
    steps == [] || (InTime(s, steps[0]) && AllInTime(Apply(s, steps[0]), steps[1..]))
  }

  predicate Inv(s: Sender) {
    ConnInv(s.conn) && (s.queue != [] ==> !s.conn.state.Connecting?)
  }

  // ---------------------------------------------------------------- one queued send

  /** A sendInLoop that comes to run keeps the promises of the stream exactly when there is
      nothing to send or no half-close has happened. */
  lemma QueuedSendIff(c: Conn, message: seq<Byte>, nwrote: int)
    requires ConnInv(c) && !c.state.Connecting? && -1 <= nwrote <= |message|
    ensures StreamHolds(SendInLoop(c, message, nwrote)) <==> message == [] || c.shutAt == []
  {
    var n := Direct(c, message, nwrote);
    MessageSplits(c.output, c.written, message, n);
    var r := SendInLoop(c, message, nwrote);
    assert r.accepted == r.written + r.output;
    assert |r.accepted| == |c.accepted| + |message|;
    EmptySend(c, message, nwrote);
  }

  /** The poller still has the channel exactly when the connection is live or nothing of the
      message has to wait. */
  lemma QueuedSendAssertsIff(s: Sender, nwrote: int)
    requires Inv(s) && Enabled(s, RunQueued(nwrote))
    ensures Safe(s, RunQueued(nwrote)) <==> Live(s.conn) || Direct(s.conn, s.queue[0], nwrote) == |s.queue[0]|
  {
  }

  lemma EmptySend(c: Conn, message: seq<Byte>, nwrote: int)
    requires -1 <= nwrote <= |message|
    ensures message == [] ==> SendInLoop(c, message, nwrote) == c
  {
    if message == [] {
      assert c.accepted + [] == c.accepted && c.written + [] == c.written && c.output + [] == c.output;
      assert message[..0] == [] && message[0..] == [];
    }
  }

  /** Where both are kept, the whole invariant is. */
  lemma QueuedSendKeeps(s: Sender, nwrote: int)
    requires Inv(s) && Enabled(s, RunQueued(nwrote)) && InTime(s, RunQueued(nwrote))
    ensures Inv(Apply(s, RunQueued(nwrote)))
  {
    var c, message := s.conn, s.queue[0];
    MessageSplits(c.output, c.written, message, Direct(c, message, nwrote));
    EmptySend(c, message, nwrote);
    var r := SendInLoop(c, message, nwrote);
    assert r.accepted == r.written + r.output;
  }

  // ---------------------------------------------------------------- runs

  lemma OwnStepKeeps(s: Sender, step: Connections.Step)
    requires Inv(s) && Enabled(s, Own(step))
    ensures Inv(Apply(s, Own(step))) && Safe(s, Own(step))
  {
    Connections.StepKeepsInvariant(s.conn, step);
    StepAdvances(s.conn, step);
  }

  lemma StepKeptIff(s: Sender, step: Step)
    requires Inv(s) && Enabled(s, step)
    ensures InTime(s, step) ==> Safe(s, step) && Inv(Apply(s, step))
    ensures !InTime(s, step) ==> !Safe(s, step) || !StreamHolds(Apply(s, step).conn)
  {
    hide ConnInv, StreamHolds, SendInLoop;
    match step
    case Own(inner) => OwnStepKeeps(s, inner);
    case SendElsewhere(_) =>
    case RunQueued(nwrote) =>
      QueuedSendAssertsIff(s, nwrote);
      QueuedSendIff(s.conn, s.queue[0], nwrote);
      if InTime(s, step) {
        QueuedSendKeeps(s, nwrote);
        if s.queue[0] == [] { EmptyIsSafe(s, nwrote); }
      }
  }

  lemma EmptyIsSafe(s: Sender, nwrote: int)
    requires Enabled(s, RunQueued(nwrote)) && s.queue[0] == []
    ensures Safe(s, RunQueued(nwrote))
  {
  }

  lemma {:induction false} RunKeptIff(s: Sender, steps: seq<Step>)
    requires Inv(s) && IsRun(s, steps)
    ensures Kept(s, steps) <==> AllInTime(s, steps)
    decreases |steps|
  {
    hide ConnInv, StreamHolds, Enabled, Safe, Apply, InTime;
    InvMeans(s.conn);
    if steps != [] {
      StepKeptIff(s, steps[0]);
      var r := Apply(s, steps[0]);
      if InTime(s, steps[0]) {
        RunKeptIff(r, steps[1..]);
      } else if Safe(s, steps[0]) {
        StartsBroken(r, steps[1..]);
      }
    }
  }

  lemma StartsBroken(s: Sender, steps: seq<Step>)
    requires IsRun(s, steps) && !StreamHolds(s.conn)
    ensures !Kept(s, steps)
  {
  }

  /** Over every run with sends from any thread: the stream keeps its promises throughout and
      no assertion fails, exactly when every queued send runs in time. */
  lemma LateSendsIff(steps: seq<Step>)
    requires IsRun(Sender(NEW_CONN, []), steps)
    ensures Kept(Sender(NEW_CONN, []), steps) <==> AllInTime(Sender(NEW_CONN, []), steps)
  {
    NewConnInv();
    RunKeptIff(Sender(NEW_CONN, []), steps);
  }

  /** A connection that is neither shut down nor destroyed is always in time. */
  lemma {:induction false} OpenIsInTime(s: Sender, steps: seq<Step>)
    requires Inv(s) && (s.conn.state.Connecting? || s.conn.state.Connected?) && IsRun(s, steps)
    requires Own(ShutDown) !in steps && Own(Destroyed) !in steps
    ensures AllInTime(s, steps)
    decreases |steps|
  {
    hide ConnInv, SendInLoop;
    if steps != [] {
      assert steps[0] in steps && forall step :: step in steps[1..] ==> step in steps;
      OpenStep(s, steps[0]);
      StepKeptIff(s, steps[0]);
      OpenIsInTime(Apply(s, steps[0]), steps[1..]);
    }
  }

  lemma OpenStep(s: Sender, step: Step)
    requires Inv(s) && (s.conn.state.Connecting? || s.conn.state.Connected?) && Enabled(s, step)
    requires step != Own(ShutDown) && step != Own(Destroyed)
    ensures InTime(s, step)
    ensures Apply(s, step).conn.state.Connecting? || Apply(s, step).conn.state.Connected?
  {
  }

  // ---------------------------------------------------------------- the order of messages

  /** The messages that other threads sent while the connection was connected, in order. */
  function Queued(s: Sender, steps: seq<Step>): seq<seq<Byte>>
    requires IsRun(s, steps)
    decreases |steps|
  {
    if steps == [] then []
    else (if steps[0].SendElsewhere? && s.conn.state == Connected then [steps[0].message] else [])
         + Queued(Apply(s, steps[0]), steps[1..])
  }

  /** How many of them the loop has run. */
  function Count(steps: seq<Step>): nat {
    if steps == [] then 0 else (if steps[0].RunQueued? then 1 else 0) + Count(steps[1..])
  }

  lemma StepQueues(s: Sender, step: Step)
    requires Enabled(s, step)
    ensures var q := Apply(s, step);
            if step.RunQueued? then
              s.queue != [] && q.queue == s.queue[1..] && q.conn == SendInLoop(s.conn, s.queue[0], step.nwrote)
            else q.queue == s.queue + (if step.SendElsewhere? && s.conn.state == Connected then [step.message] else [])
  {
    assert s.queue + [] == s.queue;
  }

  lemma FirstGone(queue: seq<seq<Byte>>, rest: seq<seq<Byte>>, n: nat)
    requires queue != [] && n <= |queue[1..] + rest|
    ensures 1 + n <= |queue + rest| && (queue[1..] + rest)[n..] == (queue + rest)[1 + n..]
  {
    assert queue[1..] + rest == (queue + rest)[1..];
  }

  lemma Grouped(a: seq<seq<Byte>>, b: seq<seq<Byte>>, c: seq<seq<Byte>>)
    ensures (a + b) + c == a + (b + c) && a + [] == a && [] + a == a
  {
  }

  /** Queued messages wait and run in the order in which they were sent, none twice: what has
      not run yet is all that was queued but for as many first ones as were run. */
  lemma {:induction false} QueuedInOrder(s: Sender, steps: seq<Step>)
    requires IsRun(s, steps)
    ensures Count(steps) <= |s.queue + Queued(s, steps)|
    ensures Exec(s, steps).queue == (s.queue + Queued(s, steps))[Count(steps)..]
    decreases |steps|
  {
    hide Enabled, Apply;
    if steps == [] {
      Grouped(s.queue, [], []);
    } else {
      var q := Apply(s, steps[0]);
      var rest := Queued(q, steps[1..]);
      StepQueues(s, steps[0]);
      QueuedInOrder(q, steps[1..]);
      Grouped(rest, [], []);
      if steps[0].RunQueued? {
        FirstGone(s.queue, rest, Count(steps[1..]));
      } else {
        Grouped(s.queue, if steps[0].SendElsewhere? && s.conn.state == Connected then [steps[0].message] else [], rest);
      }
    }
  }

  // ---------------------------------------------------------------- a run that is late

  lemma GoesOn(s: Sender, step: Step, next: Sender, rest: seq<Step>)
    requires Enabled(s, step) && Apply(s, step) == next && IsRun(next, rest)
    ensures IsRun(s, [step] + rest) && Exec(s, [step] + rest) == Exec(next, rest)
  {
    hide Enabled, Apply;
    assert ([step] + rest)[0] == step && ([step] + rest)[1..] == rest;
  }

  /** For any byte: it is sent from another thread, the connection is shut down at once, and
      only then does the send run.  The byte is written after the half-close, and the
      connection is half-closed a second time. */
  lemma WrittenAfterHalfClose(b: Byte)
    ensures var steps := [Own(Established)] + ([SendElsewhere([b])] + ([Own(ShutDown)] + ([RunQueued(0)] + ([Own(Writable(1))] + []))));
            && IsRun(Sender(NEW_CONN, []), steps)
            && var r := Exec(Sender(NEW_CONN, []), steps).conn;
            r.written == [b] && r.shutAt == [0, 1] && !StreamHolds(r)
  {
    var s0 := Sender(NEW_CONN, []);
    var s1 := Sender(Establish(NEW_CONN), []);
    var s2 := s1.(queue := [[b]]);
    var s3 := Sender(Establish(NEW_CONN).(state := Disconnecting, shutAt := [0]), [[b]]);
    var s4 := Sender(s3.conn.(accepted := [b], output := [b], writing := true), []);
    var s5 := Sender(s4.conn.(written := [b], output := [], writing := false, shutAt := [0, 1]), []);
    assert [] + [[b]] == [[b]] && Apply(s1, SendElsewhere([b])) == s2;
    assert [] + [0] == [0] && Apply(s2, Own(ShutDown)) == s3;
    assert [b][..0] == [] && [b][0..] == [b] && [[b]][1..] == [] && [] + [b] == [b];
    assert Apply(s3, RunQueued(0)) == s4;
    assert [b][..1] == [b] && [b][1..] == [] && [0] + [1] == [0, 1];
    assert Apply(s4, Own(Writable(1))) == s5;
    assert IsRun(s5, []) && Exec(s5, []) == s5;
    GoesOn(s4, Own(Writable(1)), s5, []);
    GoesOn(s3, RunQueued(0), s4, [Own(Writable(1))] + []);
    GoesOn(s2, Own(ShutDown), s3, [RunQueued(0)] + ([Own(Writable(1))] + []));
    GoesOn(s1, SendElsewhere([b]), s2, [Own(ShutDown)] + ([RunQueued(0)] + ([Own(Writable(1))] + [])));
    GoesOn(s0, Own(Established), s1, [SendElsewhere([b])] + ([Own(ShutDown)] + ([RunQueued(0)] + ([Own(Writable(1))] + []))));
  }
}
