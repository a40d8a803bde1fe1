/** How a connection drives its channel: every switch of a connection is an update of the
    poller, and here they meet the poller's map over whole runs. */
module Switches {
  import opened Connections
  import Polling

  /** The event mask of the connection's channel. */
  function Events(c: Conn): Polling.Flags {
    (if c.reading then Polling.READ_EVENT else Polling.NONE_EVENT) |
    (if c.writing then Polling.WRITE_EVENT else Polling.NONE_EVENT)
  }

  /** The calls that a step makes of the poller, with the mask computed from the mask before.
      A close disables the channel in handleClose and again in connectDestroyed. */
  function Ops(c: Conn, fd: int, step: Step): seq<Polling.Op> {
    match step
    case Established => [Polling.Update(fd, Events(c) | Polling.READ_EVENT)]
    case Sent(message, nwrote) =>
      if c.state.Connected? && Direct(c, message, nwrote) < |message| && !c.writing
      then [Polling.Update(fd, Events(c) | Polling.WRITE_EVENT)] else []
    case Writable(n) =>
      if c.writing && n > 0 && n == |c.output|
      then [Polling.Update(fd, Events(c) & !Polling.WRITE_EVENT)] else []
    case Destroyed =>
      [Polling.Update(fd, Polling.NONE_EVENT), Polling.Update(fd, Polling.NONE_EVENT), Polling.Remove(fd)]
    case _ => []
  }

  function AllOps(c: Conn, fd: int, steps: seq<Step>): seq<Polling.Op>
    decreases |steps|
  {
    if steps == [] then [] else Ops(c, fd, steps[0]) + AllOps(Apply(c, steps[0]), fd, steps[1..])
  }

  /** The poller's map has the connection's slot, polled for what the connection wants, while
      it is live and at no other time. */
  predicate Tracks(v: Polling.View, fd: int, c: Conn) {
    if Live(c) then fd in v && v[fd] == Polling.Slot(Events(c), false) else fd !in v
  }

  ghost predicate SameElsewhere(v: Polling.View, w: Polling.View, fd: int) {
    forall g :: g != fd ==> (g in v <==> g in w) && (g in v ==> w[g] == v[g])
  }

  lemma {:induction false} AfterJoins(v: Polling.View, first: seq<Polling.Op>, second: seq<Polling.Op>)
    ensures Polling.AfterAll(v, first + second) == Polling.AfterAll(Polling.AfterAll(v, first), second)
    decreases |first|
  {
    if first == [] {
      assert first + second == second;
    } else {
      assert (first + second)[0] == first[0] && (first + second)[1..] == first[1..] + second;
      AfterJoins(Polling.After(v, first[0]), first[1..], second);
    }
  }

  lemma AfterOne(v: Polling.View, op: Polling.Op)
    ensures Polling.AfterAll(v, [op]) == Polling.After(v, op)
    ensures Polling.AfterAll(v, []) == v
  {
    assert [op][1..] == [];
  }

  lemma ThreeOps(v: Polling.View, a: Polling.Op, b: Polling.Op, c: Polling.Op)
    ensures Polling.AfterAll(v, [a, b, c]) == Polling.After(Polling.After(Polling.After(v, a), b), c)
  {
    assert [a, b, c][1..] == [b, c] && [b, c][1..] == [c];
    AfterOne(Polling.After(Polling.After(v, a), b), c);
  }

  /** When the channel is removed its slot is parked and asks for nothing, as removeChannel
      asserts. */
  lemma RemovedWhenParked(v: Polling.View, fd: int, c: Conn)
    requires Tracks(v, fd, c) && Live(c)
    ensures var w := Polling.After(Polling.After(v, Polling.Update(fd, Polling.NONE_EVENT)), Polling.Update(fd, Polling.NONE_EVENT));
            fd in w && w[fd] == Polling.Slot(Polling.NONE_EVENT, true)
  {
  }

  lemma StepTracks(v: Polling.View, fd: int, c: Conn, step: Step)
    requires ConnInv(c) && Tracks(v, fd, c) && Enabled(c, step)
    ensures Tracks(Polling.AfterAll(v, Ops(c, fd, step)), fd, Apply(c, step))
    ensures SameElsewhere(v, Polling.AfterAll(v, Ops(c, fd, step)), fd)
  {
    var ops := Ops(c, fd, step);
    if step.Destroyed? {
      ThreeOps(v, ops[0], ops[1], ops[2]);
    } else if ops == [] {
      SameMask(c, step);
    } else {
      AfterOne(v, ops[0]);
      assert ops == [ops[0]];
    }
  }

  /** A step that leaves the poller alone leaves the switches alone. */
  lemma SameMask(c: Conn, step: Step)
    requires ConnInv(c) && Enabled(c, step) && Ops(c, 0, step) == []
    ensures Live(Apply(c, step)) <==> Live(c)
    ensures Events(Apply(c, step)) == Events(c)
  {
  }

  lemma {:induction false} RunTracks(v: Polling.View, fd: int, c: Conn, steps: seq<Step>)
    requires ConnInv(c) && Tracks(v, fd, c) && IsRun(c, steps)
    ensures Tracks(Polling.AfterAll(v, AllOps(c, fd, steps)), fd, Exec(c, steps))
    ensures SameElsewhere(v, Polling.AfterAll(v, AllOps(c, fd, steps)), fd)
    decreases |steps|
  {
    hide ConnInv, Tracks, Enabled, Apply, Ops;
    if steps == [] {
      assert Polling.AfterAll(v, []) == v;
    } else {
      var w := Polling.AfterAll(v, Ops(c, fd, steps[0]));
      StepKeepsInvariant(c, steps[0]);
      StepTracks(v, fd, c, steps[0]);
      RunTracks(w, fd, Apply(c, steps[0]), steps[1..]);
      AfterJoins(v, Ops(c, fd, steps[0]), AllOps(Apply(c, steps[0]), fd, steps[1..]));
    }
  }

  /** In every run of a connection, whatever else the poller has: while the connection is live
      its slot is not parked and asks to read, and to write exactly when output waits; before
      and after, the poller knows nothing of its descriptor. */
  lemma LiveConnectionIsPolled(v: Polling.View, fd: int, steps: seq<Step>)
    requires fd !in v && IsRun(NEW_CONN, steps)
    ensures var w := Polling.AfterAll(v, AllOps(NEW_CONN, fd, steps));
            var c := Exec(NEW_CONN, steps);
            && (if Live(c) then
                  && fd in w && !w[fd].parked
                  && w[fd].events & Polling.POLLIN != 0 && w[fd].events & Polling.POLLPRI != 0
                  && (w[fd].events & Polling.POLLOUT != 0 <==> c.output != [])
                else fd !in w)
            && SameElsewhere(v, w, fd)
  {
    hide IsRun, Exec, AllOps;
    NewConnInv();
    RunTracks(v, fd, NEW_CONN, steps);
    RunKeepsInvariant(NEW_CONN, steps);
    if Live(Exec(NEW_CONN, steps)) { MaskOfLive(Exec(NEW_CONN, steps)); }
  }

  lemma MaskOfLive(c: Conn)
    requires ConnInv(c) && Live(c)
    ensures Events(c) & Polling.POLLIN != 0 && Events(c) & Polling.POLLPRI != 0
    ensures Events(c) & Polling.POLLOUT != 0 <==> c.output != []
  {
  }
}
