/** The connector: one attempt after another until a socket is connected and handed over.

    A descriptor number can be reused once it is closed, so sockets are named by the order
    of their creation. */
module Attempts {
  import opened Options

  type Socket = nat

  datatype Stage = Disconnected | Connecting | Connected

  /** What connect(2) leaves in errno, zero for success. */
  datatype Errno =
    | Zero | EINPROGRESS | EINTR | EISCONN
    | EAGAIN | EADDRINUSE | EADDRNOTAVAIL | ECONNREFUSED | ENETUNREACH
    | EACCES | EPERM | EAFNOSUPPORT | EALREADY | EBADF | EFAULT | ENOTSOCK | Other

  predicate UnderWay(errno: Errno) {
    errno.Zero? || errno.EINPROGRESS? || errno.EINTR? || errno.EISCONN?
  }

  predicate Retryable(errno: Errno) {
    errno.EAGAIN? || errno.EADDRINUSE? || errno.EADDRNOTAVAIL? || errno.ECONNREFUSED? || errno.ENETUNREACH?
  }

  const INIT_RETRY_DELAY_MS := 500
  const MAX_RETRY_DELAY_MS := 30000

  /** The fields, the loop's side (sockets with a registered channel, retry timers set and
      not yet fired) and histories: how many sockets were created, which were closed, which
      were handed to the new-connection callback. */
  datatype State = State(
    connect: bool,
    stage: Stage,
    channel: Option<Socket>,
    retryDelayMs: nat,
    timerId: nat,
    registered: set<Socket>,
    timers: set<nat>,
    lastTimer: nat,
    created: nat,
    closed: seq<Socket>,
    handed: seq<Socket>)

  const INIT := State(false, Disconnected, None, INIT_RETRY_DELAY_MS, 0, {}, {}, 0, 0, [], [])

  // ---------------------------------------------------------------- operations

  function Retry(s: State, socket: Socket): State {
    var r := s.(closed := s.closed + [socket], stage := Disconnected);
    if s.connect then
      r.(lastTimer := s.lastTimer + 1, timerId := s.lastTimer + 1, timers := s.timers + {s.lastTimer + 1},
      retryDelayMs := if s.retryDelayMs * 2 < MAX_RETRY_DELAY_MS then s.retryDelayMs * 2 else MAX_RETRY_DELAY_MS)
    else r
  }

  /** One attempt.  `connecting` replaces the channel, whatever became of the last one. */
  function Attempt(s: State, errno: Errno): State {
    var socket := s.created + 1;
    var r := s.(created := socket);
    if UnderWay(errno) then
      r.(stage := Connecting, channel := Some(socket), registered := s.registered + {socket})
    else if Retryable(errno) then Retry(r, socket)
    else r.(closed := s.closed + [socket])
  }

  function StartInLoop(s: State, errno: Errno): State {
    if s.connect then Attempt(s, errno) else s
  }

  function Unregister(s: State): State
    requires s.channel.Some?
  {
    s.(registered := s.registered - {s.channel.value})
  }

  function HandleError(s: State): State
    requires s.channel.Some?
  {
    Retry(Unregister(s), s.channel.value)
  }

  /** `failed` covers a pending socket error and a connection of the socket to itself. */
  function HandleWrite(s: State, failed: bool): State
    requires s.stage.Connecting? ==> s.channel.Some?
  {
    if s.stage.Connecting? then
      var socket := s.channel.value;
      var r := Unregister(s);
      var q := if failed then Retry(r, socket)
               else if s.connect then r.(stage := Connected, handed := s.handed + [socket])
               else r.(stage := Connected, closed := s.closed + [socket]);
      q.(channel := None)
    else s
  }

  /** Channel::handleEvent: the error callback first, then the write callback. */
  function Dispatch(s: State, error: bool, writable: bool, failed: bool): State
    requires s.channel.Some?
  {
    var r := if error then HandleError(s) else s;
    if writable then HandleWrite(r, failed) else r
  }

  function Stop(s: State): State {
    s.(connect := false, timers := s.timers - {s.timerId})
  }

  function Delete(s: State): State {
    var r := s.(timers := s.timers - {s.timerId});
    if s.stage.Connecting? && s.channel.Some? then Unregister(r) else r
  }

  // ---------------------------------------------------------------- steps

  datatype Step =
    | Start(errno: Errno)
    | Restart(errno: Errno)
    | StopIt
    | TimerFires(timer: nat, errno: Errno)
    | Event(error: bool, writable: bool, failed: bool)

  /** Nothing is under way: no socket is waiting for its connection, no timer is set. */
  predicate Quiet(s: State) {
    s.registered == {} && s.timers == {}
  }

  /** An attempt may be started only when nothing is under way; an event is delivered only
      for a registered channel and carries an error or room to write. */
  predicate Enabled(s: State, step: Step) {
    match step
    case Start(_) => Quiet(s)
    case Restart(_) => Quiet(s)
    case StopIt => true
    case TimerFires(timer, _) => timer in s.timers
    case Event(error, writable, _) => s.channel.Some? && s.channel.value in s.registered && (error || writable)
  }

  function Apply(s: State, step: Step): State
    requires Enabled(s, step)
  {
    match step
    case Start(errno) => StartInLoop(s.(connect := true), errno)
    case Restart(errno) =>
      StartInLoop(s.(stage := Disconnected, retryDelayMs := INIT_RETRY_DELAY_MS, connect := true), errno)
    case StopIt => Stop(s)
    case TimerFires(timer, errno) => StartInLoop(s.(timers := s.timers - {timer}), errno)
    case Event(error, writable, failed) => Dispatch(s, error, writable, failed)
  }

  predicate IsRun(s: State, steps: seq<Step>)
    decreases |steps|
  {
    steps == [] || (Enabled(s, steps[0]) && IsRun(Apply(s, steps[0]), steps[1..]))
  }

  function Exec(s: State, steps: seq<Step>): State
    requires IsRun(s, steps)
    decreases |steps|
  {
    if steps == [] then s else Exec(Apply(s, steps[0]), steps[1..])
  }

  // ---------------------------------------------------------------- the invariant

  function Times(socket: Socket, sockets: seq<Socket>): nat {
    multiset(sockets)[socket]
  }

  function Held(s: State, socket: Socket): nat {
    if s.channel == Some(socket) && socket in s.registered then 1 else 0
  }

  /** Every socket ever created is held by the channel, was closed or was handed over:
      exactly one of the three, exactly once. */
  ghost predicate Accounted(s: State) {
    && (forall n :: 1 <= n <= s.created ==> Held(s, n) + Times(n, s.closed) + Times(n, s.handed) == 1)
    && (forall n :: n in s.registered || n in s.closed || n in s.handed ==> 1 <= n <= s.created)
  }

  /** At most one socket waits or one retry timer is set, never both. */
  predicate SingleAttempt(s: State) {
    && (s.registered == {} || s.timers == {})
    && (forall m, n :: m in s.registered && n in s.registered ==> m == n)
    && (forall m, n :: m in s.timers && n in s.timers ==> m == n)
  }

  ghost predicate Inv(s: State) {
    && Accounted(s) && SingleAttempt(s)
    && (s.registered == if s.stage.Connecting? && s.channel.Some? then {s.channel.value} else {})
    && (s.stage.Connecting? ==> s.channel.Some?)
    && s.timers <= {s.timerId} && s.timerId <= s.lastTimer
  }

  lemma InitInv()
    ensures Inv(INIT)
  {
  }

  lemma CountMore(socket: Socket, sockets: seq<Socket>, last: Socket)
    ensures Times(socket, sockets + [last]) == Times(socket, sockets) + if socket == last then 1 else 0
  {
    assert multiset(sockets + [last]) == multiset(sockets) + multiset{last};
  }

  lemma CountNone(socket: Socket, sockets: seq<Socket>)
    ensures Times(socket, sockets) == 0 <==> socket !in sockets
  {
  }

  /** Closing or handing over a socket that was held or has just been created. */
  lemma SettleKeeps(s: State, r: State, socket: Socket)
    requires Accounted(s)
    requires socket == s.created + 1 || (s.channel == Some(socket) && socket in s.registered)
    requires r.created == (if socket > s.created then socket else s.created)
    requires r.registered == s.registered - {socket}
    requires r.channel == s.channel || (r.channel.None? && s.channel == Some(socket))
    requires (r.closed == s.closed + [socket] && r.handed == s.handed) || (r.handed == s.handed + [socket] && r.closed == s.closed)
    ensures Accounted(r)
  {
    forall n | 1 <= n <= r.created ensures Held(r, n) + Times(n, r.closed) + Times(n, r.handed) == 1 {
      CountMore(n, s.closed, socket);
      CountMore(n, s.handed, socket);
      CountNone(n, s.closed);
      CountNone(n, s.handed);
    }
  }

  lemma AttemptKeeps(s: State, errno: Errno)
    requires Inv(s) && Quiet(s)
    ensures Inv(Attempt(s, errno))
  {
    var socket := s.created + 1;
    var r := Attempt(s, errno);
    if UnderWay(errno) {
      forall n | 1 <= n <= r.created ensures Held(r, n) + Times(n, r.closed) + Times(n, r.handed) == 1 {
        CountNone(n, s.closed);
        CountNone(n, s.handed);
      }
    } else {
      SettleKeeps(s, r, socket);
    }
  }

  lemma EventKeeps(s: State, error: bool, writable: bool, failed: bool)
    requires Inv(s) && Enabled(s, Event(error, writable, failed))
    ensures Inv(Dispatch(s, error, writable, failed))
  {
    var socket := s.channel.value;
    var r := Dispatch(s, error, writable, failed);
    if error {
      assert r == HandleError(s);
      SettleKeeps(s, r, socket);
    } else {
      SettleKeeps(s, r, socket);
    }
  }

  lemma StepKeepsInvariant(s: State, step: Step)
    requires Inv(s) && Enabled(s, step)
    ensures Inv(Apply(s, step))
  {
    match step
    case Start(errno) =>
      AttemptKeeps(s.(connect := true), errno);
    case Restart(errno) =>
      AttemptKeeps(s.(stage := Disconnected, retryDelayMs := INIT_RETRY_DELAY_MS, connect := true), errno);
    case StopIt =>
    case TimerFires(timer, errno) =>
      var m := s.(timers := s.timers - {timer});
      assert Quiet(m);
      if s.connect { AttemptKeeps(m, errno); }
    case Event(error, writable, failed) => EventKeeps(s, error, writable, failed);
  }

  lemma {:induction false} RunKeepsInvariant(s: State, steps: seq<Step>)
    requires Inv(s) && IsRun(s, steps)
    ensures Inv(Exec(s, steps))
    decreases |steps|
  {
    if steps != [] {
      StepKeepsInvariant(s, steps[0]);
      RunKeepsInvariant(Apply(s, steps[0]), steps[1..]);
    }
  }

  /** In every run that starts attempts only when nothing is under way, no socket leaks, none
      is closed or handed over twice, and at most one attempt is outstanding. */
  lemma SocketsAccounted(steps: seq<Step>, socket: Socket)
    requires IsRun(INIT, steps) && 1 <= socket <= Exec(INIT, steps).created
    ensures var s := Exec(INIT, steps);
            && Held(s, socket) + Times(socket, s.closed) + Times(socket, s.handed) == 1
            && SingleAttempt(s)
  {
    InitInv();
    RunKeepsInvariant(INIT, steps);
  }

  /** One event with both an error and room to write settles the socket once: the write
      callback finds the connector disconnected and does nothing. */
  lemma ErrorThenWrite(s: State, failed: bool)
    requires Inv(s) && Enabled(s, Event(true, true, failed))
    ensures Dispatch(s, true, true, failed) == Dispatch(s, true, false, failed)
    ensures HandleError(s).stage.Disconnected?
  {
  }

  // ---------------------------------------------------------------- outcomes, one by one

  /** What connect(2) leaves in errno decides, error by error: the new socket is waited for, or
      is closed and tried again later if the connector is still wanted, or is closed for good. */
  lemma AttemptByErrno(s: State, errno: Errno)
    requires Inv(s) && s.connect
    ensures var r := StartInLoop(s, errno); var socket := s.created + 1;
            && r.created == socket && r.handed == s.handed && r.connect
            && (errno in {Zero, EINPROGRESS, EINTR, EISCONN} ==>
                  && r.stage == Connecting && r.channel == Some(socket) && r.registered == s.registered + {socket}
                  && r.closed == s.closed && r.timers == s.timers && r.retryDelayMs == s.retryDelayMs)
            && (errno in {EAGAIN, EADDRINUSE, EADDRNOTAVAIL, ECONNREFUSED, ENETUNREACH} ==>
                  && r.stage == Disconnected && r.registered == s.registered && r.closed == s.closed + [socket]
                  && r.timers == s.timers + {r.timerId} && r.timerId !in s.timers)
            && (errno in {EACCES, EPERM, EAFNOSUPPORT, EALREADY, EBADF, EFAULT, ENOTSOCK, Other} ==>
                  && r.registered == s.registered && r.closed == s.closed + [socket]
                  && r.timers == s.timers && r.stage == s.stage && r.retryDelayMs == s.retryDelayMs)
  {
  }

  /** Unless it is wanted, no attempt is made. */
  lemma NoAttemptUnlessWanted(s: State, errno: Errno)
    requires !s.connect
    ensures StartInLoop(s, errno) == s
  {
  }

  /** What an event does with the socket that is being waited for.  It is handed over exactly
      when there was no error, the socket is writable, connecting did not fail and the connector
      is still wanted.  After an error or a failure it is closed, and a retry timer is set
      exactly if the connector is still wanted. */
  lemma EventOutcome(s: State, error: bool, writable: bool, failed: bool)
    requires Inv(s) && Enabled(s, Event(error, writable, failed))
    ensures var r := Apply(s, Event(error, writable, failed)); var socket := s.channel.value;
            && r.registered == {} && s.registered == {socket} && r.created == s.created && r.connect == s.connect
            && r.handed == s.handed + (if !error && writable && !failed && s.connect then [socket] else [])
            && r.closed == s.closed + (if !error && writable && !failed && s.connect then [] else [socket])
            && (error || (writable && failed) ==>
                  r.stage == Disconnected && (if s.connect then r.timers == {r.timerId} else r.timers == {}))
            && (!error && writable && !failed ==> r.stage == Connected && r.timers == {})
  {
    assert s.timers == {};
  }

  /** Retry delays: 500 ms at first and after a restart, then twice the last one, up to 30 s. */
  lemma RetryDelays(s: State, socket: Socket)
    ensures INIT.retryDelayMs == 500
    ensures s.connect && s.retryDelayMs <= 15000 ==> Retry(s, socket).retryDelayMs == 2 * s.retryDelayMs
    ensures s.connect && s.retryDelayMs >= 15000 ==> Retry(s, socket).retryDelayMs == 30000
    ensures !s.connect ==> Retry(s, socket).retryDelayMs == s.retryDelayMs
  {
  }

  /** After a stop, whatever is still under way, nothing is handed over and no socket is
      created until the connector is started again. */
  lemma {:induction false} StoppedStaysQuiet(s: State, steps: seq<Step>)
    requires Inv(s) && IsRun(Stop(s), steps)
    requires forall step :: step in steps ==> !step.Start? && !step.Restart?
    ensures var r := Exec(Stop(s), steps);
            r.handed == s.handed && r.created == s.created && r.timers == {}
    decreases |steps|
  {
    StepKeepsInvariant(s, StopIt);
    assert Stop(s).timers == {};
    IdleRun(Stop(s), steps);
  }

  lemma {:induction false} IdleRun(s: State, steps: seq<Step>)
    requires Inv(s) && !s.connect && s.timers == {} && IsRun(s, steps)
    requires forall step :: step in steps ==> !step.Start? && !step.Restart?
    ensures var r := Exec(s, steps);
            r.handed == s.handed && r.created == s.created && r.timers == {}
    decreases |steps|
  {
    if steps != [] {
      assert steps[0] in steps && forall step :: step in steps[1..] ==> step in steps;
      StepKeepsInvariant(s, steps[0]);
      if steps[0].Event? {
        EventOutcome(s, steps[0].error, steps[0].writable, steps[0].failed);
      }
      IdleRun(Apply(s, steps[0]), steps[1..]);
    }
  }

  // ---------------------------------------------------------------- start without a guard

  /** What start does in any state: nothing asks whether something is under way. */
  function Started(s: State, errno: Errno): State {
    StartInLoop(s.(connect := true), errno)
  }

  /** The new attempt leaves something to wait for. */
  predicate Lasting(errno: Errno) {
    UnderWay(errno) || Retryable(errno)
  }

  /** start keeps the invariant exactly when nothing is under way or the new attempt fails for
      good. */
  lemma UnguardedStart(s: State, errno: Errno)
    requires Inv(s)
    ensures Inv(Started(s, errno)) <==> Quiet(s) || !Lasting(errno)
  {
    var m := s.(connect := true);
    var r := Started(s, errno);
    if Quiet(s) {
      AttemptKeeps(m, errno);
    } else if Lasting(errno) {
      UnguardedStartDoubles(s, errno);
      assert !Quiet(s);
      if s.stage.Connecting? && !UnderWay(errno) {
        assert s.channel.value in r.registered;
      }
    } else {
      SettleKeeps(m, r, s.created + 1);
    }
  }

  /** It makes a second attempt in the same cases. */
  lemma UnguardedStartDoubles(s: State, errno: Errno)
    requires Inv(s)
    ensures SingleAttempt(Started(s, errno)) <==> Quiet(s) || !Lasting(errno)
  {
    var r := Started(s, errno);
    if !Quiet(s) && UnderWay(errno) {
      assert s.created + 1 in r.registered;
      assert s.created + 1 !in s.registered;
    } else if !Quiet(s) && Retryable(errno) {
      assert s.lastTimer + 1 in r.timers;
      assert s.lastTimer + 1 !in s.timers;
    }
  }

  /** A socket is lost at once exactly when one is waiting and the new attempt gets under
      way, which replaces the channel. */
  lemma UnguardedStartLosesAtOnce(s: State, errno: Errno)
    requires Inv(s)
    ensures Accounted(Started(s, errno)) <==> !(s.stage.Connecting? && UnderWay(errno))
  {
    var r := Started(s, errno);
    if s.stage.Connecting? && UnderWay(errno) {
      ReplacedIsLost(s.(connect := true), errno);
    } else if UnderWay(errno) {
      forall n | 1 <= n <= r.created ensures Held(r, n) + Times(n, r.closed) + Times(n, r.handed) == 1 {
        CountNone(n, s.closed);
        CountNone(n, s.handed);
      }
    } else {
      SettleKeeps(s.(connect := true), r, s.created + 1);
    }
  }

  /** A channel that still holds its socket is replaced. */
  lemma ReplacedIsLost(s: State, errno: Errno)
    requires Accounted(s) && UnderWay(errno) && s.channel.Some? && s.channel.value in s.registered
    ensures !Accounted(Attempt(s, errno))
  {
    var waiting := s.channel.value;
    CountNone(waiting, s.closed);
    CountNone(waiting, s.handed);
    assert Held(s, waiting) == 1 && Held(Attempt(s, errno), waiting) == 0;
  }

  /** Some run from here loses a socket, though in it start is called only when nothing is
      under way. */
  ghost predicate CanLose(s: State) {
    exists steps :: IsRun(s, steps) && !Accounted(Exec(s, steps))
  }

  lemma LosesLater(s: State, step: Step)
    requires Enabled(s, step) && CanLose(Apply(s, step))
    ensures CanLose(s)
  {
    var rest :| IsRun(Apply(s, step), rest) && !Accounted(Exec(Apply(s, step), rest));
    var steps := [step] + rest;
    assert steps[0] == step && steps[1..] == rest;
    assert IsRun(s, steps) && Exec(s, steps) == Exec(Apply(s, step), rest);
  }

  lemma LosesNow(s: State)
    requires !Accounted(s)
    ensures CanLose(s)
  {
    assert IsRun(s, []) && Exec(s, []) == s;
  }

  /** A retry timer fires while a channel holds its socket. */
  lemma TimerReplaces(s: State, timer: nat)
    requires Accounted(s) && s.connect && timer in s.timers && s.channel.Some? && s.channel.value in s.registered
    ensures CanLose(s)
  {
    var m := s.(timers := s.timers - {timer});
    assert Accounted(m);
    ReplacedIsLost(m, EINPROGRESS);
    LosesNow(Attempt(m, EINPROGRESS));
    LosesLater(s, TimerFires(timer, EINPROGRESS));
  }

  /** The loss, exactly: after start a socket is lost or can still be lost iff something was
      under way and the new attempt did not fail for good. */
  lemma UnguardedStartLoses(s: State, errno: Errno)
    requires Inv(s)
    ensures CanLose(Started(s, errno)) <==> !Quiet(s) && Lasting(errno)
  {
    var r := Started(s, errno);
    UnguardedStart(s, errno);
    UnguardedStartLosesAtOnce(s, errno);
    if Inv(r) {
      forall steps | IsRun(r, steps) ensures Accounted(Exec(r, steps)) {
        RunKeepsInvariant(r, steps);
      }
    } else if !Accounted(r) {
      LosesNow(r);
    } else if UnderWay(errno) {
      TimerReplaces(r, s.timerId);
    } else if s.stage.Connecting? {
      TimerReplaces(r, r.timerId);
    } else {
      TwoTimersLose(r, s.timerId, r.timerId);
    }
  }

  /** Two retry timers: the second replaces what the first has started. */
  lemma TwoTimersLose(s: State, first: nat, second: nat)
    requires Accounted(s) && s.connect && first in s.timers && second in s.timers && first != second
    requires s.registered == {}
    ensures CanLose(s)
  {
    var m := Apply(s, TimerFires(first, EINPROGRESS));
    forall n | 1 <= n <= m.created ensures Held(m, n) + Times(n, m.closed) + Times(n, m.handed) == 1 {
      CountNone(n, s.closed);
      CountNone(n, s.handed);
    }
    TimerReplaces(m, second);
    LosesLater(s, TimerFires(first, EINPROGRESS));
  }

  /** restart also forgets that a socket is waiting, so that it keeps the invariant in fewer
      cases. */
  lemma UnguardedRestart(s: State, errno: Errno)
    requires Inv(s)
    ensures var m := s.(stage := Disconnected, retryDelayMs := INIT_RETRY_DELAY_MS);
            Inv(Started(m, errno)) <==> Quiet(s) || (!s.stage.Connecting? && !Lasting(errno))
  {
    var m := s.(stage := Disconnected, retryDelayMs := INIT_RETRY_DELAY_MS);
    var r := Started(m, errno);
    if s.stage.Connecting? {
      assert s.channel.value in r.registered;
      if UnderWay(errno) { assert s.created + 1 in r.registered; }
    } else {
      UnguardedStart(m, errno);
    }
  }

  /** The destructor unregisters a waiting socket without closing it. */
  lemma DestructorAccounts(s: State)
    requires Inv(s)
    ensures Quiet(Delete(s)) && (s.stage.Connecting? <==> s.registered != {})
    ensures Accounted(Delete(s)) <==> !s.stage.Connecting?
  {
    if s.stage.Connecting? {
      var socket := s.channel.value;
      CountNone(socket, s.closed);
      CountNone(socket, s.handed);
      assert Held(s, socket) == 1 && Held(Delete(s), socket) == 0;
    }
  }

  lemma HeldMeansConnecting(s: State)
    requires Inv(s) && s.channel.Some? && s.channel.value in s.registered
    ensures s.stage.Connecting?
  {
  }
}
