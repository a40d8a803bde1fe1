/** The class: each method does to the fields what the model's operation does. */
module Connectors {
  import opened Options
  import opened Attempts

  class Connector {
    var connect: bool
    var state: Stage
    var channel: Option<Socket>
    var retryDelayMs: nat
    var timerId: nat

    /** The loop's side, and the histories. */
    var registered: set<Socket>
    var timers: set<nat>
    var lastTimer: nat
    var created: nat
    ghost var closed: seq<Socket>
    ghost var handed: seq<Socket>

    ghost function Model(): State
      reads this
    {
      State(connect, state, channel, retryDelayMs, timerId, registered, timers, lastTimer, created, closed, handed)
    }

    ghost predicate Valid()
      reads this
    {
      Inv(Model())
    }

    constructor ()
      ensures Valid() && Model() == INIT
    {
      connect, state, channel, retryDelayMs, timerId := false, Disconnected, None, INIT_RETRY_DELAY_MS, 0;
      registered, timers, lastTimer, created := {}, {}, 0, 0;
      closed, handed := [], [];
      new;
      InitInv();
    }

    /** Nothing asks whether something is under way. */
    method Start(errno: Errno)
      modifies this
      ensures Model() == Started(old(Model()), errno)
      ensures old(Valid()) ==> (Valid() <==> Quiet(old(Model())) || !Lasting(errno))
    {
      if Inv(Model()) {
        UnguardedStart(Model(), errno);
      }
      hide Inv;
      connect := true;
      StartIt(errno);
    }

    method Restart(errno: Errno)
      modifies this
      ensures Model() == Started(old(Model()).(stage := Disconnected, retryDelayMs := INIT_RETRY_DELAY_MS), errno)
      ensures old(Valid()) ==> (Valid() <==> Quiet(old(Model())) || (!old(state).Connecting? && !Lasting(errno)))
    {
      if Inv(Model()) {
        UnguardedRestart(Model(), errno);
      }
      hide Inv;
      state := Disconnected;
      retryDelayMs := INIT_RETRY_DELAY_MS;
      connect := true;
      StartIt(errno);
    }

    /** A retry timer fires. */
    method OnTimer(timer: nat, errno: Errno)
      requires Valid() && timer in timers
      modifies this
      ensures Valid() && Model() == Apply(old(Model()), TimerFires(timer, errno))
    {
      hide Inv;
      StepKeepsInvariant(Model(), TimerFires(timer, errno));
      timers := timers - {timer};
      StartIt(errno);
    }

    /** startInLoop. */
    method StartIt(errno: Errno)
      modifies this
      ensures Model() == StartInLoop(old(Model()), errno)
    {
      if connect {
        Connect(errno);
      }
    }

    method Connect(errno: Errno)
      modifies this
      ensures Model() == Attempt(old(Model()), errno)
    {
      created := created + 1;
      var sockfd := created;
      match errno {
        case Zero | EINPROGRESS | EINTR | EISCONN =>
          Await(sockfd);
        case EAGAIN | EADDRINUSE | EADDRNOTAVAIL | ECONNREFUSED | ENETUNREACH =>
          TryAgain(sockfd);
        case _ =>
          Close(sockfd);
      }
    }

    /** connecting. */
    method Await(sockfd: Socket)
      modifies this`state, this`channel, this`registered
      ensures state == Connecting && channel == Some(sockfd) && registered == old(registered) + {sockfd}
    {
      state := Connecting;
      channel := Some(sockfd);
      registered := registered + {sockfd};
    }

    method Close(sockfd: Socket)
      modifies this`closed
      ensures closed == old(closed) + [sockfd]
    {
      closed := closed + [sockfd];
    }

    /** retry. */
    method TryAgain(sockfd: Socket)
      modifies this
      ensures Model() == Retry(old(Model()), sockfd)
    {
      Close(sockfd);
      state := Disconnected;
      if connect {
        lastTimer := lastTimer + 1;
        timers := timers + {lastTimer};
        timerId := lastTimer;
        retryDelayMs := if retryDelayMs * 2 < MAX_RETRY_DELAY_MS then retryDelayMs * 2 else MAX_RETRY_DELAY_MS;
      }
    }

    method RemoveAndResetChannel() returns (sockfd: Socket)
      requires channel.Some?
      modifies this`registered
      ensures sockfd == channel.value && registered == old(registered) - {sockfd}
    {
      sockfd := channel.value;
      registered := registered - {sockfd};
    }

    method HandleError()
      requires channel.Some?
      modifies this
      ensures Model() == Attempts.HandleError(old(Model()))
    {
      var sockfd := RemoveAndResetChannel();
      TryAgain(sockfd);
    }

    /** Returns the argument of the new-connection callback, if it is called; by then the
        connector's channel for that socket is no longer registered. */
    method HandleWrite(failed: bool) returns (newConnection: Option<Socket>)
      requires if state.Connecting? then channel.Some? else state.Disconnected?
      modifies this
      ensures Model() == Attempts.HandleWrite(old(Model()), failed)
      ensures handed == old(handed) + (if newConnection.Some? then [newConnection.value] else [])
      ensures newConnection.Some? ==> newConnection.value !in registered
    {
      newConnection := None;
      if state.Connecting? {
        var sockfd := RemoveAndResetChannel();
        if failed {
          TryAgain(sockfd);
        } else {
          state := Connected;
          if connect {
            assert sockfd !in registered;
            handed := handed + [sockfd];
            newConnection := Some(sockfd);
          } else {
            Close(sockfd);
          }
        }
        channel := None;
      } else {
        assert state == Disconnected;
      }
    }

    /** The loop dispatches an event of the channel. */
    method HandleEvent(error: bool, writable: bool, failed: bool) returns (newConnection: Option<Socket>)
      requires Valid() && Enabled(Model(), Event(error, writable, failed))
      modifies this
      ensures Valid() && Model() == Apply(old(Model()), Event(error, writable, failed))
      ensures handed == old(handed) + (if newConnection.Some? then [newConnection.value] else [])
    {
      newConnection := None;
      StepKeepsInvariant(Model(), Event(error, writable, failed));
      HeldMeansConnecting(Model());
      hide Inv;
      if error {
        HandleError();
      }
      if writable {
        newConnection := HandleWrite(failed);
      }
    }

    method Stop()
      requires Valid()
      modifies this
      ensures Valid() && Model() == Attempts.Stop(old(Model()))
    {
      StepKeepsInvariant(Model(), StopIt);
      connect := false;
      timers := timers - {timerId};
    }

    /** The destructor. */
    method Delete()
      requires Valid()
      modifies this
      ensures old(state).Connecting? ==> old(channel).Some?
      ensures Model() == Attempts.Delete(old(Model())) && Quiet(Model())
    {
      DestructorAccounts(Model());
      timers := timers - {timerId};
      if state.Connecting? {
        assert channel.Some?;
        registered := registered - {channel.value};
      }
    }
  }
}
