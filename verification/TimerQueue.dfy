/** The class itself: each method does to the fields what the model's step does. */
module TimerQueues {
  import opened TimerModel
  import opened TimerProofs
  import opened TimerRuns

  /** Steps that a callback can cause. */
  predicate CallbackStep(step: Step) {
    step.AddTimer? || step.AddElsewhere? || step.AddQueued? || step.Cancel?
  }

  /** The steps of one batch: each callback in turn, and what it does. */
  function Body(script: seq<seq<Step>>): seq<Step> {
    if script == [] then [] else [RunNext] + script[0] + Body(script[1..])
  }

  lemma {:induction false} BodyIsInside(script: seq<seq<Step>>)
    requires forall ops, op :: ops in script && op in ops ==> CallbackStep(op)
    ensures Inside(Body(script))
  {
    if script != [] {
      assert script[0] in script;
      BodyIsInside(script[1..]);
    }
  }

  /** A sequence number not given out yet names no active timer. */
  lemma NewIsInactive(s: State, addr: Addr)
    requires Inv(s)
    ensures ActiveTimer(addr, s.created + 1) !in s.active
  {
  }

  lemma PointersAreBounded(s: State)
    requires Core(s)
    ensures forall e :: e in s.timers ==> e.addr in s.heap && e.addr < UINTPTR_MAX
    ensures Indexed(s.heap, s.timers, s.active)
  {
    hide Numbered, Alarmed, Punctual, Tombstoned;
  }

  lemma KeysOfPrefix(heap: Heap, es: seq<Entry>, i: nat)
    requires i < |es| && forall e :: e in es ==> e.addr in heap
    ensures (forall e :: e in es[..i] ==> e in es) && (forall e :: e in es[..i + 1] ==> e in es)
    ensures Keys(heap, es[..i + 1]) == Keys(heap, es[..i]) + {KeyOf(heap, es[i].addr)}
    ensures (forall j, k :: 0 <= j < k < |es| ==> es[j].addr != es[k].addr) ==> KeyOf(heap, es[i].addr) !in Keys(heap, es[..i])
  {
    assert es[..i + 1] == es[..i] + [es[i]];
  }

  lemma AddTimerParts(s: State, addr: Addr, when: int, interval: real, clock: int)
    requires Inv(s) && Enabled(s, AddTimer(addr, when, interval, clock))
    ensures Safe(s, AddTimer(addr, when, interval, clock))
    ensures var m := Allocate(s, addr, when, interval); var r := AddInLoop(m, addr, clock);
            && Insertable(m, addr) && |m.timers| == |m.active|
            && r == Apply(s, AddTimer(addr, when, interval, clock)) && Inv(r)
            && ActiveTimer(addr, s.created + 1) in r.active
  {
    StepKeepsInvariant(s, AddTimer(addr, when, interval, clock));
    hide Inv;
  }

  /** What searching for the sentry finds, and what the loop over it relies on. */
  lemma ExpiredParts(s: State, now: int)
    requires Inv(s) && s.phase.Idle?
    ensures var it := LowerBound(s.timers, Entry(now, UINTPTR_MAX));
            && s.timers[..it] == Due(s.timers, now) && s.timers[it..] == Later(s.timers, now)
            && (it == |s.timers| || now < s.timers[it].when)
    ensures forall e :: e in Due(s.timers, now) ==> e.addr in s.heap && KeyOf(s.heap, e.addr) in s.active
    ensures forall i, j :: 0 <= i < j < |Due(s.timers, now)| ==> Due(s.timers, now)[i].addr != Due(s.timers, now)[j].addr
    ensures |Later(s.timers, now)| == |s.active - Keys(s.heap, Due(s.timers, now))|
  {
    PointersAreBounded(s);
    IndexedBegin(s.heap, s.timers, s.active, now);
    DistinctAddresses(Due(s.timers, now));
    SentrySplitsAtNow(s.timers, now);
    SizesAgree(s.heap, Later(s.timers, now), s.active - Keys(s.heap, Due(s.timers, now)));
    var it := LowerBound(s.timers, Entry(now, UINTPTR_MAX));
    if it < |s.timers| {
      assert s.timers[it] == Later(s.timers, now)[0] && s.timers[it] in Later(s.timers, now);
    }
    hide Inv;
  }

  /** What one iteration of reset relies on. */
  lemma ResetParts(s: State)
    requires ReadyToReset(s) && |s.phase.batch| > 0
    ensures BatchAllocated(s) && ReadyToReset(ResetOne(s)) && BatchAllocated(ResetOne(s))
    ensures ResetOne(s).phase == Popped(s.phase) && s.phase.batch[0].addr in s.heap
    ensures var addr := s.phase.batch[0].addr; var t := s.heap[addr].Restart(s.phase.now);
            Insertable(s.(heap := s.heap[addr := t]), addr) && |s.timers| == |s.active|
  {
    EndIsSafe(s);
    ResetOneKeeps(s);
    EndIsSafe(ResetOne(s));
    CoreIsIndexed(s);
    SizesAgree(s.heap, s.timers, s.active);
    hide ReadyToReset;
    assert s.phase.batch[0] in s.phase.batch;
  }

  lemma CoreIsIndexed(s: State)
    requires Core(s)
    ensures Indexed(s.heap, s.timers, s.active)
    ensures s.timers != [] ==> s.timers[0].addr in s.heap && s.heap[s.timers[0].addr].expiration == s.timers[0].when
  {
    if s.timers != [] { assert s.timers[0] in s.timers; }
  }

  lemma ReadyIsIndexed(s: State)
    requires ReadyToReset(s)
    ensures s.timers != [] ==> s.timers[0].addr in s.heap && s.heap[s.timers[0].addr].expiration == s.timers[0].when
  {
    CoreIsIndexed(s);
  }

  lemma CloseParts(s: State)
    requires Inv(s) && s.phase.Idle?
    ensures Safe(s, Destroy) && Inv(Apply(s, Destroy))
    ensures forall i :: 0 <= i < |s.timers| ==> s.timers[i].addr in s.heap
    ensures forall i, j :: 0 <= i < j < |s.timers| ==> s.timers[i].addr != s.timers[j].addr
  {
    StepKeepsInvariant(s, Destroy);
    PointersAreBounded(s);
    DistinctAddresses(s.timers);
    hide Inv;
    forall i | 0 <= i < |s.timers| ensures s.timers[i].addr in s.heap {
      assert s.timers[i] in s.timers;
    }
  }

  lemma PerformParts(s: State, step: Step)
    requires Inv(s) && s.phase.Running? && CallbackStep(step) && Enabled(s, step)
    ensures Safe(s, step)
    ensures var r := Apply(s, step);
            && r.phase.Running? && r.phase.batch == s.phase.batch && r.phase.now == s.phase.now
            && r.phase.next == s.phase.next
  {
    StepIsSafe(s, step);
    BatchIsSettled(s);
    OthersInside(s, step);
    hide Inv;
  }

  lemma StepOfRun(s: State, steps: seq<Step>)
    requires steps != [] && IsRun(s, steps) && RunIsSafe(s, steps)
    ensures Enabled(s, steps[0]) && Safe(s, steps[0])
    ensures IsRun(Apply(s, steps[0]), steps[1..]) && RunIsSafe(Apply(s, steps[0]), steps[1..])
    ensures Exec(s, steps) == Exec(Apply(s, steps[0]), steps[1..])
  {
    hide Apply, Safe, Enabled;
  }

  lemma RunNextParts(s: State)
    requires Inv(s) && Enabled(s, RunNext)
    ensures Safe(s, RunNext) && Inv(Apply(s, RunNext))
    ensures s.phase.batch[s.phase.next].addr in s.heap && Apply(s, RunNext) == RunCallback(s)
  {
    StepKeepsInvariant(s, RunNext);
    hide Inv;
  }

  lemma BeginParts(s: State, now: int, drained: bool)
    requires Inv(s) && Enabled(s, BeginRead(now, drained))
    ensures Safe(s, BeginRead(now, drained)) && Inv(Apply(s, BeginRead(now, drained)))
    ensures forall e :: e in s.timers ==> e.addr in s.heap
    ensures Apply(s, BeginRead(now, drained)) == Begin(s, now, drained)
  {
    hide Inv;
    StepKeepsInvariant(s, BeginRead(now, drained));
  }

  lemma EndParts(s: State, clock: int)
    requires Inv(s) && Enabled(s, EndRead(clock))
    ensures Safe(s, EndRead(clock)) && Inv(Apply(s, EndRead(clock)))
    ensures var m := s.(calling := false);
            && ReadyToReset(m) && BatchAllocated(m)
            && Apply(s, EndRead(clock)) == Rearm(ResetAll(m), clock).(phase := Idle)
  {
    StepKeepsInvariant(s, EndRead(clock));
    hide Indexed, BatchDue, Owned, Numbered, Alarmed, Punctual, Tombstoned, ResetAll;
  }

  class TimerQueue {
    /** Memory, shared with the rest of the program, and Timer::s_numCreated_. */
    var heap: map<Addr, Timer>
    var created: int

    var timers: seq<Entry>
    var callingExpiredTimers: bool
    var activeTimers: set<ActiveTimer>
    var cancelingTimers: set<ActiveTimer>
    var timerfd: Alarm

    ghost var queued: set<Addr>
    ghost var phase: Phase
    ghost var freed: seq<int>
    ghost var runs: seq<Run>

    ghost function Model(): State
      reads this
    {
      State(heap, created, timers, activeTimers, cancelingTimers, callingExpiredTimers, timerfd, queued, phase, freed, runs)
    }

    ghost predicate Valid()
      reads this
    {
      Inv(Model())
    }

    /** `garbage` is what the uninitialised flag happens to hold. */
    constructor (garbage: bool)
      ensures Valid() && Model() == Init(garbage)
    {
      heap, created := map[], 0;
      timers, activeTimers, cancelingTimers := [], {}, {};
      callingExpiredTimers := garbage;
      timerfd := Disarmed;
      queued, phase, freed, runs := {}, Idle, [], [];
      new;
      InitInv(garbage);
    }

    /** The destructor. */
    method Close()
      requires Valid() && phase.Idle?
      modifies this
      ensures Valid() && Safe(old(Model()), Destroy) && Model() == Apply(old(Model()), Destroy)
    {
      hide Inv;
      CloseParts(Model());
      ghost var before := Model();
      var i := 0;
      while i < |timers|
        invariant i <= |timers|
        invariant Model() == before.(heap := heap, freed := freed)
        invariant FreeAll(Model(), timers[i..]) == FreeAll(before, timers)
        invariant forall j :: i <= j < |timers| ==> timers[j].addr in heap
      {
        Delete(timers[i].addr);
        i := i + 1;
      }
      timers, activeTimers, phase := [], {}, Destroyed;
    }

    /** operator delete on a timer. */
    method Delete(addr: Addr)
      requires addr in heap
      modifies this`heap, this`freed
      ensures Model() == Free(old(Model()), addr)
    {
      freed := freed + [heap[addr].sequence];
      heap := map a | a in heap && a != addr :: heap[a];
    }

    method ResetTimerfd(expiration: int, clock: int)
      modifies this`timerfd
      ensures timerfd == Armed(expiration, clock)
    {
      timerfd := Armed(expiration, clock);
    }

    method InsertTimer(addr: Addr) returns (earliestChanged: bool)
      requires Insertable(Model(), addr) && |timers| == |activeTimers|
      modifies this`timers, this`activeTimers
      ensures Model() == Index(old(Model()), addr) && |timers| == |activeTimers|
      ensures earliestChanged == EarliestChanged(old(Model()), addr)
    {
      earliestChanged := false;
      var when := heap[addr].expiration;
      if timers == [] || when < timers[0].when {
        earliestChanged := true;
      }
      assert Entry(when, addr) !in timers;
      timers := Insert(timers, Entry(when, addr));
      assert ActiveTimer(addr, heap[addr].sequence) !in activeTimers;
      activeTimers := activeTimers + {ActiveTimer(addr, heap[addr].sequence)};
    }

    method AddTimerInLoop(addr: Addr, clock: int)
      requires Insertable(Model(), addr) && |timers| == |activeTimers|
      modifies this`timers, this`activeTimers, this`timerfd
      ensures Model() == AddInLoop(old(Model()), addr, clock)
    {
      var earliestChanged := InsertTimer(addr);
      if earliestChanged {
        ResetTimerfd(heap[addr].expiration, clock);
      }
    }

    /** addTimer on the loop's own thread; `addr` is where the allocator puts the timer. */
    method AddTimerHere(addr: Addr, when: int, interval: real, clock: int) returns (id: ActiveTimer)
      requires Valid() && Enabled(Model(), AddTimer(addr, when, interval, clock))
      modifies this
      ensures Valid() && Safe(old(Model()), AddTimer(addr, when, interval, clock))
      ensures Model() == Apply(old(Model()), AddTimer(addr, when, interval, clock))
      ensures id == ActiveTimer(addr, old(created) + 1) && id in activeTimers
    {
      hide Inv, Apply, Safe;
      AddTimerParts(Model(), addr, when, interval, clock);
      created := created + 1;
      heap := heap[addr := Timer(when, interval, created)];
      AddTimerInLoop(addr, clock);
      id := ReadId(addr);
    }

    /** addTimer on another thread, up to and including runInLoop: the loop is handed the timer,
        and the caller keeps the pointer. */
    method AddTimerFromElsewhere(addr: Addr, when: int, interval: real) returns (timer: Addr)
      requires Valid() && Enabled(Model(), AddElsewhere(addr, when, interval))
      modifies this
      ensures Valid() && Model() == Apply(old(Model()), AddElsewhere(addr, when, interval))
      ensures timer == addr && heap[timer].sequence == created == old(created) + 1
      ensures ActiveTimer(timer, created) !in activeTimers
    {
      hide Inv;
      StepKeepsInvariant(Model(), AddElsewhere(addr, when, interval));
      NewIsInactive(Model(), addr);
      created := created + 1;
      heap := heap[addr := Timer(when, interval, created)];
      queued := queued + {addr};
      timer := addr;
    }

    /** The last line of addTimer: the number is read through the pointer, and there must be a
        timer to read it from.  It is the caller's own only if no other has taken its place. */
    method ReadId(timer: Addr) returns (id: ActiveTimer)
      requires timer in heap
      ensures id == KeyOf(heap, timer)
    {
      id := ActiveTimer(timer, heap[timer].sequence);
    }

    /** The loop runs a queued addTimerInLoop. */
    method AddTimerFromQueue(addr: Addr, clock: int)
      requires Valid() && Enabled(Model(), AddQueued(addr, clock))
      modifies this
      ensures Valid() && Safe(old(Model()), AddQueued(addr, clock))
      ensures Model() == Apply(old(Model()), AddQueued(addr, clock))
    {
      hide Inv;
      StepKeepsInvariant(Model(), AddQueued(addr, clock));
      queued := queued - {addr};
      AddTimerInLoop(addr, clock);
    }

    method CancelInLoop(id: ActiveTimer)
      requires Valid() && !phase.Destroyed?
      modifies this
      ensures Valid() && Safe(old(Model()), Cancel(id)) && Model() == Apply(old(Model()), Cancel(id))
    {
      hide Inv;
      StepKeepsInvariant(Model(), Cancel(id));
      phase := NoteCancel(phase, id);
      assert |timers| == |activeTimers|;
      if id in activeTimers {
        assert Entry(heap[id.addr].expiration, id.addr) in timers;
        timers := Remove(timers, Entry(heap[id.addr].expiration, id.addr));
        Delete(id.addr);
        activeTimers := activeTimers - {id};
      } else if callingExpiredTimers {
        cancelingTimers := cancelingTimers + {id};
      }
    }

    /** The loop of getExpired; every erase finds its key. */
    method EraseActive(expired: seq<Entry>)
      requires forall e :: e in expired ==> e.addr in heap && KeyOf(heap, e.addr) in activeTimers
      requires forall i, j :: 0 <= i < j < |expired| ==> expired[i].addr != expired[j].addr
      modifies this`activeTimers
      ensures activeTimers == old(activeTimers) - Keys(heap, expired)
    {
      var i := 0;
      while i < |expired|
        invariant i <= |expired|
        invariant activeTimers == old(activeTimers) - Keys(heap, expired[..i])
      {
        KeysOfPrefix(heap, expired, i);
        var timer := ActiveTimer(expired[i].addr, heap[expired[i].addr].sequence);
        assert timer in activeTimers by {
          assert expired[i] in expired;
        }
        activeTimers := activeTimers - {timer};
        i := i + 1;
      }
      assert expired[..i] == expired;
    }

    method GetExpired(now: int) returns (expired: seq<Entry>)
      requires Valid() && phase.Idle?
      modifies this`timers, this`activeTimers
      ensures expired == Due(old(timers), now) && timers == Later(old(timers), now)
      ensures forall e :: e in expired ==> e.addr in heap
      ensures activeTimers == old(activeTimers) - Keys(heap, expired)
      ensures |timers| == |activeTimers|
    {
      hide Inv, Due, Later, Keys;
      ExpiredParts(Model(), now);
      var sentry := Entry(now, UINTPTR_MAX);
      var it := LowerBound(timers, sentry);
      assert it == |timers| || now < timers[it].when;
      expired := timers[..it];
      timers := timers[it..];
      EraseActive(expired);
      assert |timers| == |activeTimers|;
    }

    /** The body of the loop in reset: put the timer back or delete it. */
    method ResetEntry(addr: Addr, now: int)
      requires BatchAllocated(Model()) && |phase.batch| > 0 && phase.batch[0].addr == addr && phase.now == now
      requires Insertable(Model().(heap := heap[addr := heap[addr].Restart(now)]), addr)
      requires |timers| == |activeTimers|
      modifies this
      ensures BatchAllocated(old(Model())) && Model() == ResetOne(old(Model()))
    {
      var timer := ActiveTimer(addr, heap[addr].sequence);
      if heap[addr].Repeat() && timer !in cancelingTimers {
        heap := heap[addr := heap[addr].Restart(now)];
        var earliestChanged := InsertTimer(addr);
      } else {
        Delete(addr);
      }
      phase := Popped(phase);
    }

    /** Puts back or deletes what has been run; meanwhile the model's batch shrinks. */
    method Reset(expired: seq<Entry>, now: int, clock: int)
      requires ReadyToReset(Model()) && phase.Running? && phase.batch == expired && phase.now == now
      modifies this
      ensures BatchAllocated(old(Model()))
      ensures Model() == Rearm(ResetAll(old(Model())), clock)
    {
      hide ReadyToReset, BatchAllocated, Insertable, ResetOne;
      ghost var before := Model();
      EndIsSafe(before);
      var i := 0;
      while i < |expired|
        invariant i <= |expired|
        invariant ReadyToReset(Model()) && BatchAllocated(Model())
        invariant phase.Running? && phase.batch == expired[i..] && phase.now == now
        invariant ResetAll(Model()) == ResetAll(before)
      {
        ResetParts(Model());
        ResetEntry(expired[i].addr, now);
        i := i + 1;
      }
      ReadyIsIndexed(Model());
      if timers != [] {
        var nextExpire := heap[timers[0].addr].expiration;
        if nextExpire > 0 {
          ResetTimerfd(nextExpire, clock);
        }
      }
    }

    /** One thing a callback does, or another thread meanwhile. */
    method Perform(step: Step)
      requires Valid() && phase.Running? && CallbackStep(step) && Enabled(Model(), step)
      modifies this
      ensures Valid() && Safe(old(Model()), step) && Model() == Apply(old(Model()), step)
      ensures phase.Running? && phase.batch == old(phase).batch && phase.now == old(phase).now
      ensures phase.next == old(phase).next
    {
      hide Inv, Apply, Safe;
      PerformParts(Model(), step);
      match step {
        case AddTimer(addr, when, interval, clock) =>
          var id := AddTimerHere(addr, when, interval, clock);
        case AddElsewhere(addr, when, interval) =>
          var timer := AddTimerFromElsewhere(addr, when, interval);
        case AddQueued(addr, clock) =>
          AddTimerFromQueue(addr, clock);
        case Cancel(id) =>
          CancelInLoop(id);
      }
    }

    /** One callback of the batch; `script` is what it does. */
    method RunTimer(addr: Addr, script: seq<Step>, ghost rest: seq<Step>)
      requires Valid() && phase.Running? && phase.next < |phase.batch| && phase.batch[phase.next].addr == addr
      requires forall op :: op in script ==> CallbackStep(op)
      requires IsRun(Model(), [RunNext] + script + rest)
      modifies this
      ensures Valid() && phase.Running? && phase.batch == old(phase).batch && phase.now == old(phase).now
      ensures phase.next == old(phase).next + 1
      ensures IsRun(Model(), rest) && RunIsSafe(Model(), rest)
      ensures RunIsSafe(old(Model()), [RunNext] + script + rest)
      ensures Exec(Model(), rest) == Exec(old(Model()), [RunNext] + script + rest)
    {
      hide Inv, Apply, Safe;
      ghost var before := Model();
      ghost var all := [RunNext] + script + rest;
      RunKeepsInvariant(before, all);
      StepOfRun(before, all);
      RunNextParts(before);
      assert all[1..] == script + rest;
      runs := runs + [Run(heap[addr].sequence, phase.now, heap[addr].expiration, heap[addr].interval)];
      phase := phase.(next := phase.next + 1);
      assert Model() == Apply(before, RunNext);
      var i := 0;
      assert script[i..] + rest == all[1..];
      while i < |script|
        invariant i <= |script|
        invariant Valid() && phase.Running? && phase.batch == before.phase.batch && phase.now == before.phase.now
        invariant phase.next == before.phase.next + 1
        invariant IsRun(Model(), script[i..] + rest) && RunIsSafe(Model(), script[i..] + rest)
        invariant Exec(Model(), script[i..] + rest) == Exec(before, all)
      {
        ghost var todo := script[i..] + rest;
        assert todo[0] == script[i] && todo[1..] == script[i + 1..] + rest;
        assert script[i] in script;
        StepOfRun(Model(), todo);
        Perform(script[i]);
        i := i + 1;
      }
      assert script[i..] + rest == rest;
    }

    /** handleRead up to its loop. */
    method StartBatch(now: int, drained: bool) returns (expired: seq<Entry>)
      requires Valid() && Enabled(Model(), BeginRead(now, drained))
      modifies this
      ensures Valid() && Safe(old(Model()), BeginRead(now, drained))
      ensures Model() == Apply(old(Model()), BeginRead(now, drained))
      ensures expired == Due(old(timers), now) && phase == Running(now, expired, 0, {})
    {
      hide Inv, Apply, Safe, Due, Later, Keys;
      BeginParts(Model(), now, drained);
      expired := GetExpired(now);
      if drained {
        timerfd := Disarmed;
      }
      callingExpiredTimers := true;
      cancelingTimers := {};
      phase := Running(now, expired, 0, {});
    }

    /** The loop of handleRead over the expired timers. */
    method RunBatch(expired: seq<Entry>, script: seq<seq<Step>>)
      requires Valid() && phase.Running? && phase.batch == expired && phase.next == 0 && |script| == |expired|
      requires forall ops, op :: ops in script && op in ops ==> CallbackStep(op)
      requires IsRun(Model(), Body(script))
      modifies this
      ensures Valid() && phase.Running? && phase.batch == expired && phase.now == old(phase).now
      ensures phase.next == |expired|
      ensures RunIsSafe(old(Model()), Body(script)) && Model() == Exec(old(Model()), Body(script))
    {
      hide Inv, Apply, Safe, Enabled, IsRun, RunIsSafe;
      ghost var before := Model();
      RunKeepsInvariant(before, Body(script));
      var i := 0;
      assert script[0..] == script;
      while i < |expired|
        invariant i <= |expired|
        invariant Valid() && phase.Running? && phase.batch == expired && phase.now == before.phase.now && phase.next == i
        invariant IsRun(Model(), Body(script[i..])) && RunIsSafe(Model(), Body(script[i..]))
        invariant Exec(Model(), Body(script[i..])) == Exec(before, Body(script))
      {
        assert script[i..][0] == script[i] && script[i..][1..] == script[i + 1..];
        assert script[i] in script;
        RunTimer(expired[i].addr, script[i], Body(script[i + 1..]));
        i := i + 1;
      }
    }

    /** The descriptor is readable.  `script[i]` is what the i-th callback does. */
    method HandleRead(now: int, drained: bool, script: seq<seq<Step>>, clock: int)
      requires Valid() && Enabled(Model(), BeginRead(now, drained)) && |script| == |Due(timers, now)|
      requires forall ops, op :: ops in script && op in ops ==> CallbackStep(op)
      requires Safe(Model(), BeginRead(now, drained)) ==> IsRun(Apply(Model(), BeginRead(now, drained)), Body(script))
      modifies this
      ensures Valid() && Safe(old(Model()), BeginRead(now, drained))
      ensures var m := Apply(old(Model()), BeginRead(now, drained));
              && RunIsSafe(m, Body(script))
              && Enabled(Exec(m, Body(script)), EndRead(clock)) && Safe(Exec(m, Body(script)), EndRead(clock))
              && Model() == Apply(Exec(m, Body(script)), EndRead(clock))
      ensures BatchSettledAs(old(Model()), Model(), now, CancelIds(Body(script)))
    {
      hide Inv, Apply, Safe, IsRun, RunIsSafe, Exec, BatchSettledAs;
      var expired := StartBatch(now, drained);
      RunBatch(expired, script);
      EndParts(Model(), clock);
      callingExpiredTimers := false;
      Reset(expired, now, clock);
      phase := Idle;
      BodyIsInside(script);
      BatchSettles(old(Model()), now, drained, Body(script), clock);
    }
  }
}
