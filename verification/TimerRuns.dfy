/** What holds in every state that TimerQueue can reach, whatever its callbacks do. */
module TimerRuns {
  import opened TimerModel
  import opened TimerProofs

  // ---------------------------------------------------------------- one step

  lemma StepIsSafe(s: State, step: Step)
    requires Inv(s) && Enabled(s, step)
    ensures Safe(s, step)
  {
    if !s.phase.Destroyed? {
      SizesAgree(s.heap, s.timers, s.active);
      match step
      case AddTimer(_, _, _, _) => hide Owned, Punctual, Alarmed, Tombstoned;
      case AddElsewhere(_, _, _) =>
      case AddQueued(_, _) => hide Numbered, Punctual, Alarmed, Tombstoned;
      case Cancel(_) => hide Owned, Numbered, Punctual, Alarmed, Tombstoned;
      case BeginRead(_, _) => hide Owned, Numbered, Punctual, Alarmed, Tombstoned;
      case RunNext =>
        hide Owned, Numbered, Punctual, Alarmed, Tombstoned;
        assert s.phase.batch[s.phase.next] in s.phase.batch;
      case EndRead(_) => EndIsSafe(s);
      case Destroy => hide Owned, Numbered, Punctual, Alarmed, Tombstoned;
    }
  }

  lemma EndIsSafe(s: State)
    requires ReadyToReset(s)
    ensures BatchAllocated(s)
    ensures forall e :: e in s.phase.batch ==> KeyOf(s.heap, e.addr) !in s.active
    ensures forall e, t :: e in s.phase.batch && t in s.timers ==> e.addr != t.addr
  {
    hide Numbered, Punctual, Alarmed, Tombstoned;
    forall i | 0 <= i < |s.phase.batch| ensures s.phase.batch[i].addr in s.heap {
      assert s.phase.batch[i] in s.phase.batch;
    }
    forall e | e in s.phase.batch ensures InBatch(s.phase, e.addr) {}
  }

  lemma AlarmedAtEnd(timers: seq<Entry>, alarm: Alarm, p: Phase, clock: int)
    requires Sorted(timers) && Alarmed(timers, alarm, p)
    ensures Alarmed(timers, if timers != [] && timers[0].when > 0 then Armed(timers[0].when, clock) else alarm, Idle)
  {
    if timers != [] {
      FirstIsEarliest(timers);
      assert timers[0] in timers;
    }
  }

  lemma PunctualAtEnd(heap: Heap, created: int, runs: seq<Run>, p: Phase)
    requires Punctual(heap, created, runs, p) && p.Running? && p.batch == []
    ensures Punctual(heap, created, runs, Idle)
  {
    forall a, r | a in heap && r in runs && heap[a].sequence == r.sequence
      ensures Spaced(heap[a], r, HasRun(Idle, a), Idle)
    {
      assert Spaced(heap[a], r, HasRun(p, a), p);
    }
  }

  lemma EndKeeps(s: State, clock: int)
    requires Core(s) && Enabled(s, EndRead(clock)) && Safe(s, EndRead(clock))
    ensures Core(Apply(s, EndRead(clock)))
  {
    var m := s.(calling := false);
    assert ReadyToReset(m) by {
      hide Indexed, BatchDue, Owned, Numbered, Alarmed, Punctual, Tombstoned;
    }
    ResetAllOutcome(m);
    var r := ResetAll(m);
    SortedWhenIndexed(r.heap, r.timers, r.active);
    AlarmedAtEnd(r.timers, r.alarm, r.phase, clock);
    PunctualAtEnd(r.heap, r.created, r.runs, r.phase);
    OwnedSamePlaces(r.heap, r.queued, r.active, r.phase, Idle);
    assert Apply(s, EndRead(clock)) == Rearm(r, clock).(phase := Idle);
    EndShape(r, clock);
  }

  lemma EndShape(r: State, clock: int)
    requires Core(r) && r.phase.Running? && r.phase.batch == []
    requires Alarmed(r.timers, Rearm(r, clock).alarm, Idle)
    requires Punctual(r.heap, r.created, r.runs, Idle)
    requires Owned(r.heap, r.queued, r.active, Idle)
    ensures Core(Rearm(r, clock).(phase := Idle))
  {
    hide Indexed, Owned, Numbered, Alarmed, Punctual;
  }

  lemma {:induction false} FreeAllNumbered(s: State, es: seq<Entry>)
    requires Numbered(s.heap, s.created, s.freed)
    ensures var r := FreeAll(s, es);
            r == s.(heap := r.heap, freed := r.freed) && Numbered(r.heap, r.created, r.freed)
    decreases |es|
  {
    hide Numbered;
    if es != [] {
      var a := es[0].addr;
      if a in s.heap {
        NumberedFree(s.heap, s.created, s.freed, a);
        FreeAllNumbered(Free(s, a), es[1..]);
      } else {
        FreeAllNumbered(s, es[1..]);
      }
    }
  }

  lemma {:induction false} FreeAllLeaves(s: State, es: seq<Entry>)
    ensures var r := FreeAll(s, es);
            && (forall a :: a in r.heap <==> a in s.heap && forall e :: e in es ==> e.addr != a)
            && (forall a :: a in r.heap ==> r.heap[a] == s.heap[a])
    decreases |es|
  {
    if es != [] {
      var a := es[0].addr;
      assert es == [es[0]] + es[1..];
      if a in s.heap {
        FreeAllLeaves(Free(s, a), es[1..]);
      } else {
        FreeAllLeaves(s, es[1..]);
      }
    }
  }

  lemma DestroyKeeps(s: State)
    requires Core(s) && s.phase.Idle?
    ensures Inv(FreeAll(s, s.timers).(timers := [], active := {}, phase := Destroyed))
  {
    FreeAllNumbered(s, s.timers);
    FreeAllLeaves(s, s.timers);
    hide Numbered, Alarmed, Tombstoned;
    var r := FreeAll(s, s.timers);
    forall a | a in r.heap ensures a in s.queued {
      assert KeyOf(s.heap, a) in s.active ==> EntryOf(s.heap, a) in s.timers;
    }
  }

  /** Every step that can be taken is safe and keeps the invariant. */
  lemma StepKeepsInvariant(s: State, step: Step)
    requires Inv(s) && Enabled(s, step)
    ensures Safe(s, step) && Inv(Apply(s, step))
  {
    StepIsSafe(s, step);
    hide Indexed, BatchDue, Owned, Numbered, Alarmed, Punctual, Tombstoned;
    match step
    case AddTimer(addr, when, interval, clock) => AddTimerKeeps(s, addr, when, interval, clock);
    case AddElsewhere(addr, when, interval) => AddElsewhereKeeps(s, addr, when, interval);
    case AddQueued(addr, clock) => AddQueuedKeeps(s, addr, clock);
    case Cancel(id) => CancelKeeps(s, id);
    case BeginRead(now, drained) => BeginKeeps(s, now, drained);
    case RunNext => RunKeeps(s);
    case EndRead(clock) => EndKeeps(s, clock);
    case Destroy => DestroyKeeps(s);
  }

  // ---------------------------------------------------------------- runs

  lemma {:induction false} RunKeepsInvariant(s: State, steps: seq<Step>)
    requires Inv(s) && IsRun(s, steps)
    ensures RunIsSafe(s, steps) && Inv(Exec(s, steps))
    decreases |steps|
  {
    if steps != [] {
      StepKeepsInvariant(s, steps[0]);
      RunKeepsInvariant(Apply(s, steps[0]), steps[1..]);
    }
  }

  /** From the constructor on, no run of these steps follows a dangling pointer or fails an
      assert.  Adding from another thread ends here with the hand-over. */
  lemma EveryRunIsSafe(calling: bool, steps: seq<Step>)
    requires IsRun(Init(calling), steps)
    ensures RunIsSafe(Init(calling), steps)
  {
    InitInv(calling);
    RunKeepsInvariant(Init(calling), steps);
  }

  ghost predicate Reachable(s: State) {
    exists calling, steps :: IsRun(Init(calling), steps) && RunIsSafe(Init(calling), steps) && s == Exec(Init(calling), steps)
  }

  lemma ReachableInv(s: State)
    requires Reachable(s)
    ensures Inv(s)
  {
    var calling, steps :| IsRun(Init(calling), steps) && RunIsSafe(Init(calling), steps) && s == Exec(Init(calling), steps);
    InitInv(calling);
    RunKeepsInvariant(Init(calling), steps);
  }

  lemma {:induction false} RunIsSafeIsRun(s: State, steps: seq<Step>)
    requires Inv(s) && RunIsSafe(s, steps)
    ensures IsRun(s, steps)
    decreases |steps|
  {
    if steps != [] {
      StepKeepsInvariant(s, steps[0]);
      RunIsSafeIsRun(Apply(s, steps[0]), steps[1..]);
    }
  }

  // ---------------------------------------------------------------- index agreement

  /** The indices describe the same timers, with their current expirations. */
  lemma IndicesAgree(s: State)
    requires Reachable(s)
    ensures |s.timers| == |s.active|
    ensures !s.phase.Destroyed? ==>
              forall when, addr :: Entry(when, addr) in s.timers <==>
                                   addr in s.heap && s.heap[addr].expiration == when
                                   && ActiveTimer(addr, s.heap[addr].sequence) in s.active
  {
    ReachableInv(s);
    if !s.phase.Destroyed? {
      SizesAgree(s.heap, s.timers, s.active);
      forall when, addr | Entry(when, addr) in s.timers
        ensures addr in s.heap && s.heap[addr].expiration == when
                && ActiveTimer(addr, s.heap[addr].sequence) in s.active
      {
        assert EntryOf(s.heap, addr) == Entry(when, addr);
      }
      forall when, addr | addr in s.heap && s.heap[addr].expiration == when
                          && ActiveTimer(addr, s.heap[addr].sequence) in s.active
        ensures Entry(when, addr) in s.timers
      {
        assert EntryOf(s.heap, addr) == Entry(when, addr);
      }
    }
  }

  // ---------------------------------------------------------------- ownership

  function Freed(s: State, n: int): nat { if n in s.freed then 1 else 0 }

  function Waiting(s: State, n: int): nat {
    if exists a :: a in s.heap && a in s.queued && s.heap[a].sequence == n then 1 else 0
  }

  function Active(s: State, n: int): nat {
    if exists a :: a in s.heap && ActiveTimer(a, n) in s.active && s.heap[a].sequence == n then 1 else 0
  }

  function Batched(s: State, n: int): nat {
    if exists a :: a in s.heap && InBatch(s.phase, a) && s.heap[a].sequence == n then 1 else 0
  }

  /** A timer ever created is freed, waits in the loop's queue, is active or is in the
      batch being run, exactly one of the four; and no timer is freed twice. */
  lemma OneOwner(s: State, n: int)
    requires Reachable(s) && 1 <= n <= s.created
    ensures Freed(s, n) + Waiting(s, n) + Active(s, n) + Batched(s, n) == 1
    ensures forall i, j :: 0 <= i < j < |s.freed| ==> s.freed[i] != s.freed[j]
  {
    ReachableInv(s);
    assert Numbered(s.heap, s.created, s.freed) && Owned(s.heap, s.queued, s.active, s.phase);
    hide Indexed, BatchDue, Alarmed, Punctual, Tombstoned;
    if n in s.freed {
    } else {
      assert HeapHas(s.heap, n);
      var a :| a in s.heap && s.heap[a].sequence == n;
      assert KeyOf(s.heap, a) == ActiveTimer(a, n);
      assert forall b :: b in s.heap && s.heap[b].sequence == n ==> b == a;
      assert Waiting(s, n) == if a in s.queued then 1 else 0;
      assert Active(s, n) == if KeyOf(s.heap, a) in s.active then 1 else 0;
      assert Batched(s, n) == if InBatch(s.phase, a) then 1 else 0;
    }
  }

  /** A timer once freed stays freed and never runs again. */
  lemma {:induction false} FreedTimersAreSilent(s: State, steps: seq<Step>)
    requires Inv(s) && IsRun(s, steps)
    ensures RunIsSafe(s, steps)
    ensures var r := Exec(s, steps);
            && s.freed <= r.freed && s.runs <= r.runs
            && forall k :: |s.runs| <= k < |r.runs| ==> r.runs[k].sequence !in s.freed
    decreases |steps|
  {
    if steps != [] {
      StepKeepsInvariant(s, steps[0]);
      StepExtendsHistories(s, steps[0]);
      FreedTimersAreSilent(Apply(s, steps[0]), steps[1..]);
    }
  }

  lemma StepExtendsHistories(s: State, step: Step)
    requires Inv(s) && Enabled(s, step) && Safe(s, step)
    ensures var r := Apply(s, step);
            && s.freed <= r.freed
            && (r.runs == s.runs || (|r.runs| == |s.runs| + 1 && s.runs <= r.runs && r.runs[|s.runs|].sequence !in s.freed))
  {
    match step
    case AddTimer(_, _, _, _) => hide Core;
    case AddElsewhere(_, _, _) => hide Core;
    case AddQueued(_, _) => hide Core;
    case Cancel(_) => hide Core;
    case BeginRead(_, _) => hide Core;
    case RunNext => hide Indexed, BatchDue, Owned, Alarmed, Punctual, Tombstoned;
    case EndRead(_) =>
      hide Core;
      ResetAllFreed(s.(calling := false));
    case Destroy =>
      hide Core;
      FreeAllFreed(s, s.timers);
  }

  lemma {:induction false} FreeAllFreed(s: State, es: seq<Entry>)
    ensures s.freed <= FreeAll(s, es).freed && FreeAll(s, es).runs == s.runs
    decreases |es|
  {
    if es != [] {
      FreeAllFreed(if es[0].addr in s.heap then Free(s, es[0].addr) else s, es[1..]);
    }
  }

  lemma {:induction false} ResetAllFreed(s: State)
    requires BatchAllocated(s)
    ensures s.freed <= ResetAll(s).freed && ResetAll(s).runs == s.runs
    decreases |s.phase.batch|
  {
    if s.phase.batch != [] {
      ResetAllFreed(ResetOne(s));
    }
  }

  // ---------------------------------------------------------------- time

  /** Outside handleRead the descriptor is armed for no later than the earliest timer,
      and then fires in time up to the floor of 100 microseconds. */
  lemma NoMissedAlarm(s: State)
    requires Reachable(s) && s.phase.Idle? && s.timers != []
    ensures s.alarm.Armed?
    ensures forall e :: e in s.timers ==>
                          && s.alarm.requested <= e.when
                          && (FiresAt(s.alarm.requested, s.alarm.at) <= 1000 * e.when
                              || FiresAt(s.alarm.requested, s.alarm.at) == 1000 * (s.alarm.at + 100))
  {
    ReachableInv(s);
    assert s.timers[0] in s.timers;
    forall e | e in s.timers
      ensures FiresAt(s.alarm.requested, s.alarm.at) <= 1000 * e.when
              || FiresAt(s.alarm.requested, s.alarm.at) == 1000 * (s.alarm.at + 100)
    {
      FiresInTime(s.alarm.requested, s.alarm.at, e.when);
    }
  }

  /** No callback runs early, a one-shot runs at most once, and two runs of a repeating
      timer are an interval apart, but for less than a microsecond. */
  lemma CallbacksAreOnTime(s: State, j: nat)
    requires Reachable(s) && j < |s.runs|
    ensures s.runs[j].expiration <= s.runs[j].now
    ensures forall i :: 0 <= i < j && s.runs[i].sequence == s.runs[j].sequence ==>
                          && s.runs[i].interval > 0.0
                          && s.runs[i].interval * 1000000.0 < (s.runs[j].now - s.runs[i].now) as real + 1.0
  {
    ReachableInv(s);
    assert RunsOnTime(s.runs);
    assert s.runs[j] in s.runs;
    hide Delta;
    forall i | 0 <= i < j && s.runs[i].sequence == s.runs[j].sequence
      ensures s.runs[i].interval > 0.0
      ensures s.runs[i].interval * 1000000.0 < (s.runs[j].now - s.runs[i].now) as real + 1.0
    {
      DeltaIsExact(s.runs[i].interval);
    }
  }

  // ---------------------------------------------------------------- what the alarm is set for

  /** The descriptor was just asked for the earliest expiration. */
  predicate AskedForEarliest(s: State, clock: int) {
    && s.alarm.Armed? && s.alarm.at == clock
    && (exists e :: e in s.timers && e.when == s.alarm.requested)
    && (forall e :: e in s.timers ==> s.alarm.requested <= e.when)
  }

  lemma EarliestFirst(ts: seq<Entry>)
    requires Sorted(ts) && ts != []
    ensures ts[0] in ts && forall e :: e in ts ==> ts[0].when <= e.when
  {
    FirstIsEarliest(ts);
  }

  lemma TimersSorted(s: State)
    requires Inv(s)
    ensures Sorted(s.timers)
  {
    hide BatchDue, Owned, Numbered, Alarmed, Punctual, Tombstoned;
  }

  /** When a batch ends with a valid timestamp first, the descriptor is asked for exactly the
      earliest expiration, at the time read then; otherwise it is left alone. */
  lemma AlarmAtEnd(s: State, clock: int)
    requires Inv(s) && Enabled(s, EndRead(clock))
    ensures Safe(s, EndRead(clock))
    ensures var r := Apply(s, EndRead(clock));
            if r.timers != [] && (forall e :: e in r.timers ==> e.when > 0) then AskedForEarliest(r, clock)
            else r.alarm == s.alarm
  {
    StepKeepsInvariant(s, EndRead(clock));
    EndOpened(s, clock);
    var r := Apply(s, EndRead(clock));
    TimersSorted(r);
    hide Inv, Indexed, BatchDue, Owned, Numbered, Alarmed, Punctual, Tombstoned, ResetAll, Apply, Safe;
    if r.timers != [] {
      EarliestFirst(r.timers);
    }
  }

  /** An addition asks for the new timer exactly when it is earlier than all others. */
  lemma AlarmAtAdd(s: State, addr: Addr, clock: int)
    requires Sorted(s.timers) && addr in s.heap
    ensures var r := AddInLoop(s, addr, clock);
            if forall e :: e in s.timers ==> s.heap[addr].expiration < e.when then
              r.alarm.Armed? && r.alarm.requested == s.heap[addr].expiration && AskedForEarliest(r, clock)
            else r.alarm == s.alarm
  {
    var r := AddInLoop(s, addr, clock);
    var e := Entry(s.heap[addr].expiration, addr);
    assert e in r.timers;
    if s.timers != [] {
      EarliestFirst(s.timers);
    }
  }

  /** The clock that a step reads while arming. */
  function ClockOf(step: Step): int {
    match step
    case AddTimer(_, _, _, clock) => clock
    case AddQueued(_, clock) => clock
    case EndRead(clock) => clock
    case _ => 0
  }

  lemma AlarmChanges(s: State, step: Step)
    requires Inv(s) && Enabled(s, step)
    ensures Safe(s, step)
    ensures var r := Apply(s, step);
            r.alarm == s.alarm || AskedForEarliest(r, ClockOf(step)) || (r.alarm.Disarmed? && step.BeginRead? && step.drained)
  {
    StepIsSafe(s, step);
    TimersSorted(s);
    hide Inv, Safe;
    match step
    case AddTimer(addr, when, interval, clock) => AlarmAtAdd(Allocate(s, addr, when, interval), addr, clock);
    case AddQueued(addr, clock) => AlarmAtAdd(s.(queued := s.queued - {addr}), addr, clock);
    case EndRead(clock) => AlarmAtEnd(s, clock);
    case Destroy => FreeAllAlarm(s, s.timers);
    case _ =>
  }

  lemma {:induction false} FreeAllAlarm(s: State, es: seq<Entry>)
    ensures FreeAll(s, es).alarm == s.alarm
    decreases |es|
  {
    if es != [] {
      FreeAllAlarm(if es[0].addr in s.heap then Free(s, es[0].addr) else s, es[1..]);
    }
  }

  lemma FrontOfRun(s: State, steps: seq<Step>, k: nat)
    requires steps != [] && k < |steps[1..]| && RunIsSafe(s, steps) && RunIsSafe(Apply(s, steps[0]), steps[1..][..k + 1])
    ensures RunIsSafe(s, steps[..k + 2])
    ensures Exec(s, steps[..k + 2]) == Exec(Apply(s, steps[0]), steps[1..][..k + 1])
  {
    hide Apply, Safe, Enabled;
    assert steps[..k + 2][0] == steps[0] && steps[..k + 2][1..] == steps[1..][..k + 1];
  }

  /** The alarm of a state was set by the k-th of these steps. */
  predicate AskedAt(s: State, steps: seq<Step>, k: nat, alarm: Alarm) {
    && k < |steps| && RunIsSafe(s, steps[..k + 1])
    && Exec(s, steps[..k + 1]).alarm == alarm && AskedForEarliest(Exec(s, steps[..k + 1]), ClockOf(steps[k]))
  }

  lemma {:induction false} AlarmAskedOnTheWay(s: State, steps: seq<Step>)
    requires Inv(s) && RunIsSafe(s, steps) && Exec(s, steps).alarm.Armed?
    ensures Exec(s, steps).alarm == s.alarm || exists k: nat :: AskedAt(s, steps, k, Exec(s, steps).alarm)
    decreases |steps|
  {
    hide Inv, Apply, Safe, Enabled, AskedForEarliest;
    if steps != [] {
      var m := Apply(s, steps[0]);
      var alarm := Exec(s, steps).alarm;
      StepKeepsInvariant(s, steps[0]);
      AlarmChanges(s, steps[0]);
      AlarmAskedOnTheWay(m, steps[1..]);
      if k: nat :| AskedAt(m, steps[1..], k, alarm) {
        FrontOfRun(s, steps, k);
        assert steps[1..][k] == steps[k + 1] && steps[..k + 2] == steps[..(k + 1) + 1];
        assert AskedAt(s, steps, k + 1, alarm);
      } else if m.alarm != s.alarm {
        OneStepRun(s, steps);
        assert AskedAt(s, steps, 0, alarm);
      }
    }
  }

  lemma OneStepRun(s: State, steps: seq<Step>)
    requires steps != [] && RunIsSafe(s, steps)
    ensures RunIsSafe(s, steps[..1]) && Exec(s, steps[..1]) == Apply(s, steps[0])
  {
    hide Apply, Safe, Enabled;
    assert steps[..1] == [steps[0]] && steps[..1][1..] == [];
    assert Exec(Apply(s, steps[0]), []) == Apply(s, steps[0]);
  }

  /** In every run: an armed request is the expiration of a timer that was the earliest of all
      when it was asked for, at the time read then. */
  lemma RequestWasEarliest(calling: bool, steps: seq<Step>)
    requires RunIsSafe(Init(calling), steps) && Exec(Init(calling), steps).alarm.Armed?
    ensures exists k: nat :: AskedAt(Init(calling), steps, k, Exec(Init(calling), steps).alarm)
  {
    InitInv(calling);
    hide Inv, Apply, Safe, Enabled, AskedForEarliest, Exec, RunIsSafe;
    AlarmAskedOnTheWay(Init(calling), steps);
  }

  // ---------------------------------------------------------------- cancelling

  lemma CancelInIndices(s: State, id: ActiveTimer)
    requires Indexed(s.heap, s.timers, s.active)
    ensures id in s.active ==> id.addr in s.heap
    ensures var r := CancelInLoop(s, id);
            && (forall a :: a in s.heap && KeyOf(s.heap, a) != id ==>
                              && Untouched(s, r, a)
                              && (EntryOf(s.heap, a) in r.timers <==> EntryOf(s.heap, a) in s.timers)
                              && (KeyOf(s.heap, a) in r.canceling <==> KeyOf(s.heap, a) in s.canceling))
            && (if id in s.active then id !in r.active && id.addr !in r.heap && r.freed == s.freed + [id.sequence]
                else r == s.(canceling := r.canceling, phase := r.phase))
  {
  }

  /** cancel deletes exactly the timer its id names.  An id that names no active timer,
      such as one whose address now belongs to another timer, changes no timer at all;
      at most it leaves a tombstone under its own sequence number. */
  lemma CancelTouchesOnlyItsTimer(s: State, id: ActiveTimer)
    requires Inv(s) && Enabled(s, Cancel(id))
    ensures Safe(s, Cancel(id))
    ensures var r := Apply(s, Cancel(id));
            && (forall a :: a in s.heap && KeyOf(s.heap, a) != id ==>
                              && Untouched(s, r, a)
                              && (EntryOf(s.heap, a) in r.timers <==> EntryOf(s.heap, a) in s.timers)
                              && (KeyOf(s.heap, a) in r.canceling <==> KeyOf(s.heap, a) in s.canceling))
            && (if id in s.active then id !in r.active && id.addr !in r.heap && r.freed == s.freed + [id.sequence]
                else r == s.(canceling := r.canceling, phase := r.phase))
  {
    StepIsSafe(s, Cancel(id));
    hide Indexed, Owned, Numbered, Alarmed, Punctual, Tombstoned;
    CancelInIndices(s, id);
  }

  // ---------------------------------------------------------------- one whole batch

  /** The ids passed to cancel. */
  function CancelIds(steps: seq<Step>): set<ActiveTimer> {
    if steps == [] then {}
    else (match steps[0] case Cancel(id) => {id} case _ => {}) + CancelIds(steps[1..])
  }

  /** Steps that callbacks and other threads take while a batch runs. */
  predicate Inside(steps: seq<Step>) {
    forall step :: step in steps ==> !step.BeginRead? && !step.EndRead? && !step.Destroy?
  }

  /** What running the callbacks of these entries adds to the history. */
  function RunsOf(heap: Heap, es: seq<Entry>, now: int): seq<Run>
    requires forall e :: e in es ==> e.addr in heap
  {
    seq(|es|, i requires 0 <= i < |es| =>
      assert es[i] in es;
      var t := heap[es[i].addr]; Run(t.sequence, now, t.expiration, t.interval))
  }

  /** Same batch, with the same timers in it. */
  predicate SameBatch(s: State, r: State) {
    && s.phase.Running? && r.phase.Running?
    && r.phase.batch == s.phase.batch && r.phase.now == s.phase.now
    && s.phase.next <= r.phase.next <= |s.phase.batch|
    && (forall e :: e in s.phase.batch ==> e.addr in s.heap && e.addr in r.heap && r.heap[e.addr] == s.heap[e.addr])
  }

  predicate RanUpTo(s: State, r: State)
    requires SameBatch(s, r)
  {
    r.runs == s.runs + RunsOf(s.heap, s.phase.batch, s.phase.now)[s.phase.next..r.phase.next]
  }

  predicate BatchSettled(s: State) {
    && s.phase.Running? && s.phase.next <= |s.phase.batch|
    && (forall e :: e in s.phase.batch ==> e.addr in s.heap)
    && (forall e, k :: e in s.phase.batch && k in s.active ==> e.addr != k.addr)
  }

  lemma BatchIsSettled(s: State)
    requires Inv(s) && s.phase.Running?
    ensures BatchSettled(s)
  {
    hide Numbered, Alarmed, Punctual, Tombstoned;
    forall e, k | e in s.phase.batch && k in s.active ensures e.addr != k.addr {
      assert InBatch(s.phase, e.addr) && k == KeyOf(s.heap, k.addr);
    }
  }

  predicate InsideStep(step: Step) {
    !step.BeginRead? && !step.EndRead? && !step.Destroy?
  }

  lemma RunNextInside(s: State)
    requires BatchSettled(s) && s.phase.next < |s.phase.batch|
    ensures s.phase.batch[s.phase.next].addr in s.heap
    ensures SameBatch(s, RunCallback(s)) && RanUpTo(s, RunCallback(s))
  {
    var runs := RunsOf(s.heap, s.phase.batch, s.phase.now);
    assert s.phase.batch[s.phase.next] in s.phase.batch;
    assert runs[s.phase.next..s.phase.next + 1] == [runs[s.phase.next]];
  }

  /** Additions and cancellations leave the timers of the batch alone. */
  lemma OthersInside(s: State, step: Step)
    requires BatchSettled(s) && Enabled(s, step) && Safe(s, step) && InsideStep(step) && !step.RunNext?
    ensures var r := Apply(s, step);
            && SameBatch(s, r) && r.runs == s.runs && r.phase.next == s.phase.next
            && r.phase.cancels == s.phase.cancels + (match step case Cancel(id) => {id} case _ => {})
  {
  }

  lemma StepInside(s: State, step: Step)
    requires BatchSettled(s) && Enabled(s, step) && Safe(s, step) && InsideStep(step)
    ensures SameBatch(s, Apply(s, step)) && RanUpTo(s, Apply(s, step))
    ensures Apply(s, step).phase.cancels == s.phase.cancels + match step case Cancel(id) => {id} case _ => {}
  {
    if step.RunNext? {
      RunNextInside(s);
    } else {
      OthersInside(s, step);
      hide Apply, Safe, Enabled, RunsOf;
    }
  }

  lemma SameBatchChains(s: State, m: State, r: State)
    requires SameBatch(s, m) && RanUpTo(s, m) && SameBatch(m, r) && RanUpTo(m, r)
    ensures SameBatch(s, r) && RanUpTo(s, r)
  {
    var all := RunsOf(s.heap, s.phase.batch, s.phase.now);
    assert RunsOf(m.heap, m.phase.batch, m.phase.now) == all;
    assert all[s.phase.next..m.phase.next] + all[m.phase.next..r.phase.next] == all[s.phase.next..r.phase.next];
  }

  lemma SameBatchStays(s: State)
    requires BatchSettled(s)
    ensures SameBatch(s, s) && RanUpTo(s, s)
  {
  }

  lemma StepKeepsBatch(s: State, step: Step)
    requires Inv(s) && s.phase.Running? && Enabled(s, step) && InsideStep(step)
    ensures Safe(s, step) && Inv(Apply(s, step)) && Apply(s, step).phase.Running?
    ensures SameBatch(s, Apply(s, step)) && RanUpTo(s, Apply(s, step))
    ensures Apply(s, step).phase.cancels == s.phase.cancels + match step case Cancel(id) => {id} case _ => {}
  {
    hide Inv, RanUpTo, Apply;
    BatchIsSettled(s);
    StepKeepsInvariant(s, step);
    StepInside(s, step);
  }

  lemma {:induction false} BodyKeepsBatch(s: State, steps: seq<Step>)
    requires Inv(s) && s.phase.Running? && IsRun(s, steps) && Inside(steps)
    ensures RunIsSafe(s, steps) && Inv(Exec(s, steps)) && Exec(s, steps).phase.Running?
    ensures SameBatch(s, Exec(s, steps)) && RanUpTo(s, Exec(s, steps))
    ensures Exec(s, steps).phase.cancels == s.phase.cancels + CancelIds(steps)
    decreases |steps|
  {
    hide Inv, Apply, Safe, Enabled, SameBatch, RanUpTo, BatchSettled;
    BatchIsSettled(s);
    if steps == [] {
      SameBatchStays(s);
    } else {
      assert steps[0] in steps;
      assert InsideStep(steps[0]) && Inside(steps[1..]);
      StepKeepsBatch(s, steps[0]);
      var m := Apply(s, steps[0]);
      BodyKeepsBatch(m, steps[1..]);
      SameBatchChains(s, m, Exec(m, steps[1..]));
    }
  }

  /** Restarted, in both indices. */
  predicate BackAt(r: State, addr: Addr, t: Timer) {
    && addr in r.heap && r.heap[addr] == t
    && ActiveTimer(addr, t.sequence) in r.active && Entry(t.expiration, addr) in r.timers
  }

  /** Deleted, in neither index. */
  predicate GoneFrom(r: State, addr: Addr, sequence: int) {
    && addr !in r.heap && sequence in r.freed
    && ActiveTimer(addr, sequence) !in r.active && forall e :: e in r.timers ==> e.addr != addr
  }

  lemma IndexedMeans(heap: Heap, timers: seq<Entry>, active: set<ActiveTimer>, addr: Addr, sequence: int)
    requires Indexed(heap, timers, active)
    ensures addr !in heap ==> ActiveTimer(addr, sequence) !in active && forall e :: e in timers ==> e.addr != addr
    ensures addr in heap && KeyOf(heap, addr) in active ==> EntryOf(heap, addr) in timers
  {
  }

  lemma EndOpened(q: State, clock: int)
    requires Inv(q) && Enabled(q, EndRead(clock)) && Safe(q, EndRead(clock))
    ensures var m := q.(calling := false); var r := Apply(q, EndRead(clock));
            && BatchDue(q.heap, q.phase) && Tombstoned(q.heap, q.canceling, q.phase)
            && ResetTo(m, ResetAll(m)) && r == Rearm(ResetAll(m), clock).(phase := Idle)
            && Indexed(r.heap, r.timers, r.active)
  {
    StepKeepsInvariant(q, EndRead(clock));
    hide Indexed, BatchDue, Owned, Numbered, Alarmed, Punctual, Tombstoned, ResetAll;
    ResetAllOutcome(q.(calling := false));
  }

  lemma FateAtEnd(q: State, clock: int, addr: Addr)
    requires Inv(q) && Enabled(q, EndRead(clock)) && Safe(q, EndRead(clock)) && InBatch(q.phase, addr)
    ensures addr in q.heap
    ensures var t := q.heap[addr];
            var r := Apply(q, EndRead(clock));
            if t.Repeat() && ActiveTimer(addr, t.sequence) !in q.phase.cancels then
              BackAt(r, addr, t.(expiration := AddTime(q.phase.now, t.interval)))
            else
              GoneFrom(r, addr, t.sequence)
  {
    EndOpened(q, clock);
    hide Inv, Indexed, ResetAll, Apply, Safe;
    var m := q.(calling := false);
    var r := Apply(q, EndRead(clock));
    var e :| e in q.phase.batch && e.addr == addr;
    assert e in m.phase.batch;
    IndexedMeans(r.heap, r.timers, r.active, addr, q.heap[addr].sequence);
  }

  /** From s to r every due timer was restarted if it repeats and was not cancelled, and
      deleted otherwise. */
  predicate BatchSettledAs(s: State, r: State, now: int, cancelled: set<ActiveTimer>) {
    forall e :: e in s.timers && e.when <= now ==>
                  && e.addr in s.heap
                  && var t := s.heap[e.addr];
                  if t.Repeat() && ActiveTimer(e.addr, t.sequence) !in cancelled then
                    BackAt(r, e.addr, t.(expiration := AddTime(now, t.interval)))
                  else
                    GoneFrom(r, e.addr, t.sequence)
  }

  lemma BatchStarts(s: State, now: int, drained: bool)
    requires Inv(s) && Enabled(s, BeginRead(now, drained))
    ensures Safe(s, BeginRead(now, drained)) && Inv(Apply(s, BeginRead(now, drained)))
    ensures var m := Apply(s, BeginRead(now, drained));
            m.heap == s.heap && m.runs == s.runs && m.phase == Running(now, Due(s.timers, now), 0, {})
    ensures forall e :: e in s.timers ==> e.addr in s.heap
  {
    hide Inv;
    StepKeepsInvariant(s, BeginRead(now, drained));
  }

  lemma EndKeepsRuns(q: State, clock: int)
    requires Enabled(q, EndRead(clock)) && Safe(q, EndRead(clock))
    ensures Apply(q, EndRead(clock)).runs == q.runs && Apply(q, EndRead(clock)).phase.Idle?
    ensures q.phase.Running? && q.phase.next == |q.phase.batch|
  {
    ResetAllFreed(q.(calling := false));
  }

  lemma BatchEnds(s: State, q: State, now: int, clock: int)
    requires Inv(q) && Enabled(q, EndRead(clock)) && Safe(q, EndRead(clock))
    requires q.phase.Running? && q.phase.now == now && q.phase.batch == Due(s.timers, now)
    requires forall e :: e in Due(s.timers, now) ==> e.addr in s.heap && e.addr in q.heap && q.heap[e.addr] == s.heap[e.addr]
    ensures BatchSettledAs(s, Apply(q, EndRead(clock)), now, q.phase.cancels)
  {
    hide Inv, Apply, Safe, Enabled, BackAt, GoneFrom;
    var r := Apply(q, EndRead(clock));
    forall e | e in s.timers && e.when <= now
      ensures e.addr in s.heap
      ensures var t := s.heap[e.addr];
              if t.Repeat() && ActiveTimer(e.addr, t.sequence) !in q.phase.cancels then
                BackAt(r, e.addr, t.(expiration := AddTime(now, t.interval)))
              else
                GoneFrom(r, e.addr, t.sequence)
    {
      assert e in q.phase.batch && InBatch(q.phase, e.addr);
      FateAtEnd(q, clock, e.addr);
    }
  }

  /** A batch from its two ends. */
  lemma BatchSettles(s: State, now: int, drained: bool, body: seq<Step>, clock: int)
    requires Inv(s) && Enabled(s, BeginRead(now, drained)) && Safe(s, BeginRead(now, drained))
    requires var m := Apply(s, BeginRead(now, drained));
             && Inside(body) && RunIsSafe(m, body)
             && Enabled(Exec(m, body), EndRead(clock)) && Safe(Exec(m, body), EndRead(clock))
    ensures var r := Apply(Exec(Apply(s, BeginRead(now, drained)), body), EndRead(clock));
            && r.phase.Idle?
            && r.runs == s.runs + RunsOf(s.heap, Due(s.timers, now), now)
            && BatchSettledAs(s, r, now, CancelIds(body))
  {
    var m := Apply(s, BeginRead(now, drained));
    var q := Exec(m, body);
    hide Inv, Apply, Safe, Enabled, Exec, IsRun, RunIsSafe;
    BatchStarts(s, now, drained);
    RunIsSafeIsRun(m, body);
    BodyKeepsBatch(m, body);
    EndKeepsRuns(q, clock);
    var all := RunsOf(s.heap, Due(s.timers, now), now);
    assert all[0..|all|] == all;
    BatchEnds(s, q, now, clock);
  }

  lemma {:induction false} LastStep(s: State, body: seq<Step>, last: Step)
    requires RunIsSafe(s, body + [last])
    ensures RunIsSafe(s, body) && Enabled(Exec(s, body), last) && Safe(Exec(s, body), last)
    ensures Exec(s, body + [last]) == Apply(Exec(s, body), last)
    decreases |body|
  {
    hide Apply, Safe, Enabled;
    if body == [] {
      assert [] + [last] == [last] && [last][1..] == [];
      assert Exec(Apply(s, last), []) == Apply(s, last);
    } else {
      assert (body + [last])[0] == body[0] && (body + [last])[1..] == body[1..] + [last];
      LastStep(Apply(s, body[0]), body[1..], last);
    }
  }

  /** handleRead, with whatever its callbacks and other threads do meanwhile. */
  function BatchSteps(now: int, drained: bool, body: seq<Step>, clock: int): seq<Step> {
    [BeginRead(now, drained)] + (body + [EndRead(clock)])
  }

  /** handleRead from end to end, whatever the callbacks do in `body`.  Every due timer
      runs once, in order of expiration.  Then a repeating timer that nobody cancelled
      during the batch is back in both indices, one interval after now; any other timer
      of the batch, including one cancelled by itself or by a peer any number of times,
      is deleted and in neither index. */
  lemma WholeBatch(s: State, now: int, drained: bool, body: seq<Step>, clock: int)
    requires Inv(s) && Inside(body) && IsRun(s, BatchSteps(now, drained, body, clock))
    ensures RunIsSafe(s, BatchSteps(now, drained, body, clock))
    ensures forall e :: e in Due(s.timers, now) ==> e.addr in s.heap
    ensures var r := Exec(s, BatchSteps(now, drained, body, clock));
            && r.phase.Idle?
            && r.runs == s.runs + RunsOf(s.heap, Due(s.timers, now), now)
            && BatchSettledAs(s, r, now, CancelIds(body))
  {
    hide Inv, Apply, Safe, Enabled, Inside, BatchSettledAs, RunsOf;
    var steps := BatchSteps(now, drained, body, clock);
    RunKeepsInvariant(s, steps);
    assert steps[0] == BeginRead(now, drained) && steps[1..] == body + [EndRead(clock)];
    BatchStarts(s, now, drained);
    LastStep(Apply(s, steps[0]), body, EndRead(clock));
    BatchSettles(s, now, drained, body, clock);
  }

  /** The same for one due timer, in numbers: restarted, it expires one interval after now, but
      for less than a microsecond; otherwise it is gone. */
  lemma FateOfDue(s: State, now: int, drained: bool, body: seq<Step>, clock: int, e: Entry)
    requires Inv(s) && Inside(body) && IsRun(s, BatchSteps(now, drained, body, clock))
    requires e in s.timers && e.when <= now
    ensures RunIsSafe(s, BatchSteps(now, drained, body, clock)) && e.addr in s.heap
    ensures var r := Exec(s, BatchSteps(now, drained, body, clock));
            var t := s.heap[e.addr];
            if t.interval > 0.0 && ActiveTimer(e.addr, t.sequence) !in CancelIds(body) then
              && e.addr in r.heap && r.heap[e.addr].sequence == t.sequence && r.heap[e.addr].interval == t.interval
              && Entry(r.heap[e.addr].expiration, e.addr) in r.timers && ActiveTimer(e.addr, t.sequence) in r.active
              && (r.heap[e.addr].expiration - now) as real <= t.interval * 1000000.0
              && t.interval * 1000000.0 < (r.heap[e.addr].expiration - now) as real + 1.0
            else
              e.addr !in r.heap && t.sequence in r.freed && forall x :: x in r.timers ==> x.addr != e.addr
  {
    hide Inv, Apply, Safe, Enabled, Inside, RunsOf, Delta, IsRun, RunIsSafe, Exec;
    WholeBatch(s, now, drained, body, clock);
    DeltaIsExact(s.heap[e.addr].interval);
  }
}
