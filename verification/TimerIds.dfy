/** addTimer as other threads call it.  The timer is handed to the loop first, and its sequence
    number is read through the pointer afterwards; in between the loop may do anything. */
module TimerIds {
  import opened TimerModel
  import opened TimerProofs
  import TimerRuns

  type Thread = nat

  /** A call between the two: the pointer, and the number of the timer it was made for. */
  datatype Call = Call(addr: Addr, sequence: int)

  datatype Callers = Callers(queue: State, calls: map<Thread, Call>)

  function Begin(calling: bool): Callers {
    Callers(Init(calling), map[])
  }

  datatype Step =
    | Loop(step: TimerModel.Step)
    | HandOver(thread: Thread, addr: Addr, when: int, interval: real)
    | ReadId(thread: Thread)

  predicate Enabled(c: Callers, step: Step) {
    match step
    case Loop(inner) => !inner.AddElsewhere? && TimerModel.Enabled(c.queue, inner)
    case HandOver(thread, addr, when, interval) =>
      thread !in c.calls && TimerModel.Enabled(c.queue, AddElsewhere(addr, when, interval))
    case ReadId(thread) => thread in c.calls
  }

  /** The timer of a call is still where it was put. */
  predicate StillThere(s: State, call: Call) {
    call.addr in s.heap && s.heap[call.addr].sequence == call.sequence
  }

  /** A read through the pointer needs the timer it points at. */
  predicate Safe(c: Callers, step: Step)
    requires Enabled(c, step)
  {
    match step
    case Loop(inner) => TimerModel.Safe(c.queue, inner)
    case HandOver(_, _, _, _) => true
    case ReadId(thread) => StillThere(c.queue, c.calls[thread])
  }

  function Apply(c: Callers, step: Step): Callers
    requires Enabled(c, step) && Safe(c, step)
  {
    match step
    case Loop(inner) => c.(queue := TimerModel.Apply(c.queue, inner))
    case HandOver(thread, addr, when, interval) =>
      Callers(TimerModel.Apply(c.queue, AddElsewhere(addr, when, interval)),
              c.calls[thread := Call(addr, c.queue.created + 1)])
    case ReadId(thread) => c.(calls := c.calls - {thread})
  }

  /** What the read finds at the address, whosever it is by then. */
  function IdRead(c: Callers, thread: Thread): ActiveTimer
    requires thread in c.calls && c.calls[thread].addr in c.queue.heap
  {
    KeyOf(c.queue.heap, c.calls[thread].addr)
  }

  predicate IsRun(c: Callers, steps: seq<Step>)
    decreases |steps|
  {
    steps == [] || (Enabled(c, steps[0]) && (Safe(c, steps[0]) ==> IsRun(Apply(c, steps[0]), steps[1..])))
  }

  predicate RunIsSafe(c: Callers, steps: seq<Step>)
    decreases |steps|
  {
    steps == [] ||
    (Enabled(c, steps[0]) && Safe(c, steps[0]) && RunIsSafe(Apply(c, steps[0]), steps[1..]))
  }

  function Exec(c: Callers, steps: seq<Step>): Callers
    requires RunIsSafe(c, steps)
    decreases |steps|
  {
    if steps == [] then c else Exec(Apply(c, steps[0]), steps[1..])
  }

  // ---------------------------------------------------------------- what becomes of one timer

  lemma {:induction false} FreeAllFrees(s: State, es: seq<Entry>, a: Addr)
    requires a in s.heap
    ensures var r := FreeAll(s, es);
            if a in r.heap then r.heap[a] == s.heap[a] else s.heap[a].sequence in r.freed
    decreases |es|
  {
    if es != [] {
      var b := es[0].addr;
      if b in s.heap && b == a {
        TimerRuns.FreeAllFreed(Free(s, a), es[1..]);
        assert Free(s, a).freed[|s.freed|] == s.heap[a].sequence;
        TimerRuns.FreeAllLeaves(Free(s, a), es[1..]);
      } else {
        FreeAllFrees(if b in s.heap then Free(s, b) else s, es[1..], a);
      }
    }
  }

  /** The same timer, apart from its expiration. */
  predicate SameTimer(s: State, r: State, a: Addr)
    requires a in s.heap
  {
    a in r.heap && r.heap[a].sequence == s.heap[a].sequence && r.heap[a].interval == s.heap[a].interval
  }

  lemma CancelFate(s: State, id: ActiveTimer, a: Addr)
    requires TimerProofs.Inv(s) && TimerModel.Enabled(s, Cancel(id)) && a in s.heap
    ensures TimerModel.Safe(s, Cancel(id))
    ensures var r := TimerModel.Apply(s, Cancel(id));
            if KeyOf(s.heap, a) == id && id in s.active then s.heap[a].sequence in r.freed
            else SameTimer(s, r, a) && r.phase == NoteCancel(s.phase, id)
  {
    TimerRuns.CancelTouchesOnlyItsTimer(s, id);
    hide Indexed, BatchDue, Owned, Numbered, Alarmed, Punctual, Tombstoned;
  }

  lemma EndOutsideBatch(s: State, clock: int, a: Addr)
    requires TimerProofs.Inv(s) && TimerModel.Enabled(s, EndRead(clock)) && a in s.heap
    ensures TimerModel.Safe(s, EndRead(clock)) && TimerModel.Apply(s, EndRead(clock)).phase.Idle?
    ensures !InBatch(s.phase, a) ==> SameTimer(s, TimerModel.Apply(s, EndRead(clock)), a)
  {
    TimerRuns.StepIsSafe(s, EndRead(clock));
    TimerRuns.EndOpened(s, clock);
    hide TimerProofs.Inv, Indexed, BatchDue, Tombstoned, ResetAll, TimerModel.Apply, TimerModel.Safe, InBatch, Restarted, Deleted, Survives;
    assert !InBatch(s.phase, a) ==> Untouched(s.(calling := false), ResetAll(s.(calling := false)), a);
  }

  lemma EndFate(s: State, clock: int, a: Addr)
    requires TimerProofs.Inv(s) && TimerModel.Enabled(s, EndRead(clock)) && a in s.heap
    ensures TimerModel.Safe(s, EndRead(clock))
    ensures var r := TimerModel.Apply(s, EndRead(clock));
            && r.phase.Idle?
            && (if InBatch(s.phase, a) && !(s.heap[a].Repeat() && KeyOf(s.heap, a) !in s.phase.cancels)
                then s.heap[a].sequence in r.freed else SameTimer(s, r, a))
  {
    hide TimerProofs.Inv, TimerModel.Apply, TimerModel.Safe, InBatch;
    EndOutsideBatch(s, clock, a);
    if InBatch(s.phase, a) {
      TimerRuns.FateAtEnd(s, clock, a);
    }
  }

  /** The other steps change no timer, and a batch begins with nothing cancelled. */
  lemma OthersSpare(s: State, step: TimerModel.Step, a: Addr)
    requires TimerModel.Enabled(s, step) && TimerModel.Safe(s, step) && a in s.heap
    requires !step.Destroy? && !step.Cancel? && !step.EndRead?
    ensures var r := TimerModel.Apply(s, step);
            && a in r.heap && r.heap[a] == s.heap[a]
            && (r.phase.Destroyed? <==> s.phase.Destroyed?)
            && (if step.BeginRead? then r.phase.Running? && r.phase.cancels == {}
                else if s.phase.Running? then r.phase.Running? && r.phase.batch == s.phase.batch && r.phase.cancels == s.phase.cancels
                else r.phase == s.phase)
  {
    hide Insert, Later, Due, Keys, EarliestChanged;
  }

  lemma DestroyFate(s: State, a: Addr)
    requires TimerModel.Enabled(s, Destroy) && TimerModel.Safe(s, Destroy) && a in s.heap
    ensures var r := TimerModel.Apply(s, Destroy);
            SameTimer(s, r, a) || s.heap[a].sequence in r.freed
  {
    FreeAllFrees(s, s.timers, a);
  }

  /** A timer stays as it is or is freed. */
  lemma StepKeepsTimer(s: State, step: TimerModel.Step, a: Addr)
    requires TimerProofs.Inv(s) && TimerModel.Enabled(s, step) && a in s.heap
    ensures TimerModel.Safe(s, step)
    ensures var r := TimerModel.Apply(s, step);
            SameTimer(s, r, a) || s.heap[a].sequence in r.freed
  {
    TimerRuns.StepIsSafe(s, step);
    hide TimerProofs.Inv, TimerModel.Safe, TimerModel.Apply, TimerModel.Enabled;
    match step
    case Cancel(id) => CancelFate(s, id, a);
    case EndRead(clock) => EndFate(s, clock, a);
    case Destroy => DestroyFate(s, a);
    case _ => OthersSpare(s, step, a);
  }

  // ---------------------------------------------------------------- the invariant

  ghost predicate CallKnown(s: State, call: Call) {
    1 <= call.sequence <= s.created && (call.sequence in s.freed || StillThere(s, call))
  }

  ghost predicate Inv(c: Callers) {
    && TimerProofs.Inv(c.queue)
    && (forall thread :: thread in c.calls ==> CallKnown(c.queue, c.calls[thread]))
  }

  /** A read is safe exactly as long as the timer has not been freed. */
  lemma ReadIsSafeIff(c: Callers, thread: Thread)
    requires Inv(c) && thread in c.calls
    ensures Safe(c, ReadId(thread)) <==> c.calls[thread].sequence !in c.queue.freed
  {
    var call := c.calls[thread];
    assert CallKnown(c.queue, call);
    if StillThere(c.queue, call) {
      AllocatedIsNotFreed(c.queue, call.addr);
    }
  }

  lemma AllocatedIsNotFreed(s: State, a: Addr)
    requires TimerProofs.Inv(s) && a in s.heap
    ensures s.heap[a].sequence !in s.freed && 1 <= s.heap[a].sequence <= s.created
  {
    hide Indexed, BatchDue, Owned, Alarmed, Punctual, Tombstoned;
  }

  lemma CountGrows(s: State, step: TimerModel.Step)
    requires TimerProofs.Inv(s) && TimerModel.Enabled(s, step)
    ensures TimerModel.Safe(s, step) && s.created <= TimerModel.Apply(s, step).created
    ensures s.freed <= TimerModel.Apply(s, step).freed
  {
    TimerRuns.StepIsSafe(s, step);
    TimerRuns.StepExtendsHistories(s, step);
    hide TimerProofs.Inv, TimerModel.Safe;
    match step
    case EndRead(clock) =>
      TimerRuns.StepIsSafe(s, step);
      TimerRuns.EndOpened(s, clock);
    case Destroy => CountKept(s, s.timers);
    case _ =>
  }

  lemma {:induction false} CountKept(s: State, es: seq<Entry>)
    ensures FreeAll(s, es).created == s.created
    decreases |es|
  {
    if es != [] {
      CountKept(if es[0].addr in s.heap then Free(s, es[0].addr) else s, es[1..]);
    }
  }

  lemma CallStaysKnown(s: State, step: TimerModel.Step, call: Call)
    requires TimerProofs.Inv(s) && TimerModel.Enabled(s, step) && CallKnown(s, call)
    ensures TimerModel.Safe(s, step) && CallKnown(TimerModel.Apply(s, step), call)
  {
    hide TimerProofs.Inv, TimerModel.Safe, TimerModel.Apply, TimerModel.Enabled;
    CountGrows(s, step);
    if StillThere(s, call) {
      StepKeepsTimer(s, step, call.addr);
    }
  }

  /** What handing over creates. */
  lemma HandOverCreates(s: State, addr: Addr, when: int, interval: real)
    requires TimerProofs.Inv(s) && TimerModel.Enabled(s, AddElsewhere(addr, when, interval))
    ensures var r := TimerModel.Apply(s, AddElsewhere(addr, when, interval));
            && addr in r.heap && r.heap[addr] == Timer(when, interval, s.created + 1)
            && CallKnown(r, Call(addr, s.created + 1))
            && r.phase == s.phase && !InBatch(r.phase, addr) && addr in r.queued
  {
    hide Numbered, Alarmed, Punctual, Tombstoned, Indexed;
    CountsFromZero(s);
  }

  lemma CountsFromZero(s: State)
    requires TimerProofs.Inv(s)
    ensures s.created >= 0
  {
    hide Indexed, BatchDue, Owned, Alarmed, Punctual, Tombstoned;
  }

  /** All steps but the read are safe, and every step that is safe keeps the invariant. */
  lemma StepKeepsCallers(c: Callers, step: Step)
    requires Inv(c) && Enabled(c, step)
    ensures !step.ReadId? ==> Safe(c, step)
    ensures Safe(c, step) ==> Inv(Apply(c, step))
  {
    hide TimerProofs.Inv, TimerModel.Safe, TimerModel.Apply, TimerModel.Enabled, CallKnown;
    match step
    case Loop(inner) =>
      TimerRuns.StepKeepsInvariant(c.queue, inner);
      forall thread | thread in c.calls ensures CallKnown(TimerModel.Apply(c.queue, inner), c.calls[thread]) {
        CallStaysKnown(c.queue, inner, c.calls[thread]);
      }
    case HandOver(_, addr, when, interval) =>
      var inner := AddElsewhere(addr, when, interval);
      TimerRuns.StepKeepsInvariant(c.queue, inner);
      HandOverCreates(c.queue, addr, when, interval);
      forall thread | thread in c.calls ensures CallKnown(TimerModel.Apply(c.queue, inner), c.calls[thread]) {
        CallStaysKnown(c.queue, inner, c.calls[thread]);
      }
    case ReadId(_) =>
  }

  lemma BeginInv(calling: bool)
    ensures Inv(Begin(calling))
  {
    InitInv(calling);
  }

  /** Every read comes before the timer of its call is freed. */
  predicate ReadsInTime(c: Callers, steps: seq<Step>)
    decreases |steps|
  {
    steps == [] ||
    (Enabled(c, steps[0])
     && (steps[0].ReadId? ==> c.calls[steps[0].thread].sequence !in c.queue.freed)
     && (Safe(c, steps[0]) ==> ReadsInTime(Apply(c, steps[0]), steps[1..])))
  }

  lemma {:induction false} RunFromIsSafeIff(c: Callers, steps: seq<Step>)
    requires Inv(c) && IsRun(c, steps)
    ensures RunIsSafe(c, steps) <==> ReadsInTime(c, steps)
    ensures RunIsSafe(c, steps) ==> Inv(Exec(c, steps))
    decreases |steps|
  {
    hide Inv, Enabled, Safe, Apply;
    if steps != [] {
      StepKeepsCallers(c, steps[0]);
      if steps[0].ReadId? {
        ReadIsEnabled(c, steps[0].thread);
        ReadIsSafeIff(c, steps[0].thread);
      }
      if Safe(c, steps[0]) {
        RunFromIsSafeIff(Apply(c, steps[0]), steps[1..]);
      }
    }
  }

  lemma ReadIsEnabled(c: Callers, thread: Thread)
    requires Enabled(c, ReadId(thread))
    ensures thread in c.calls
  {
  }

  /** In every run of the loop and its callers no dangling pointer is followed and no assertion
      fails, exactly as long as every read of a number comes before its timer is freed. */
  lemma EveryRunIsSafeIff(calling: bool, steps: seq<Step>)
    requires IsRun(Begin(calling), steps)
    ensures RunIsSafe(Begin(calling), steps) <==> ReadsInTime(Begin(calling), steps)
  {
    BeginInv(calling);
    RunFromIsSafeIff(Begin(calling), steps);
  }

  // ---------------------------------------------------------------- repeating timers

  /** Allocated and repeating, and not cancelled during the batch it is in. */
  predicate Spared(s: State, call: Call) {
    && !s.phase.Destroyed?
    && StillThere(s, call) && s.heap[call.addr].Repeat()
    && (InBatch(s.phase, call.addr) ==> ActiveTimer(call.addr, call.sequence) !in s.phase.cancels)
  }

  lemma CancelSpares(s: State, id: ActiveTimer, call: Call)
    requires TimerProofs.Inv(s) && TimerModel.Enabled(s, Cancel(id)) && Spared(s, call)
    requires id != ActiveTimer(call.addr, call.sequence)
    ensures TimerModel.Safe(s, Cancel(id)) && Spared(TimerModel.Apply(s, Cancel(id)), call)
  {
    hide TimerProofs.Inv, TimerModel.Safe, TimerModel.Apply;
    CancelFate(s, id, call.addr);
  }

  lemma EndSpares(s: State, clock: int, call: Call)
    requires TimerProofs.Inv(s) && TimerModel.Enabled(s, EndRead(clock)) && Spared(s, call)
    ensures TimerModel.Safe(s, EndRead(clock)) && Spared(TimerModel.Apply(s, EndRead(clock)), call)
  {
    hide TimerProofs.Inv, TimerModel.Safe, TimerModel.Apply;
    EndFate(s, clock, call.addr);
  }

  lemma StepSpares(s: State, step: TimerModel.Step, call: Call)
    requires TimerProofs.Inv(s) && TimerModel.Enabled(s, step) && Spared(s, call)
    requires !step.Destroy? && step != Cancel(ActiveTimer(call.addr, call.sequence))
    ensures TimerModel.Safe(s, step) && Spared(TimerModel.Apply(s, step), call)
  {
    TimerRuns.StepIsSafe(s, step);
    hide TimerProofs.Inv, TimerModel.Safe, TimerModel.Apply, TimerModel.Enabled;
    match step
    case Cancel(id) => CancelSpares(s, id, call);
    case EndRead(clock) => EndSpares(s, clock, call);
    case _ => OthersSpare(s, step, call.addr);
  }

  /** Steps that leave a call open and its timer alone: no destructor, no cancel of its id. */
  predicate Spares(steps: seq<Step>, thread: Thread, id: ActiveTimer) {
    forall step :: step in steps ==>
                     step != ReadId(thread) && (step.Loop? ==> !step.step.Destroy? && step.step != Cancel(id))
  }

  lemma {:induction false} RunSpares(c: Callers, steps: seq<Step>, thread: Thread)
    requires Inv(c) && thread in c.calls && Spared(c.queue, c.calls[thread]) && RunIsSafe(c, steps)
    requires Spares(steps, thread, ActiveTimer(c.calls[thread].addr, c.calls[thread].sequence))
    ensures var r := Exec(c, steps);
            thread in r.calls && r.calls[thread] == c.calls[thread] && Spared(r.queue, r.calls[thread])
    decreases |steps|
  {
    hide Inv, TimerProofs.Inv, TimerModel.Enabled, TimerModel.Safe, TimerModel.Apply, Spared;
    if steps != [] {
      var call := c.calls[thread];
      assert steps[0] in steps && forall step :: step in steps[1..] ==> step in steps;
      StepKeepsCallers(c, steps[0]);
      QueueInv(c);
      match steps[0] {
        case Loop(inner) => StepSpares(c.queue, inner, call);
        case HandOver(_, addr, when, interval) => StepSpares(c.queue, AddElsewhere(addr, when, interval), call);
        case ReadId(_) =>
      }
      RunSpares(Apply(c, steps[0]), steps[1..], thread);
    }
  }

  lemma QueueInv(c: Callers)
    requires Inv(c)
    ensures TimerProofs.Inv(c.queue)
  {
  }

  // ---------------------------------------------------------------- one-shot timers

  lemma {:induction false} RunsJoin(s: State, first: seq<TimerModel.Step>, second: seq<TimerModel.Step>)
    requires TimerModel.RunIsSafe(s, first) && TimerModel.RunIsSafe(TimerModel.Exec(s, first), second)
    ensures TimerModel.RunIsSafe(s, first + second)
    ensures TimerModel.Exec(s, first + second) == TimerModel.Exec(TimerModel.Exec(s, first), second)
    decreases |first|
  {
    hide TimerModel.Apply, TimerModel.Safe, TimerModel.Enabled;
    if first == [] {
      assert first + second == second;
    } else {
      assert (first + second)[0] == first[0] && (first + second)[1..] == first[1..] + second;
      RunsJoin(TimerModel.Apply(s, first[0]), first[1..], second);
    }
  }

  lemma OneStep(s: State, step: TimerModel.Step)
    requires TimerProofs.Inv(s) && TimerModel.Enabled(s, step)
    ensures TimerModel.RunIsSafe(s, [step]) && TimerModel.Exec(s, [step]) == TimerModel.Apply(s, step)
    ensures TimerProofs.Inv(TimerModel.Apply(s, step))
  {
    hide TimerProofs.Inv, TimerModel.Apply, TimerModel.Safe, TimerModel.Enabled;
    TimerRuns.StepKeepsInvariant(s, step);
    assert [step][1..] == [];
    assert TimerModel.Exec(TimerModel.Apply(s, step), []) == TimerModel.Apply(s, step);
  }

  /** The loop on its own: nobody adds, cancels or destroys anything. */
  predicate LoopOnly(steps: seq<TimerModel.Step>) {
    forall step :: step in steps ==> step.AddQueued? || step.BeginRead? || step.RunNext? || step.EndRead?
  }

  lemma RunNextShape(s: State)
    requires TimerProofs.Inv(s) && TimerModel.Enabled(s, RunNext)
    ensures TimerModel.Safe(s, RunNext)
    ensures var r := TimerModel.Apply(s, RunNext);
            && TimerProofs.Inv(r) && r.phase.Running? && r.phase.batch == s.phase.batch && r.phase.next == s.phase.next + 1
  {
    TimerRuns.StepKeepsInvariant(s, RunNext);
    hide TimerProofs.Inv;
  }

  lemma NextInBounds(s: State)
    requires TimerProofs.Inv(s) && s.phase.Running?
    ensures s.phase.next <= |s.phase.batch|
  {
    hide Indexed, Owned, Numbered, Alarmed, Punctual, Tombstoned;
  }

  /** The callbacks of the batch that have still to run, doing nothing. */
  lemma {:induction false} RunCallbacks(s: State) returns (steps: seq<TimerModel.Step>)
    requires TimerProofs.Inv(s) && s.phase.Running?
    ensures TimerModel.RunIsSafe(s, steps) && forall step :: step in steps ==> step.RunNext?
    ensures var r := TimerModel.Exec(s, steps);
            TimerProofs.Inv(r) && r.phase.Running? && r.phase.next == |r.phase.batch|
    decreases |s.phase.batch| - s.phase.next
  {
    hide TimerProofs.Inv, TimerModel.Apply, TimerModel.Safe;
    NextInBounds(s);
    if s.phase.next == |s.phase.batch| {
      steps := [];
    } else {
      RunNextShape(s);
      OneStep(s, RunNext);
      var rest := RunCallbacks(TimerModel.Apply(s, RunNext));
      steps := [RunNext] + rest;
      RunsJoin(s, [RunNext], rest);
    }
  }

  lemma FinishBatch(s: State) returns (steps: seq<TimerModel.Step>)
    requires TimerProofs.Inv(s) && s.phase.Running?
    ensures TimerModel.RunIsSafe(s, steps) && LoopOnly(steps)
    ensures TimerProofs.Inv(TimerModel.Exec(s, steps)) && TimerModel.Exec(s, steps).phase.Idle?
  {
    hide TimerProofs.Inv, TimerModel.Apply, TimerModel.Safe, TimerModel.RunIsSafe, TimerModel.Exec;
    var body := RunCallbacks(s);
    var q := TimerModel.Exec(s, body);
    OneStep(q, EndRead(1));
    RunsJoin(s, body, [EndRead(1)]);
    EndsIdle(q, 1);
    steps := body + [EndRead(1)];
  }

  lemma EndsIdle(s: State, clock: int)
    requires TimerProofs.Inv(s) && TimerModel.Enabled(s, EndRead(clock))
    ensures TimerModel.Safe(s, EndRead(clock)) && TimerModel.Apply(s, EndRead(clock)).phase.Idle?
  {
    TimerRuns.StepIsSafe(s, EndRead(clock));
    TimerRuns.EndOpened(s, clock);
    hide TimerProofs.Inv;
  }

  lemma {:induction false} RunKeepsTimer(s: State, steps: seq<TimerModel.Step>, a: Addr)
    requires TimerProofs.Inv(s) && TimerModel.RunIsSafe(s, steps) && a in s.heap
    ensures TimerProofs.Inv(TimerModel.Exec(s, steps))
    ensures var r := TimerModel.Exec(s, steps);
            SameTimer(s, r, a) || s.heap[a].sequence in r.freed
    decreases |steps|
  {
    hide TimerProofs.Inv, TimerModel.Apply, TimerModel.Safe, TimerModel.Enabled;
    if steps != [] {
      StepKeepsTimer(s, steps[0], a);
      TimerRuns.StepKeepsInvariant(s, steps[0]);
      var m := TimerModel.Apply(s, steps[0]);
      TimerRuns.RunIsSafeIsRun(m, steps[1..]);
      TimerRuns.FreedTimersAreSilent(m, steps[1..]);
      TimerRuns.RunKeepsInvariant(m, steps[1..]);
      if SameTimer(s, m, a) {
        RunKeepsTimer(m, steps[1..], a);
      }
    }
  }

  /** The loop finishes its batch, if it is in one. */
  lemma ReachIdle(s: State) returns (steps: seq<TimerModel.Step>)
    requires TimerProofs.Inv(s) && !s.phase.Destroyed?
    ensures TimerModel.RunIsSafe(s, steps) && LoopOnly(steps)
    ensures TimerProofs.Inv(TimerModel.Exec(s, steps)) && TimerModel.Exec(s, steps).phase.Idle?
  {
    hide TimerProofs.Inv;
    if s.phase.Running? {
      steps := FinishBatch(s);
    } else {
      steps := [];
    }
  }

  /** The loop takes a queued timer over, if it is queued. */
  lemma ReachActive(s: State, a: Addr) returns (steps: seq<TimerModel.Step>)
    requires TimerProofs.Inv(s) && s.phase.Idle? && a in s.heap
    ensures TimerModel.RunIsSafe(s, steps) && LoopOnly(steps)
    ensures var r := TimerModel.Exec(s, steps);
            && TimerProofs.Inv(r) && r.phase.Idle? && a in r.heap && r.heap[a] == s.heap[a]
            && EntryOf(r.heap, a) in r.timers
  {
    if a in s.queued {
      QueuedBecomesActive(s, a);
      OneStep(s, AddQueued(a, 1));
      steps := [AddQueued(a, 1)];
    } else {
      ActiveWhenIdle(s, a);
      steps := [];
    }
  }

  lemma QueuedBecomesActive(s: State, a: Addr)
    requires TimerProofs.Inv(s) && s.phase.Idle? && a in s.heap && a in s.queued
    ensures TimerModel.Enabled(s, AddQueued(a, 1)) && TimerModel.Safe(s, AddQueued(a, 1))
    ensures var r := TimerModel.Apply(s, AddQueued(a, 1));
            r.phase.Idle? && a in r.heap && r.heap[a] == s.heap[a] && EntryOf(r.heap, a) in r.timers
  {
    TimerRuns.StepIsSafe(s, AddQueued(a, 1));
    hide TimerProofs.Inv;
  }

  lemma ActiveWhenIdle(s: State, a: Addr)
    requires TimerProofs.Inv(s) && s.phase.Idle? && a in s.heap && a !in s.queued
    ensures EntryOf(s.heap, a) in s.timers
  {
    hide Numbered, Alarmed, Punctual, Tombstoned, BatchDue;
  }

  /** A batch with the timer in it, in which nobody does anything. */
  lemma RunsOut(s: State, a: Addr) returns (steps: seq<TimerModel.Step>)
    requires TimerProofs.Inv(s) && s.phase.Idle? && a in s.heap && EntryOf(s.heap, a) in s.timers
    requires !s.heap[a].Repeat()
    ensures TimerModel.RunIsSafe(s, steps) && LoopOnly(steps)
    ensures s.heap[a].sequence in TimerModel.Exec(s, steps).freed
  {
    hide TimerProofs.Inv, TimerModel.Apply, TimerModel.Safe;
    var now := if s.heap[a].expiration > 0 then s.heap[a].expiration else 1;
    TimerRuns.BatchStarts(s, now, true);
    OneStep(s, BeginRead(now, true));
    var m := TimerModel.Apply(s, BeginRead(now, true));
    var body := RunCallbacks(m);
    var q := TimerModel.Exec(m, body);
    RunsJoin(s, [BeginRead(now, true)], body);
    OneStep(q, EndRead(1));
    RunsJoin(s, [BeginRead(now, true)] + body, [EndRead(1)]);
    steps := [BeginRead(now, true)] + body + [EndRead(1)];
    TimerRuns.StepIsSafe(q, EndRead(1));
    TimerRuns.BatchSettles(s, now, true, body, 1);
    assert EntryOf(s.heap, a).addr == a && EntryOf(s.heap, a).when <= now;
  }

  /** From any state, the loop alone can bring a one-shot timer to its end. */
  lemma OneShotRunsOut(s: State, a: Addr) returns (steps: seq<TimerModel.Step>)
    requires TimerProofs.Inv(s) && !s.phase.Destroyed? && a in s.heap && !s.heap[a].Repeat()
    ensures TimerModel.RunIsSafe(s, steps) && LoopOnly(steps)
    ensures s.heap[a].sequence in TimerModel.Exec(s, steps).freed
  {
    hide TimerProofs.Inv, TimerModel.Apply, TimerModel.Safe, TimerModel.RunIsSafe, TimerModel.Exec;
    steps := ReachIdle(s);
    RunKeepsTimer(s, steps, a);
    var m := TimerModel.Exec(s, steps);
    if s.heap[a].sequence !in m.freed {
      var second := ReachActive(m, a);
      RunsJoin(s, steps, second);
      var third := RunsOut(TimerModel.Exec(m, second), a);
      RunsJoin(s, steps + second, third);
      steps := steps + second + third;
    }
  }

  function Lift(steps: seq<TimerModel.Step>): seq<Step> {
    if steps == [] then [] else [Loop(steps[0])] + Lift(steps[1..])
  }

  lemma {:induction false} LiftRuns(c: Callers, steps: seq<TimerModel.Step>)
    requires TimerModel.RunIsSafe(c.queue, steps) && LoopOnly(steps)
    ensures RunIsSafe(c, Lift(steps)) && Exec(c, Lift(steps)) == c.(queue := TimerModel.Exec(c.queue, steps))
    ensures forall step :: step in Lift(steps) ==> step.Loop? && step.step in steps
    decreases |steps|
  {
    hide TimerModel.Apply, TimerModel.Safe, TimerModel.Enabled;
    if steps != [] {
      assert steps[0] in steps && forall step :: step in steps[1..] ==> step in steps;
      var lifted := Lift(steps);
      assert lifted[0] == Loop(steps[0]) && lifted[1..] == Lift(steps[1..]);
      LiftRuns(Apply(c, lifted[0]), steps[1..]);
    }
  }

  // ---------------------------------------------------------------- which additions are exposed

  /** Some run that neither cancels the new timer nor destroys the queue comes, with the call
      still open, to an unsafe read. */
  ghost predicate CanReadTooLate(c: Callers, thread: Thread, id: ActiveTimer) {
    exists steps ::
      && RunIsSafe(c, steps) && Spares(steps, thread, id)
      && Enabled(Exec(c, steps), ReadId(thread)) && !Safe(Exec(c, steps), ReadId(thread))
  }

  lemma HandsOver(c: Callers, thread: Thread, addr: Addr, when: int, interval: real)
    requires Inv(c) && Enabled(c, HandOver(thread, addr, when, interval))
    ensures var d := Apply(c, HandOver(thread, addr, when, interval));
            && Inv(d) && thread in d.calls && d.calls[thread] == Call(addr, c.queue.created + 1)
            && StillThere(d.queue, d.calls[thread]) && d.queue.heap[addr].interval == interval
            && !d.queue.phase.Destroyed? && !InBatch(d.queue.phase, addr)
  {
    hide TimerProofs.Inv, CallKnown, TimerModel.Apply;
    StepKeepsCallers(c, HandOver(thread, addr, when, interval));
    HandOverCreates(c.queue, addr, when, interval);
  }

  lemma OneShotIsExposed(c: Callers, thread: Thread)
    requires Inv(c) && thread in c.calls && StillThere(c.queue, c.calls[thread]) && !c.queue.phase.Destroyed?
    requires !c.queue.heap[c.calls[thread].addr].Repeat()
    ensures CanReadTooLate(c, thread, ActiveTimer(c.calls[thread].addr, c.calls[thread].sequence))
  {
    hide Inv, TimerProofs.Inv, Safe, RunIsSafe, Exec, TimerModel.RunIsSafe, TimerModel.Exec;
    QueueInv(c);
    var call := c.calls[thread];
    var steps := OneShotRunsOut(c.queue, call.addr);
    LiftRuns(c, steps);
    var r := Exec(c, Lift(steps));
    RunIsSafeKeeps(c, Lift(steps));
    ReadIsSafeIff(r, thread);
    assert Enabled(r, ReadId(thread)) && !Safe(r, ReadId(thread));
    assert Spares(Lift(steps), thread, ActiveTimer(call.addr, call.sequence));
  }

  lemma {:induction false} RunIsSafeKeeps(c: Callers, steps: seq<Step>)
    requires Inv(c) && RunIsSafe(c, steps)
    ensures Inv(Exec(c, steps))
    decreases |steps|
  {
    hide Inv, Enabled, Safe, Apply;
    if steps != [] {
      StepKeepsCallers(c, steps[0]);
      RunIsSafeKeeps(Apply(c, steps[0]), steps[1..]);
    }
  }

  /** Exactly which additions from another thread can read through a dangling pointer, with
      nobody cancelling the timer or destroying the queue: those of a timer that does not
      repeat.  A repeating timer is there at every read, in every run. */
  lemma LateReadIff(c: Callers, thread: Thread, addr: Addr, when: int, interval: real)
    requires Inv(c) && Enabled(c, HandOver(thread, addr, when, interval))
    ensures CanReadTooLate(Apply(c, HandOver(thread, addr, when, interval)), thread, ActiveTimer(addr, c.queue.created + 1))
       <==> interval <= 0.0
  {
    hide Inv, Apply, RunIsSafe, Exec;
    var d := Apply(c, HandOver(thread, addr, when, interval));
    var id := ActiveTimer(addr, c.queue.created + 1);
    HandsOver(c, thread, addr, when, interval);
    if interval <= 0.0 {
      OneShotIsExposed(d, thread);
    } else {
      forall steps | RunIsSafe(d, steps) && Spares(steps, thread, id)
        ensures Enabled(Exec(d, steps), ReadId(thread)) && Safe(Exec(d, steps), ReadId(thread))
      {
        RunSpares(d, steps, thread);
      }
    }
  }

  // ---------------------------------------------------------------- a run that reads too late

  /** The caller hands over a one-shot timer; before the caller goes on, the loop adds it, runs
      it and deletes it, and then puts another timer at the same address. */
  function LateSteps(thread: Thread, a: Addr, when: int, interval: real): seq<Step> {
    [HandOver(thread, a, 1, 0.0)] + ([Loop(AddQueued(a, 5))] + BatchThenReuse(a, when, interval))
  }

  function BatchThenReuse(a: Addr, when: int, interval: real): seq<Step> {
    [Loop(BeginRead(200, true))] + ([Loop(RunNext)] + ([Loop(EndRead(300))] + ([Loop(AddTimer(a, when, interval, 400))] + [])))
  }

  function AfterHandOver(calling: bool, a: Addr): State {
    Init(calling).(heap := map[a := Timer(1, 0.0, 1)], created := 1, queued := {a})
  }

  function AfterAdd(calling: bool, a: Addr): State {
    AfterHandOver(calling, a).(queued := {}, timers := [Entry(1, a)], active := {ActiveTimer(a, 1)}, alarm := Armed(1, 5))
  }

  function AfterBegin(a: Addr): State {
    AfterAdd(true, a).(timers := [], active := {}, alarm := Disarmed, phase := Running(200, [Entry(1, a)], 0, {}))
  }

  function AfterRun(a: Addr): State {
    AfterBegin(a).(runs := [Run(1, 200, 1, 0.0)], phase := Running(200, [Entry(1, a)], 1, {}))
  }

  function AfterEnd(a: Addr): State {
    AfterRun(a).(heap := map[], freed := [1], calling := false, phase := Idle)
  }

  function AfterReuse(a: Addr, when: int, interval: real): State {
    AfterEnd(a).(heap := map[a := Timer(when, interval, 2)], created := 2, timers := [Entry(when, a)],
    active := {ActiveTimer(a, 2)}, alarm := Armed(when, 400))
  }

  lemma FirstSteps(calling: bool, a: Addr)
    requires a < UINTPTR_MAX
    ensures TimerModel.Enabled(Init(calling), AddElsewhere(a, 1, 0.0))
            && TimerModel.Apply(Init(calling), AddElsewhere(a, 1, 0.0)) == AfterHandOver(calling, a)
    ensures var s := AfterHandOver(calling, a);
            && TimerModel.Enabled(s, AddQueued(a, 5)) && TimerModel.Safe(s, AddQueued(a, 5))
            && TimerModel.Apply(s, AddQueued(a, 5)) == AfterAdd(calling, a)
  {
    assert Insert([], Entry(1, a)) == [Entry(1, a)];
    assert {a} - {a} == {};
  }

  lemma BatchSteps(calling: bool, a: Addr)
    ensures var s := AfterAdd(calling, a);
            && TimerModel.Enabled(s, BeginRead(200, true)) && TimerModel.Safe(s, BeginRead(200, true))
            && TimerModel.Apply(s, BeginRead(200, true)) == AfterBegin(a)
    ensures var s := AfterBegin(a);
            && TimerModel.Enabled(s, RunNext) && TimerModel.Safe(s, RunNext) && TimerModel.Apply(s, RunNext) == AfterRun(a)
  {
    var ts := [Entry(1, a)];
    assert ts[1..] == [] && Due([], 200) == [] && Later([], 200) == [];
    assert Due(ts, 200) == [ts[0]] + [] && Later(ts, 200) == [];
    assert Keys(AfterAdd(calling, a).heap, ts) == {ActiveTimer(a, 1)};
    assert {ActiveTimer(a, 1)} - Keys(AfterAdd(calling, a).heap, ts) == {};
    var r := TimerModel.Apply(AfterAdd(calling, a), BeginRead(200, true));
    assert r.timers == [] && r.active == {} && r.phase == AfterBegin(a).phase;
  }

  lemma LastSteps(a: Addr, when: int, interval: real)
    requires a < UINTPTR_MAX
    ensures var s := AfterRun(a);
            && TimerModel.Enabled(s, EndRead(300)) && TimerModel.Safe(s, EndRead(300))
            && TimerModel.Apply(s, EndRead(300)) == AfterEnd(a)
    ensures var s := AfterEnd(a); var step := AddTimer(a, when, interval, 400);
            && TimerModel.Enabled(s, step) && TimerModel.Safe(s, step)
            && TimerModel.Apply(s, step) == AfterReuse(a, when, interval)
  {
    var m := AfterRun(a).(calling := false);
    assert m.phase.batch[1..] == [];
    var r := ResetOne(m);
    assert r.heap == map[] && r.freed == [1] && r.phase.batch == [];
    assert ResetAll(m) == ResetAll(r) == r;
    assert Insert([], Entry(when, a)) == [Entry(when, a)];
  }

  lemma GoesOn(c: Callers, step: Step, next: Callers, rest: seq<Step>)
    requires Enabled(c, step) && Safe(c, step) && Apply(c, step) == next && RunIsSafe(next, rest)
    ensures RunIsSafe(c, [step] + rest) && Exec(c, [step] + rest) == Exec(next, rest)
  {
    hide Enabled, Safe, Apply;
    assert ([step] + rest)[0] == step && ([step] + rest)[1..] == rest;
  }

  lemma BatchThenReuseRun(calling: bool, thread: Thread, a: Addr, when: int, interval: real)
    requires a < UINTPTR_MAX
    ensures var calls := map[thread := Call(a, 1)]; var c := Callers(AfterAdd(calling, a), calls);
            && RunIsSafe(c, BatchThenReuse(a, when, interval))
            && Exec(c, BatchThenReuse(a, when, interval)) == Callers(AfterReuse(a, when, interval), calls)
  {
    BatchSteps(calling, a);
    LastSteps(a, when, interval);
    hide TimerModel.Apply, TimerModel.Safe, TimerModel.Enabled, RunIsSafe, Exec, AfterAdd, AfterBegin, AfterRun, AfterEnd, AfterReuse;
    var calls := map[thread := Call(a, 1)];
    var begin, run, end := Loop(BeginRead(200, true)), Loop(RunNext), Loop(EndRead(300));
    var add := Loop(AddTimer(a, when, interval, 400));
    var last := Callers(AfterReuse(a, when, interval), calls);
    EmptyRun(last);
    GoesOn(Callers(AfterEnd(a), calls), add, last, []);
    GoesOn(Callers(AfterRun(a), calls), end, Callers(AfterEnd(a), calls), [add] + []);
    GoesOn(Callers(AfterBegin(a), calls), run, Callers(AfterRun(a), calls), [end] + ([add] + []));
    GoesOn(Callers(AfterAdd(calling, a), calls), begin, Callers(AfterBegin(a), calls), [run] + ([end] + ([add] + [])));
  }

  lemma LateRun(calling: bool, thread: Thread, a: Addr, when: int, interval: real)
    requires a < UINTPTR_MAX
    ensures RunIsSafe(Begin(calling), LateSteps(thread, a, when, interval))
    ensures Exec(Begin(calling), LateSteps(thread, a, when, interval))
            == Callers(AfterReuse(a, when, interval), map[thread := Call(a, 1)])
  {
    FirstSteps(calling, a);
    hide TimerModel.Apply, TimerModel.Safe, TimerModel.Enabled, RunIsSafe, Exec, BatchThenReuse, AfterHandOver, AfterAdd;
    var calls := map[thread := Call(a, 1)];
    var rest := BatchThenReuse(a, when, interval);
    BatchThenReuseRun(calling, thread, a, when, interval);
    GoesOn(Callers(AfterHandOver(calling, a), calls), Loop(AddQueued(a, 5)), Callers(AfterAdd(calling, a), calls), rest);
    GoesOn(Begin(calling), HandOver(thread, a, 1, 0.0), Callers(AfterHandOver(calling, a), calls), [Loop(AddQueued(a, 5))] + rest);
  }

  lemma EmptyRun(c: Callers)
    ensures RunIsSafe(c, []) && Exec(c, []) == c
  {
  }

  /** What then happens, for any address and any later timer: up to here nothing went wrong,
      and now the read is through a pointer to the other timer.  It yields that timer's id,
      and cancelling this id deletes it. */
  lemma ReadsAnothersId(calling: bool, thread: Thread, a: Addr, when: int, interval: real)
    requires a < UINTPTR_MAX
    ensures var steps := LateSteps(thread, a, when, interval);
            && RunIsSafe(Begin(calling), steps)
            && var r := Exec(Begin(calling), steps);
            && r.queue.freed == [1] && r.calls == map[thread := Call(a, 1)] && a in r.queue.heap
            && Enabled(r, ReadId(thread)) && !Safe(r, ReadId(thread))
            && IdRead(r, thread) == ActiveTimer(a, 2) && IdRead(r, thread) in r.queue.active
            && var cancel := Cancel(IdRead(r, thread));
            && TimerModel.Enabled(r.queue, cancel) && TimerModel.Safe(r.queue, cancel)
            && var q := TimerModel.Apply(r.queue, cancel);
            q.freed == [1, 2] && q.timers == [] && q.active == {}
  {
    hide RunIsSafe, Exec, TimerModel.Apply, TimerModel.Safe, TimerModel.Enabled;
    LateRun(calling, thread, a, when, interval);
    CancelsOther(a, when, interval);
  }

  lemma CancelsOther(a: Addr, when: int, interval: real)
    ensures var s := AfterReuse(a, when, interval); var id := ActiveTimer(a, 2);
            && TimerModel.Enabled(s, Cancel(id)) && TimerModel.Safe(s, Cancel(id))
            && var q := TimerModel.Apply(s, Cancel(id)); q.freed == [1, 2] && q.timers == [] && q.active == {}
  {
    var ts := [Entry(when, a)];
    assert ts[1..] == [] && Remove(ts, ts[0]) == [];
  }
}
