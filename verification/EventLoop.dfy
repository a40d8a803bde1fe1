/** The functor queue that other threads use to reach the loop's thread.

    Every lock-protected section and every system call is one atomic step, and the steps
    of the threads interleave in any way. */
module FunctorQueue {

  type Functor = nat
  type Thread = nat

  /** Who queued a functor: another thread, a functor of the batch being run, or the loop's
      own thread while it handles some other event. */
  datatype Origin = Other(thread: Thread) | Batch | Handler

  datatype Item = Item(functor: Functor, origin: Origin)

  /** Where the loop's thread is: outside doPendingFunctors, between reading the eventfd
      and swapping the vector, or running what it swapped out. */
  datatype Place = Outside | AfterRead | Running(batch: seq<Item>, next: nat)

  /** An eventfd refuses a write that would take its counter beyond this. */
  const EVENTFD_MAX := 0xFFFF_FFFF_FFFF_FFFE

  /** `loopOwes` and `owing` say who has queued a functor and not yet written the wakeup.
      `pushed` and `executed` are histories. */
  datatype State = State(
    pending: seq<Item>,
    counter: nat,
    calling: bool,
    place: Place,
    loopOwes: bool,
    owing: set<Thread>,
    pushed: seq<Item>,
    executed: seq<Item>)

  const INIT := State([], 0, false, Outside, false, {}, [], [])

  datatype Step =
    | Push(thread: Thread, functor: Functor)
    | Wake(thread: Thread)
    | LoopPush(functor: Functor)
    | LoopWake
    | ReadFd
    | Swap
    | RunNext
    | Finish

  /** The loop's thread does one thing at a time, and the wakeup handler is called only
      when poll has found the eventfd readable. */
  predicate Enabled(s: State, step: Step) {
    match step
    case Push(thread, _) => thread !in s.owing
    case Wake(thread) => thread in s.owing
    case LoopPush(_) => !s.loopOwes && (s.place.Outside? || (s.place.Running? && s.place.next > 0))
    case LoopWake => s.loopOwes
    case ReadFd => !s.loopOwes && s.place.Outside? && s.counter > 0
    case Swap => s.place.AfterRead?
    case RunNext => !s.loopOwes && s.place.Running? && s.place.next < |s.place.batch|
    case Finish => !s.loopOwes && s.place.Running? && s.place.next == |s.place.batch|
  }

  function Bump(counter: nat): nat {
    if counter < EVENTFD_MAX then counter + 1 else counter
  }

  function Enqueue(s: State, item: Item): State {
    s.(pending := s.pending + [item], pushed := s.pushed + [item])
  }

  function Apply(s: State, step: Step): State
    requires Enabled(s, step)
  {
    match step
    case Push(thread, functor) => Enqueue(s, Item(functor, Other(thread))).(owing := s.owing + {thread})
    case Wake(thread) => s.(counter := Bump(s.counter), owing := s.owing - {thread})
    case LoopPush(functor) =>
      Enqueue(s, Item(functor, if s.calling then Batch else Handler)).(loopOwes := s.calling)
    case LoopWake => s.(counter := Bump(s.counter), loopOwes := false)
    case ReadFd => s.(counter := 0, place := AfterRead)
    case Swap => s.(calling := true, place := Running(s.pending, 0), pending := [])
    case RunNext =>
      s.(executed := s.executed + [s.place.batch[s.place.next]], place := s.place.(next := s.place.next + 1))
    case Finish => s.(calling := false, place := Outside)
  }

  predicate IsRun(s: State, steps: seq<Step>)
    decreases |steps|
  {
    steps == [] || (Enabled(s, steps[0]) && IsRun(Apply(s, steps[0]), steps[1..]))
  }

  function Exec(s: State, steps: seq<Step>): State
    requires IsRun(s, steps)
    decreases |steps|
  {
    if steps == [] then s else Exec(Apply(s, steps[0]), steps[1..])
  }

  // ---------------------------------------------------------------- the invariant

  /** What the batch still has to run. */
  function Rest(s: State): seq<Item> {
    if s.place.Running? && s.place.next <= |s.place.batch| then s.place.batch[s.place.next..] else []
  }

  /** Somebody is going to make the loop look at the queue. */
  predicate WakeupDue(s: State) {
    s.counter > 0 || s.owing != {} || s.loopOwes || s.place.AfterRead?
  }

  predicate Inv(s: State) {
    && (s.calling <==> s.place.Running?)
    && (s.loopOwes ==> s.calling)
    && (s.place.Running? ==> s.place.next <= |s.place.batch|)
    && s.executed + Rest(s) + s.pending == s.pushed
    && (forall item :: item in s.pending && !item.origin.Handler? ==> WakeupDue(s))
  }

  lemma StepKeepsInvariant(s: State, step: Step)
    requires Inv(s) && Enabled(s, step)
    ensures Inv(Apply(s, step))
  {
    var r := Apply(s, step);
    match step
    case Push(thread, functor) =>
      assert thread in r.owing;
      assert r.executed + Rest(r) + r.pending == r.pushed;
    case LoopPush(functor) => assert r.executed + Rest(r) + r.pending == r.pushed;
    case RunNext =>
      assert Rest(s) == [s.place.batch[s.place.next]] + Rest(r);
      assert r.executed + Rest(r) == s.executed + Rest(s);
    case _ =>
  }

  lemma {:induction false} RunKeepsInvariant(s: State, steps: seq<Step>)
    requires Inv(s) && IsRun(s, steps)
    ensures Inv(Exec(s, steps))
    decreases |steps|
  {
    if steps != [] {
      StepKeepsInvariant(s, steps[0]);
      RunKeepsInvariant(Apply(s, steps[0]), steps[1..]);
    }
  }

  /** In every interleaving: while a functor queued by another thread, or by a functor of a
      batch, is pending, the eventfd is readable, or some thread has yet to write to it, or
      the loop has read it and is about to swap the queue. */
  lemma NoLostWakeup(steps: seq<Step>, item: Item)
    requires IsRun(INIT, steps) && item in Exec(INIT, steps).pending && !item.origin.Handler?
    ensures WakeupDue(Exec(INIT, steps))
  {
    RunKeepsInvariant(INIT, steps);
  }

  /** In every interleaving functors run once each and in the order they were queued. */
  lemma ExecutedInQueueOrder(steps: seq<Step>)
    requires IsRun(INIT, steps)
    ensures var s := Exec(INIT, steps);
            s.executed + Rest(s) + s.pending == s.pushed
  {
    RunKeepsInvariant(INIT, steps);
  }

  /** The calls of queueInLoop in these steps, in order: what was queued and by whom. */
  function Calls(steps: seq<Step>): seq<Functor> {
    if steps == [] then []
    else
      (match steps[0]
       case Push(_, functor) => [functor]
       case LoopPush(functor) => [functor]
       case _ => []) + Calls(steps[1..])
  }

  function FunctorsOf(items: seq<Item>): seq<Functor> {
    seq(|items|, i requires 0 <= i < |items| => items[i].functor)
  }

  function CountRuns(steps: seq<Step>): nat {
    if steps == [] then 0 else (if steps[0].RunNext? then 1 else 0) + CountRuns(steps[1..])
  }

  lemma StepRecords(s: State, step: Step)
    requires Inv(s) && Enabled(s, step)
    ensures FunctorsOf(Apply(s, step).pushed) == FunctorsOf(s.pushed) + Calls([step])
    ensures |Apply(s, step).executed| == |s.executed| + CountRuns([step])
  {
    assert [step][1..] == [];
    assert FunctorsOf(s.pushed) + [] == FunctorsOf(s.pushed);
  }

  lemma FirstRecorded(steps: seq<Step>)
    requires steps != []
    ensures Calls(steps) == Calls([steps[0]]) + Calls(steps[1..])
    ensures CountRuns(steps) == CountRuns([steps[0]]) + CountRuns(steps[1..])
  {
    assert [steps[0]][1..] == [];
  }

  lemma {:induction false} RunRecords(s: State, steps: seq<Step>)
    requires Inv(s) && IsRun(s, steps)
    ensures FunctorsOf(Exec(s, steps).pushed) == FunctorsOf(s.pushed) + Calls(steps)
    ensures |Exec(s, steps).executed| == |s.executed| + CountRuns(steps)
    decreases |steps|
  {
    hide Inv, Enabled, Apply, FunctorsOf;
    if steps == [] {
      assert FunctorsOf(s.pushed) + [] == FunctorsOf(s.pushed);
    } else {
      StepKeepsInvariant(s, steps[0]);
      StepRecords(s, steps[0]);
      RunRecords(Apply(s, steps[0]), steps[1..]);
      FirstRecorded(steps);
      assert FunctorsOf(s.pushed) + (Calls([steps[0]]) + Calls(steps[1..]))
             == (FunctorsOf(s.pushed) + Calls([steps[0]])) + Calls(steps[1..]);
    }
  }

  /** In every interleaving, the functors executed are the first ones of those queued, as many
      as were run: none changed, none left out. */
  lemma ExecutedAreTheFirstCalls(steps: seq<Step>)
    requires IsRun(INIT, steps)
    ensures CountRuns(steps) <= |Calls(steps)|
    ensures FunctorsOf(Exec(INIT, steps).executed) == Calls(steps)[..CountRuns(steps)]
  {
    RunKeepsInvariant(INIT, steps);
    RunRecords(INIT, steps);
    ExecutedInQueueOrder(steps);
    hide Exec, IsRun, Inv, Calls, CountRuns;
    var s := Exec(INIT, steps);
    assert FunctorsOf(INIT.pushed) + Calls(steps) == Calls(steps);
    assert s.executed == s.pushed[..|s.executed|];
  }

  /** The batch of s, further along; what was queued meanwhile waits behind. */
  predicate FurtherAlong(s: State, r: State) {
    && s.place.Running? && r.place.Running? && r.place.batch == s.place.batch
    && s.place.next <= r.place.next <= |s.place.batch|
    && r.executed == s.executed + s.place.batch[s.place.next..r.place.next]
    && s.pending <= r.pending
  }

  lemma StepInBatch(s: State, step: Step)
    requires Inv(s) && s.place.Running? && Enabled(s, step) && !step.Finish?
    ensures FurtherAlong(s, Apply(s, step))
  {
    if step.RunNext? {
      assert s.place.batch[s.place.next..s.place.next + 1] == [s.place.batch[s.place.next]];
    }
  }

  lemma FurtherAlongJoins(s: State, m: State, r: State)
    requires FurtherAlong(s, m) && FurtherAlong(m, r)
    ensures FurtherAlong(s, r)
  {
    var batch := s.place.batch;
    assert batch[s.place.next..m.place.next] + batch[m.place.next..r.place.next] == batch[s.place.next..r.place.next];
  }

  /** A batch is fixed when it is swapped out: until it is finished, whatever is queued goes
      to the next one, and exactly the batch is executed. */
  lemma {:induction false} BatchIsFixed(s: State, steps: seq<Step>)
    requires Inv(s) && s.place.Running? && IsRun(s, steps) && Finish !in steps
    ensures FurtherAlong(s, Exec(s, steps))
    decreases |steps|
  {
    if steps != [] {
      assert steps[0] in steps && forall step :: step in steps[1..] ==> step in steps;
      StepKeepsInvariant(s, steps[0]);
      StepInBatch(s, steps[0]);
      var m := Apply(s, steps[0]);
      BatchIsFixed(m, steps[1..]);
      FurtherAlongJoins(s, m, Exec(m, steps[1..]));
    }
  }

  // ---------------------------------------------------------------- progress

  /** No functor is queued by these steps. */
  predicate Quiet(steps: seq<Step>) {
    forall step :: step in steps ==> !step.Push? && !step.LoopPush?
  }

  lemma {:induction false} RunsJoin(s: State, first: seq<Step>, second: seq<Step>)
    requires IsRun(s, first) && IsRun(Exec(s, first), second)
    ensures IsRun(s, first + second) && Exec(s, first + second) == Exec(Exec(s, first), second)
    decreases |first|
  {
    if first == [] {
      assert first + second == second;
    } else {
      var all := first + second;
      assert all[0] == first[0] && all[1..] == first[1..] + second;
      RunsJoin(Apply(s, first[0]), first[1..], second);
    }
  }

  function Times(n: nat, step: Step): (r: seq<Step>)
    ensures forall x :: x in r ==> x == step
  {
    if n == 0 then [] else [step] + Times(n - 1, step)
  }

  /** The rest of doPendingFunctors when no functor queues another. */
  lemma {:induction false} FinishBatch(s: State)
    requires Inv(s) && s.place.Running? && !s.loopOwes
    ensures var steps := Times(|s.place.batch| - s.place.next, RunNext) + [Finish];
            && IsRun(s, steps) && Quiet(steps)
            && Exec(s, steps) == s.(executed := s.executed + Rest(s), calling := false, place := Outside)
    decreases |s.place.batch| - s.place.next
  {
    var n := |s.place.batch| - s.place.next;
    var steps := Times(n, RunNext) + [Finish];
    if n == 0 {
      assert steps == [Finish];
      assert Exec(Apply(s, Finish), steps[1..]) == Apply(s, Finish);
      assert s.executed + Rest(s) == s.executed;
    } else {
      var m := Apply(s, RunNext);
      StepKeepsInvariant(s, RunNext);
      FinishBatch(m);
      assert steps[0] == RunNext && steps[1..] == Times(n - 1, RunNext) + [Finish];
      assert s.executed + Rest(s) == m.executed + Rest(m);
    }
  }

  /** Once the eventfd is readable, one dispatch of the wakeup handler runs everything that
      is queued by then, and no more. */
  lemma OneDispatchDrains(s: State)
    requires Inv(s) && s.place.Outside? && s.counter > 0
    ensures var steps := [ReadFd, Swap] + Times(|s.pending|, RunNext) + [Finish];
            && IsRun(s, steps) && Quiet(steps)
            && Exec(s, steps) == s.(counter := 0, pending := [], executed := s.pushed)
  {
    var read := Apply(s, ReadFd);
    var swapped := Apply(read, Swap);
    StepKeepsInvariant(s, ReadFd);
    StepKeepsInvariant(read, Swap);
    FinishBatch(swapped);
    var tail := Times(|s.pending|, RunNext) + [Finish];
    var steps := [ReadFd, Swap] + Times(|s.pending|, RunNext) + [Finish];
    assert steps[0] == ReadFd && steps[1..][0] == Swap && steps[1..][1..] == tail;
    assert IsRun(read, steps[1..]);
    assert Rest(swapped) == s.pending;
  }

  predicate Drains(s: State, steps: seq<Step>) {
    IsRun(s, steps) && Quiet(steps) && Exec(s, steps).pending == [] && Exec(s, steps).executed == s.pushed
  }

  lemma DrainsAfter(s: State, first: seq<Step>, second: seq<Step>)
    requires IsRun(s, first) && Quiet(first) && Exec(s, first).pushed == s.pushed
    requires Drains(Exec(s, first), second)
    ensures Drains(s, first + second)
  {
    RunsJoin(s, first, second);
  }

  lemma OneStepRun(s: State, step: Step)
    requires Enabled(s, step)
    ensures IsRun(s, [step]) && Exec(s, [step]) == Apply(s, step)
  {
    assert [step][1..] == [];
    assert Exec(Apply(s, step), []) == Apply(s, step);
  }

  /** From outside doPendingFunctors. */
  lemma DueDrainsOutside(s: State) returns (steps: seq<Step>)
    requires Inv(s) && s.place.Outside? && (s.counter > 0 || s.owing != {})
    ensures Drains(s, steps)
  {
    if s.counter > 0 {
      OneDispatchDrains(s);
      steps := [ReadFd, Swap] + Times(|s.pending|, RunNext) + [Finish];
    } else {
      var thread :| thread in s.owing;
      StepKeepsInvariant(s, Wake(thread));
      OneStepRun(s, Wake(thread));
      var m := Apply(s, Wake(thread));
      OneDispatchDrains(m);
      steps := [ReadFd, Swap] + Times(|m.pending|, RunNext) + [Finish];
      DrainsAfter(s, [Wake(thread)], steps);
      steps := [Wake(thread)] + steps;
    }
  }

  /** From inside a batch whose thread owes nothing: finish it first. */
  lemma DueDrainsRunning(s: State) returns (steps: seq<Step>)
    requires Inv(s) && s.place.Running? && !s.loopOwes && (s.counter > 0 || s.owing != {} || s.pending == [])
    ensures Drains(s, steps)
  {
    FinishBatch(s);
    var first := Times(|s.place.batch| - s.place.next, RunNext) + [Finish];
    RunKeepsInvariant(s, first);
    if s.pending == [] {
      steps := first;
    } else {
      steps := DueDrainsOutside(Exec(s, first));
      DrainsAfter(s, first, steps);
      steps := first + steps;
    }
  }

  lemma DueDrains(s: State) returns (steps: seq<Step>)
    requires Inv(s) && WakeupDue(s)
    ensures Drains(s, steps)
  {
    match s.place {
      case Outside => steps := DueDrainsOutside(s);
      case AfterRead =>
        StepKeepsInvariant(s, Swap);
        OneStepRun(s, Swap);
        steps := DueDrainsRunning(Apply(s, Swap));
        DrainsAfter(s, [Swap], steps);
        steps := [Swap] + steps;
      case Running(_, _) =>
        if s.loopOwes {
          StepKeepsInvariant(s, LoopWake);
          OneStepRun(s, LoopWake);
          steps := DueDrainsRunning(Apply(s, LoopWake));
          DrainsAfter(s, [LoopWake], steps);
          steps := [LoopWake] + steps;
        } else {
          steps := DueDrainsRunning(s);
        }
    }
  }

  lemma {:induction false} UndueStays(s: State, steps: seq<Step>)
    requires Inv(s) && !WakeupDue(s) && IsRun(s, steps) && Quiet(steps)
    ensures s.pending <= Exec(s, steps).pending
    decreases |steps|
  {
    if steps != [] {
      assert steps[0] in steps && forall step :: step in steps[1..] ==> step in steps;
      StepKeepsInvariant(s, steps[0]);
      UndueStays(Apply(s, steps[0]), steps[1..]);
    }
  }

  /** Exactly when the queue can be emptied without queueing anything more: a wakeup is due.
      Otherwise what is pending stays pending for good. */
  lemma DrainsIffDue(s: State)
    requires Inv(s) && s.pending != []
    ensures WakeupDue(s) <==> exists steps :: Drains(s, steps)
  {
    if WakeupDue(s) {
      var steps := DueDrains(s);
    } else {
      forall steps | Drains(s, steps) ensures false {
        UndueStays(s, steps);
      }
    }
  }

  /** queueInLoop leaves a wakeup due exactly when it was called from another thread or from
      a functor of a batch, or one was due already. */
  lemma QueueInLoopSignals(s: State, step: Step)
    requires Inv(s) && Enabled(s, step) && (step.Push? || step.LoopPush?)
    ensures WakeupDue(Apply(s, step)) <==> step.Push? || s.calling || WakeupDue(s)
  {
    if step.Push? {
      assert step.thread in Apply(s, step).owing;
    }
  }

  /** A functor queued on the loop's thread outside a batch is left behind: nothing makes
      the loop run it. */
  lemma HandlerFunctorStranded(functor: Functor, steps: seq<Step>)
    requires IsRun(Apply(INIT, LoopPush(functor)), steps) && Quiet(steps)
    ensures Item(functor, Handler) in Exec(Apply(INIT, LoopPush(functor)), steps).pending
  {
    var s := Apply(INIT, LoopPush(functor));
    StepKeepsInvariant(INIT, LoopPush(functor));
    UndueStays(s, steps);
    assert s.pending[0] == Item(functor, Handler);
  }

  // ---------------------------------------------------------------- runs of the class

  /** What can happen while a functor of a batch runs: it calls queueInLoop, and other
      threads take their steps, also between the two halves of such a call. */
  predicate Meanwhile(step: Step) {
    step.Push? || step.Wake? || step.LoopPush? || step.LoopWake?
  }

  /** What these steps queue while a batch is running. */
  function QueuedIn(steps: seq<Step>): seq<Item> {
    if steps == [] then []
    else
      (match steps[0]
       case Push(thread, functor) => [Item(functor, Other(thread))]
       case LoopPush(functor) => [Item(functor, Batch)]
       case _ => []) + QueuedIn(steps[1..])
  }

  /** `script[i]` is what happens while the i-th functor runs. */
  function QueuedBy(script: seq<seq<Step>>): seq<Item> {
    if script == [] then [] else QueuedIn(script[0]) + QueuedBy(script[1..])
  }

  function Body(script: seq<seq<Step>>): seq<Step> {
    if script == [] then [] else [RunNext] + (script[0] + Body(script[1..]))
  }

  /** doPendingFunctors. */
  function DoPending(script: seq<seq<Step>>): seq<Step> {
    [Swap] + (Body(script) + [Finish])
  }

  lemma FirstOfRun(s: State, step: Step, rest: seq<Step>)
    ensures IsRun(s, [step] + rest) <==> Enabled(s, step) && IsRun(Apply(s, step), rest)
    ensures IsRun(s, [step] + rest) ==> Exec(s, [step] + rest) == Exec(Apply(s, step), rest)
  {
    assert ([step] + rest)[0] == step && ([step] + rest)[1..] == rest;
  }

  lemma NothingLeft(s: State)
    ensures IsRun(s, []) && Exec(s, []) == s
  {
  }

  lemma NextStep(steps: seq<Step>, i: nat, rest: seq<Step>)
    requires i < |steps|
    ensures steps[i..] + rest == [steps[i]] + (steps[i + 1..] + rest)
  {
    assert steps[i..] == [steps[i]] + steps[i + 1..];
  }

  lemma NextInScript(script: seq<seq<Step>>, i: nat, rest: seq<Step>)
    requires i < |script|
    ensures Body(script[i..]) + rest == [RunNext] + (script[i] + (Body(script[i + 1..]) + rest))
    ensures QueuedBy(script[i..]) == QueuedIn(script[i]) + QueuedBy(script[i + 1..])
  {
    assert script[i..][0] == script[i] && script[i..][1..] == script[i + 1..];
    var tail := Body(script[i + 1..]);
    assert [RunNext] + (script[i] + tail) + rest == [RunNext] + (script[i] + (tail + rest));
  }

  lemma NextQueued(pending: seq<Item>, steps: seq<Step>, i: nat)
    requires i < |steps|
    ensures pending + QueuedIn(steps[i..]) == (pending + QueuedIn([steps[i]])) + QueuedIn(steps[i + 1..])
  {
    assert steps[i..][0] == steps[i] && steps[i..][1..] == steps[i + 1..];
    assert [steps[i]][1..] == [];
  }

  lemma Joined(a: seq<Item>, b: seq<Item>, c: seq<Item>)
    ensures a + (b + c) == (a + b) + c && a + [] == a && [] + a == a
  {
  }

  /** A functor runs only while the flag is up. */
  lemma RunningMeansCalling(s: State)
    requires Inv(s)
    ensures s.calling <==> s.place.Running?
  {
  }

  lemma {:induction false} NoHandlerIn(steps: seq<Step>)
    ensures forall item :: item in QueuedIn(steps) ==> !item.origin.Handler?
  {
    if steps != [] {
      NoHandlerIn(steps[1..]);
    }
  }

  lemma {:induction false} NoHandler(script: seq<seq<Step>>)
    ensures forall item :: item in QueuedBy(script) ==> !item.origin.Handler?
  {
    if script != [] {
      NoHandlerIn(script[0]);
      NoHandler(script[1..]);
    }
  }

  lemma PendingIsDue(s: State, script: seq<seq<Step>>)
    requires Inv(s) && s.pending == QueuedBy(script)
    ensures s.pending != [] ==> WakeupDue(s)
  {
    NoHandler(script);
    if s.pending != [] { assert s.pending[0] in s.pending; }
  }

  lemma PushedOutside(s: State)
    requires Inv(s) && !s.place.Running?
    ensures s.executed + s.pending == s.pushed
  {
    assert s.executed + [] + s.pending == s.executed + s.pending;
  }

  // ---------------------------------------------------------------- the class

  datatype Caller = LoopThread | OtherThread(thread: Thread)

  function PushOf(caller: Caller, functor: Functor): Step {
    match caller
    case LoopThread => LoopPush(functor)
    case OtherThread(thread) => Push(thread, functor)
  }

  class EventLoop {
    var pendingFunctors: seq<Item>
    var wakeupFd: nat
    var callingPendingFunctors: bool

    ghost var place: Place
    ghost var loopOwes: bool
    ghost var owing: set<Thread>
    ghost var pushed: seq<Item>
    ghost var executed: seq<Item>

    ghost function Model(): State
      reads this
    {
      State(pendingFunctors, wakeupFd, callingPendingFunctors, place, loopOwes, owing, pushed, executed)
    }

    ghost predicate Valid()
      reads this
    {
      Inv(Model())
    }

    constructor ()
      ensures Valid() && Model() == INIT
    {
      pendingFunctors, wakeupFd, callingPendingFunctors := [], 0, false;
      place, loopOwes, owing, pushed, executed := Outside, false, {}, [], [];
    }

    method Wakeup()
      modifies this`wakeupFd
      ensures wakeupFd == Bump(old(wakeupFd)) && wakeupFd > 0
    {
      if wakeupFd < EVENTFD_MAX {
        wakeupFd := wakeupFd + 1;
      }
    }

    /** The section under the lock. */
    method PushBack(item: Item)
      modifies this`pendingFunctors, this`pushed
      ensures pendingFunctors == old(pendingFunctors) + [item] && pushed == old(pushed) + [item]
    {
      pendingFunctors := pendingFunctors + [item];
      pushed := pushed + [item];
    }

    /** A whole call, from any thread. */
    method QueueInLoop(functor: Functor, caller: Caller)
      requires Valid() && Enabled(Model(), PushOf(caller, functor))
      modifies this
      ensures Valid()
      ensures var queued := Apply(old(Model()), PushOf(caller, functor));
              Model() == match caller
                         case OtherThread(thread) => Apply(queued, Wake(thread))
                         case LoopThread => if old(callingPendingFunctors) then Apply(queued, LoopWake) else queued
      ensures wakeupFd == if caller.OtherThread? || callingPendingFunctors then Bump(old(wakeupFd)) else old(wakeupFd)
    {
      StepKeepsInvariant(Model(), PushOf(caller, functor));
      ghost var queued := Apply(Model(), PushOf(caller, functor));
      match caller {
        case OtherThread(thread) =>
          StepKeepsInvariant(queued, Wake(thread));
          PushBack(Item(functor, Other(thread)));
          assert owing + {thread} - {thread} == owing;
        case LoopThread =>
          if callingPendingFunctors { StepKeepsInvariant(queued, LoopWake); }
          PushBack(Item(functor, if callingPendingFunctors then Batch else Handler));
      }
      if caller.OtherThread? || callingPendingFunctors {
        Wakeup();
      }
    }

    /** One half of such a call; by the loop's own thread, only during a batch. */
    method Perform(step: Step)
      requires Valid() && Enabled(Model(), step)
      requires Meanwhile(step) && (step.LoopPush? ==> callingPendingFunctors)
      modifies this
      ensures Valid() && Model() == Apply(old(Model()), step) && callingPendingFunctors == old(callingPendingFunctors)
      ensures place == old(place) && executed == old(executed)
      ensures pendingFunctors == old(pendingFunctors) + QueuedIn([step])
    {
      hide Inv;
      StepKeepsInvariant(Model(), step);
      assert [step][1..] == [];
      Joined(pendingFunctors, [], []);
      match step {
        case Push(thread, functor) =>
          PushBack(Item(functor, Other(thread)));
          owing := owing + {thread};
        case Wake(thread) =>
          Wakeup();
          owing := owing - {thread};
        case LoopPush(functor) =>
          PushBack(Item(functor, Batch));
          loopOwes := true;
        case LoopWake =>
          Wakeup();
          loopOwes := false;
      }
    }

    /** Several of them. */
    method Interleave(steps: seq<Step>, ghost rest: seq<Step>)
      requires Valid() && forall step :: step in steps ==> Meanwhile(step) && (step.LoopPush? ==> callingPendingFunctors)
      requires IsRun(Model(), steps + rest)
      modifies this
      ensures Valid() && IsRun(Model(), rest) && Exec(Model(), rest) == Exec(old(Model()), steps + rest)
      ensures place == old(place) && executed == old(executed) && callingPendingFunctors == old(callingPendingFunctors)
      ensures pendingFunctors == old(pendingFunctors) + QueuedIn(steps)
    {
      hide Inv, IsRun, Exec, QueuedIn, Apply, Enabled, Meanwhile;
      ghost var start := Model();
      var i := 0;
      assert steps[0..] == steps;
      while i < |steps|
        invariant i <= |steps| && Valid() && callingPendingFunctors == start.calling
        invariant place == start.place && executed == start.executed
        invariant IsRun(Model(), steps[i..] + rest) && Exec(Model(), steps[i..] + rest) == Exec(start, steps + rest)
        invariant pendingFunctors + QueuedIn(steps[i..]) == start.pending + QueuedIn(steps)
      {
        NextStep(steps, i, rest);
        FirstOfRun(Model(), steps[i], steps[i + 1..] + rest);
        NextQueued(pendingFunctors, steps, i);
        assert steps[i] in steps;
        Perform(steps[i]);
        i := i + 1;
      }
      assert steps[i..] == [] && [] + rest == rest;
      NoneQueued();
      Joined(pendingFunctors, [], []);
    }

    /** One functor of the batch, and what happens meanwhile. */
    method RunFunctor(meanwhile: seq<Step>, ghost rest: seq<Step>)
      requires Valid() && forall step :: step in meanwhile ==> Meanwhile(step)
      requires IsRun(Model(), [RunNext] + (meanwhile + rest))
      modifies this
      ensures Valid() && IsRun(Model(), rest)
      ensures Exec(Model(), rest) == Exec(old(Model()), [RunNext] + (meanwhile + rest))
      ensures old(place).Running? && old(place).next < |old(place).batch| && place == Running(old(place).batch, old(place).next + 1)
      ensures executed == old(executed) + [old(place).batch[old(place).next]]
      ensures pendingFunctors == old(pendingFunctors) + QueuedIn(meanwhile)
    {
      hide Inv, IsRun, Exec, QueuedIn, Meanwhile;
      ghost var before := Model();
      FirstOfRun(before, RunNext, meanwhile + rest);
      StepKeepsInvariant(before, RunNext);
      RunningMeansCalling(before);
      executed := executed + [place.batch[place.next]];
      place := Running(place.batch, place.next + 1);
      Interleave(meanwhile, rest);
    }

    /** The loop over what was swapped out. */
    method RunBatch(functors: seq<Item>, script: seq<seq<Step>>, ghost rest: seq<Step>)
      requires Valid() && place == Running(functors, 0) && |script| == |functors| && pendingFunctors == []
      requires forall ops, op :: ops in script && op in ops ==> Meanwhile(op)
      requires IsRun(Model(), Body(script) + rest)
      modifies this
      ensures Valid() && IsRun(Model(), rest) && Exec(Model(), rest) == Exec(old(Model()), Body(script) + rest)
      ensures place == Running(functors, |functors|)
      ensures executed == old(executed) + functors && pendingFunctors == QueuedBy(script)
    {
      hide Inv, IsRun, Exec, QueuedIn, QueuedBy, Body, Apply, Meanwhile;
      ghost var start := Model();
      var i := 0;
      assert script[0..] == script;
      Joined(QueuedBy(script), [], []);
      while i < |functors|
        invariant i <= |functors| && Valid() && place == Running(functors, i)
        invariant executed == start.executed + functors[..i]
        invariant IsRun(Model(), Body(script[i..]) + rest)
        invariant Exec(Model(), Body(script[i..]) + rest) == Exec(start, Body(script) + rest)
        invariant pendingFunctors + QueuedBy(script[i..]) == QueuedBy(script)
      {
        NextInScript(script, i, rest);
        Joined(pendingFunctors, QueuedIn(script[i]), QueuedBy(script[i + 1..]));
        Joined(start.executed, functors[..i], [functors[i]]);
        assert functors[..i + 1] == functors[..i] + [functors[i]];
        assert script[i] in script;
        RunFunctor(script[i], Body(script[i + 1..]) + rest);
        i := i + 1;
      }
      assert functors[..i] == functors && script[i..] == [];
      NoScript(rest);
      Joined(pendingFunctors, [], []);
    }

    /** Runs what is pending at the swap and nothing that is queued meanwhile. */
    method DoPendingFunctors(script: seq<seq<Step>>)
      requires Valid() && |script| == |pendingFunctors| && IsRun(Model(), DoPending(script))
      requires forall ops, op :: ops in script && op in ops ==> Meanwhile(op)
      modifies this
      ensures Valid() && Model() == Exec(old(Model()), DoPending(script)) && place.Outside?
      ensures executed == old(executed) + old(pendingFunctors)
      ensures pendingFunctors == QueuedBy(script)
      ensures pendingFunctors != [] ==> WakeupDue(Model())
    {
      hide Inv, IsRun, Exec, QueuedBy, Body, WakeupDue, Meanwhile;
      ghost var before := Model();
      FirstOfRun(before, Swap, Body(script) + [Finish]);
      StepKeepsInvariant(before, Swap);
      callingPendingFunctors := true;
      var functors := pendingFunctors;
      pendingFunctors := [];
      place := Running(functors, 0);
      RunBatch(functors, script, [Finish]);
      ghost var last := Model();
      assert [Finish] + [] == [Finish];
      FirstOfRun(last, Finish, []);
      NothingLeft(Apply(last, Finish));
      StepKeepsInvariant(last, Finish);
      callingPendingFunctors := false;
      place := Outside;
      PendingIsDue(Model(), script);
    }

    /** The wakeup handler; `others` is what other threads do between its read and its swap. */
    method HandleRead(others: seq<Step>, script: seq<seq<Step>>)
      requires Valid() && Enabled(Model(), ReadFd)
      requires IsRun(Model(), [ReadFd] + (others + DoPending(script)))
      requires forall step :: step in others ==> step.Push? || step.Wake?
      requires forall ops, op :: ops in script && op in ops ==> Meanwhile(op)
      requires |script| == |pendingFunctors| + |QueuedIn(others)|
      modifies this
      ensures Valid() && Model() == Exec(old(Model()), [ReadFd] + (others + DoPending(script))) && place.Outside?
      ensures executed == old(pushed) + QueuedIn(others)
      ensures pendingFunctors == QueuedBy(script)
      ensures pendingFunctors != [] ==> WakeupDue(Model())
    {
      hide Inv, IsRun, Exec, QueuedIn, QueuedBy, DoPending, WakeupDue;
      PushedOutside(Model());
      Joined(executed, pendingFunctors, QueuedIn(others));
      RunningMeansCalling(Model());
      FirstOfRun(Model(), ReadFd, others + DoPending(script));
      StepKeepsInvariant(Model(), ReadFd);
      wakeupFd := 0;
      place := AfterRead;
      Interleave(others, DoPending(script));
      DoPendingFunctors(script);
    }
  }

  lemma NoneQueued()
    ensures QueuedIn([]) == []
  {
  }

  lemma NoScript(rest: seq<Step>)
    ensures QueuedBy([]) == [] && Body([]) + rest == rest
  {
  }
}
