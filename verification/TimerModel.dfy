/** Timers, their ordered index, and every step that TimerQueue can take.

    Timers live at addresses that the allocator may hand out again after a delete, so
    the heap is a map from addresses to timers and a pointer is an address.  A
    `std::set` that is iterated is kept as its strictly ascending sequence; one that is
    only searched is a plain set. */
module TimerModel {

  const MICROS_PER_SECOND := 1000000

  /** The greatest pointer value.  No object starts there. */
  const UINTPTR_MAX := 0xFFFF_FFFF_FFFF_FFFF

  type Addr = nat

  // ---------------------------------------------------------------- Timestamp and Timer

  /** Conversion of a floating-point number to an integer drops the fraction. */
  function Truncate(x: real): int {
    if x < 0.0 then -((-x).Floor) else x.Floor
  }

  function Delta(seconds: real): int {
    Truncate(seconds * (MICROS_PER_SECOND as real))
  }

  function AddTime(time: int, seconds: real): int {
    time + Delta(seconds)
  }

  /** Seconds become microseconds, and what is left of one is dropped. */
  lemma DeltaIsExact(seconds: real)
    ensures seconds >= 0.0 ==> Delta(seconds) as real <= seconds * 1000000.0 < Delta(seconds) as real + 1.0
    ensures seconds <= 0.0 ==> Delta(seconds) as real - 1.0 < seconds * 1000000.0 <= Delta(seconds) as real
  {
    var micros := seconds * 1000000.0;
    if seconds < 0.0 {
      assert (-micros).Floor as real <= -micros < (-micros).Floor as real + 1.0;
    }
  }

  datatype Timer = Timer(expiration: int, interval: real, sequence: int) {
    predicate Repeat() { interval > 0.0 }

    /** Timer::restart; a one-shot timer gets the invalid timestamp. */
    function Restart(now: int): Timer {
      if Repeat() then this.(expiration := AddTime(now, interval)) else this.(expiration := 0)
    }
  }

  lemma DeltaOfRepeating(t: Timer)
    requires t.Repeat()
    ensures 0 <= Delta(t.interval)
  {
    assert t.interval * (MICROS_PER_SECOND as real) >= 0.0;
  }

  // ---------------------------------------------------------------- the timer descriptor

  datatype TimeSpec = TimeSpec(seconds: int, nanoseconds: int)

  function HowMuchTimeFromNow(when: int, clock: int): TimeSpec {
    var microseconds := if when - clock < 100 then 100 else when - clock;
    TimeSpec(microseconds / MICROS_PER_SECOND, (microseconds % MICROS_PER_SECOND) * 1000)
  }

  /** The two fields add up to the delay, which is at least 100 microseconds, and the
      kernel accepts them: the nanosecond part stays below one second. */
  lemma DelayIsExact(when: int, clock: int)
    ensures var ts := HowMuchTimeFromNow(when, clock);
            && ts.seconds >= 0
            && 0 <= ts.nanoseconds < 1000000000
            && (ts.seconds * 1000000000 + ts.nanoseconds == 1000 * (when - clock) || when - clock < 100)
            && (when - clock <= 100 ==> ts.seconds * 1000000000 + ts.nanoseconds == 100000)
  {
    var m := if when - clock < 100 then 100 else when - clock;
    assert m == MICROS_PER_SECOND * (m / MICROS_PER_SECOND) + m % MICROS_PER_SECOND;
  }

  /** What was last asked of the descriptor: to fire for `requested`, asked at `at`. */
  datatype Alarm = Disarmed | Armed(requested: int, at: int)

  /** The moment, in nanoseconds, at which an armed descriptor becomes readable. */
  function FiresAt(requested: int, at: int): int {
    var ts := HowMuchTimeFromNow(requested, at);
    at * 1000 + ts.seconds * 1000000000 + ts.nanoseconds
  }

  /** Arming for an earlier moment never fires later than it should by more than the
      100 microsecond floor. */
  lemma FiresInTime(requested: int, at: int, expiration: int)
    requires requested <= expiration
    ensures FiresAt(requested, at) <= 1000 * expiration || FiresAt(requested, at) == 1000 * (at + 100)
    ensures requested >= at + 100 ==> FiresAt(requested, at) == 1000 * requested
  {
    DelayIsExact(requested, at);
  }

  // ---------------------------------------------------------------- the ordered index

  datatype Entry = Entry(when: int, addr: Addr)

  /** A key of the active set, which is also what a TimerId holds. */
  datatype ActiveTimer = ActiveTimer(addr: Addr, sequence: int)

  /** The order of std::pair (section 20.3.3 of ISO C++11). */
  predicate Less(a: Entry, b: Entry) {
    a.when < b.when || (a.when == b.when && a.addr < b.addr)
  }

  /** Strictly ascending, so without repetition. */
  predicate Sorted(ts: seq<Entry>) {
    ts == [] || ((forall e :: e in ts[1..] ==> Less(ts[0], e)) && Sorted(ts[1..]))
  }

  function Insert(ts: seq<Entry>, e: Entry): (r: seq<Entry>)
    ensures forall x :: x in r <==> x in ts || x == e
    ensures Sorted(ts) ==> Sorted(r)
    ensures |r| > 0 && (e !in ts ==> |r| == |ts| + 1)
  {
    if ts == [] || Less(e, ts[0]) then
      assert ts != [] ==> ts == [ts[0]] + ts[1..];
      assert ([e] + ts)[1..] == ts;
      [e] + ts
    else if e == ts[0] then ts
    else
      var rest := Insert(ts[1..], e);
      assert ts == [ts[0]] + ts[1..];
      [ts[0]] + rest
  }

  function Remove(ts: seq<Entry>, e: Entry): (r: seq<Entry>)
    ensures forall x :: x in r <==> x in ts && x != e
    ensures Sorted(ts) ==> Sorted(r)
  {
    if ts == [] then []
    else
      var rest := Remove(ts[1..], e);
      assert ts == [ts[0]] + ts[1..];
      if ts[0] == e then rest else [ts[0]] + rest
  }

  /** The entries whose time has come, and those whose time has not. */
  function Due(ts: seq<Entry>, now: int): (r: seq<Entry>)
    ensures forall x :: x in r <==> x in ts && x.when <= now
    ensures Sorted(ts) ==> Sorted(r)
  {
    if ts == [] then []
    else
      var rest := Due(ts[1..], now);
      assert ts == [ts[0]] + ts[1..];
      if ts[0].when <= now then [ts[0]] + rest else rest
  }

  function Later(ts: seq<Entry>, now: int): (r: seq<Entry>)
    ensures forall x :: x in r <==> x in ts && x.when > now
    ensures Sorted(ts) ==> Sorted(r)
  {
    if ts == [] then []
    else
      var rest := Later(ts[1..], now);
      assert ts == [ts[0]] + ts[1..];
      if ts[0].when > now then [ts[0]] + rest else rest
  }

  /** std::set::lower_bound, as a position. */
  function LowerBound(ts: seq<Entry>, key: Entry): (k: nat)
    ensures k <= |ts|
    ensures forall i :: 0 <= i < k ==> Less(ts[i], key)
    ensures k < |ts| ==> !Less(ts[k], key)
  {
    if ts == [] || !Less(ts[0], key) then 0 else 1 + LowerBound(ts[1..], key)
  }

  lemma FirstSplits(ts: seq<Entry>, now: int)
    requires ts != []
    ensures Due(ts, now) == (if ts[0].when <= now then [ts[0]] else []) + Due(ts[1..], now)
    ensures Later(ts, now) == (if ts[0].when > now then [ts[0]] else []) + Later(ts[1..], now)
  {
  }

  lemma FirstBounds(ts: seq<Entry>, now: int)
    requires ts != [] && ts[0].addr < UINTPTR_MAX
    ensures var key := Entry(now, UINTPTR_MAX);
            LowerBound(ts, key) == if ts[0].when <= now then 1 + LowerBound(ts[1..], key) else 0
  {
  }

  lemma CutAfterFirst(ts: seq<Entry>, k: nat)
    requires 0 < k <= |ts|
    ensures ts[..k] == [ts[0]] + ts[1..][..k - 1] && ts[k..] == ts[1..][k - 1..]
  {
  }

  lemma NoneDue(ts: seq<Entry>, now: int)
    requires forall e :: e in ts ==> e.when > now
    ensures Due(ts, now) == [] && Later(ts, now) == ts
  {
    if ts != [] {
      assert forall e :: e in ts[1..] ==> e in ts;
      NoneDue(ts[1..], now);
      assert ts == [ts[0]] + ts[1..];
    }
  }

  /** Searching for (now, UINTPTR_MAX) cuts the index exactly at now, ties included. */
  lemma {:induction false} SentrySplitsAtNow(ts: seq<Entry>, now: int)
    requires Sorted(ts)
    requires forall e :: e in ts ==> e.addr < UINTPTR_MAX
    ensures var k := LowerBound(ts, Entry(now, UINTPTR_MAX));
            ts[..k] == Due(ts, now) && ts[k..] == Later(ts, now)
  {
    hide Due, Later, LowerBound;
    if ts == [] {
      NoneDue(ts, now);
    } else {
      assert ts[0] in ts && forall e :: e in ts <==> e == ts[0] || e in ts[1..];
      FirstBounds(ts, now);
      if ts[0].when <= now {
        FirstSplits(ts, now);
        SentrySplitsAtNow(ts[1..], now);
        CutAfterFirst(ts, LowerBound(ts, Entry(now, UINTPTR_MAX)));
      } else {
        NoneDue(ts, now);
        assert ts[..0] == [] && ts[0..] == ts;
      }
    }
  }

  // ---------------------------------------------------------------- states and steps

  /** Where control is: outside handleRead; inside it, with `next` of the batch already
      run and `cancels` the ids passed to cancel since it began; or after the destructor. */
  datatype Phase =
    | Idle
    | Running(now: int, batch: seq<Entry>, next: nat, cancels: set<ActiveTimer>)
    | Destroyed

  datatype Run = Run(sequence: int, now: int, expiration: int, interval: real)

  /** The queue, the heap it shares with its callers, and two histories: the sequence
      numbers deleted so far and the callbacks run so far. */
  datatype State = State(
    heap: map<Addr, Timer>,
    created: int,
    timers: seq<Entry>,
    active: set<ActiveTimer>,
    canceling: set<ActiveTimer>,
    calling: bool,
    alarm: Alarm,
    queued: set<Addr>,
    phase: Phase,
    freed: seq<int>,
    runs: seq<Run>)

  /** The constructor; nothing initialises callingExpiredTimers_. */
  function Init(calling: bool): State {
    State(map[], 0, [], {}, {}, calling, Disarmed, {}, Idle, [], [])
  }

  /** Callbacks are opaque: whatever one does appears as AddTimer and Cancel steps
      between two RunNext steps.  AddElsewhere is addTimer on another thread up to the
      hand-over; what follows there is TimerIds.  `clock` is the time read while arming,
      `drained` says whether reading the descriptor found it fired. */
  datatype Step =
    | AddTimer(addr: Addr, when: int, interval: real, clock: int)
    | AddElsewhere(addr: Addr, when: int, interval: real)
    | AddQueued(addr: Addr, clock: int)
    | Cancel(id: ActiveTimer)
    | BeginRead(now: int, drained: bool)
    | RunNext
    | EndRead(clock: int)
    | Destroy

  /** What the surroundings guarantee: the allocator returns memory that is not in use,
      the wall clock is past the epoch, and the loop calls handleRead only from outside. */
  predicate Enabled(s: State, step: Step) {
    match step
    case AddTimer(addr, _, _, _) => !s.phase.Destroyed? && addr !in s.heap && addr < UINTPTR_MAX
    case AddElsewhere(addr, _, _) => !s.phase.Destroyed? && addr !in s.heap && addr < UINTPTR_MAX
    case AddQueued(addr, _) => !s.phase.Destroyed? && addr in s.queued
    case Cancel(_) => !s.phase.Destroyed?
    case BeginRead(now, _) => s.phase.Idle? && now > 0
    case RunNext => s.phase.Running? && s.phase.next < |s.phase.batch|
    case EndRead(_) => s.phase.Running? && s.phase.next == |s.phase.batch|
    case Destroy => s.phase.Idle?
  }

  /** A timer that may be put into both indices: it is allocated and in neither. */
  predicate Insertable(s: State, addr: Addr) {
    && addr in s.heap
    && Entry(s.heap[addr].expiration, addr) !in s.timers
    && ActiveTimer(addr, s.heap[addr].sequence) !in s.active
  }

  predicate BatchAllocated(s: State) {
    && s.phase.Running?
    && (forall i :: 0 <= i < |s.phase.batch| ==> s.phase.batch[i].addr in s.heap)
    && (forall i, j :: 0 <= i < j < |s.phase.batch| ==> s.phase.batch[i].addr != s.phase.batch[j].addr)
  }

  /** No dangling pointer is followed and every assert of the source that the step
      reaches holds. */
  predicate Safe(s: State, step: Step) {
    match step
    case AddTimer(addr, when, interval, _) =>
      && Entry(when, addr) !in s.timers
      && ActiveTimer(addr, s.created + 1) !in s.active
      && |s.timers| == |s.active|
    case AddElsewhere(_, _, _) => true
    case AddQueued(addr, _) => Insertable(s, addr) && |s.timers| == |s.active|
    case Cancel(id) =>
      && |s.timers| == |s.active|
      && (id in s.active ==> id.addr in s.heap && Entry(s.heap[id.addr].expiration, id.addr) in s.timers)
    case BeginRead(now, _) =>
      && (forall e :: e in s.timers ==> e.addr in s.heap)
      && (forall e :: e in Due(s.timers, now) ==> ActiveTimer(e.addr, s.heap[e.addr].sequence) in s.active)
    case RunNext => s.phase.Running? && s.phase.next < |s.phase.batch| && s.phase.batch[s.phase.next].addr in s.heap
    case EndRead(_) =>
      && BatchAllocated(s)
      && (forall e :: e in s.phase.batch ==> ActiveTimer(e.addr, s.heap[e.addr].sequence) !in s.active)
      && (forall e, t :: e in s.phase.batch && t in s.timers ==> e.addr != t.addr)
    case Destroy => forall e :: e in s.timers ==> e.addr in s.heap
  }

  function Allocate(s: State, addr: Addr, when: int, interval: real): State {
    s.(heap := s.heap[addr := Timer(when, interval, s.created + 1)], created := s.created + 1)
  }

  /** TimerQueue::insert without the return value. */
  function Index(s: State, addr: Addr): State
    requires addr in s.heap
  {
    var t := s.heap[addr];
    s.(timers := Insert(s.timers, Entry(t.expiration, addr)),
    active := s.active + {ActiveTimer(addr, t.sequence)})
  }

  predicate EarliestChanged(s: State, addr: Addr)
    requires addr in s.heap
  {
    s.timers == [] || s.heap[addr].expiration < s.timers[0].when
  }

  function AddInLoop(s: State, addr: Addr, clock: int): State
    requires addr in s.heap
  {
    var s' := Index(s, addr);
    if EarliestChanged(s, addr) then s'.(alarm := Armed(s.heap[addr].expiration, clock)) else s'
  }

  function Free(s: State, addr: Addr): State
    requires addr in s.heap
  {
    s.(heap := map a | a in s.heap && a != addr :: s.heap[a], freed := s.freed + [s.heap[addr].sequence])
  }

  function NoteCancel(p: Phase, id: ActiveTimer): Phase {
    if p.Running? then p.(cancels := p.cancels + {id}) else p
  }

  function CancelInLoop(s: State, id: ActiveTimer): State
    requires id in s.active ==> id.addr in s.heap
  {
    var s' := s.(phase := NoteCancel(s.phase, id));
    if id in s.active then
      Free(s', id.addr).(timers := Remove(s.timers, Entry(s.heap[id.addr].expiration, id.addr)),
      active := s.active - {id})
    else if s.calling then
      s'.(canceling := s.canceling + {id})
    else
      s'
  }

  /** The keys in the active set of the given entries. */
  function Keys(heap: map<Addr, Timer>, es: seq<Entry>): set<ActiveTimer>
    requires forall e :: e in es ==> e.addr in heap
  {
    set e | e in es :: ActiveTimer(e.addr, heap[e.addr].sequence)
  }

  function Begin(s: State, now: int, drained: bool): State
    requires forall e :: e in s.timers ==> e.addr in s.heap
  {
    s.(timers := Later(s.timers, now),
    active := s.active - Keys(s.heap, Due(s.timers, now)),
    canceling := {},
    calling := true,
    alarm := if drained then Disarmed else s.alarm,
    phase := Running(now, Due(s.timers, now), 0, {}))
  }

  function RunCallback(s: State): State
    requires s.phase.Running? && s.phase.next < |s.phase.batch|
    requires s.phase.batch[s.phase.next].addr in s.heap
  {
    var t := s.heap[s.phase.batch[s.phase.next].addr];
    s.(runs := s.runs + [Run(t.sequence, s.phase.now, t.expiration, t.interval)],
    phase := s.phase.(next := s.phase.next + 1))
  }

  /** One iteration of the loop in reset, for the first entry of what is left. */
  function ResetOne(s: State): State
    requires BatchAllocated(s) && |s.phase.batch| > 0
  {
    var addr := s.phase.batch[0].addr;
    var t := s.heap[addr];
    var rest := s.(phase := s.phase.(batch := s.phase.batch[1..],
              next := if s.phase.next > 0 then s.phase.next - 1 else 0));
    if t.Repeat() && ActiveTimer(addr, t.sequence) !in s.canceling then
      Index(rest.(heap := s.heap[addr := t.Restart(s.phase.now)]), addr)
    else
      Free(rest, addr)
  }

  function ResetAll(s: State): State
    requires BatchAllocated(s)
    decreases |s.phase.batch|
  {
    if s.phase.batch == [] then s else ResetAll(ResetOne(s))
  }

  /** The end of reset: arm for the earliest timer, if its timestamp is valid. */
  function Rearm(s: State, clock: int): State {
    if s.timers != [] && s.timers[0].when > 0 then s.(alarm := Armed(s.timers[0].when, clock)) else s
  }

  function FreeAll(s: State, es: seq<Entry>): State
    decreases |es|
  {
    if es == [] then s
    else FreeAll(if es[0].addr in s.heap then Free(s, es[0].addr) else s, es[1..])
  }

  function Apply(s: State, step: Step): State
    requires Enabled(s, step) && Safe(s, step)
  {
    match step
    case AddTimer(addr, when, interval, clock) => AddInLoop(Allocate(s, addr, when, interval), addr, clock)
    case AddElsewhere(addr, when, interval) =>
      Allocate(s, addr, when, interval).(queued := s.queued + {addr})
    case AddQueued(addr, clock) => AddInLoop(s.(queued := s.queued - {addr}), addr, clock)
    case Cancel(id) => CancelInLoop(s, id)
    case BeginRead(now, drained) => Begin(s, now, drained)
    case RunNext => RunCallback(s)
    case EndRead(clock) => Rearm(ResetAll(s.(calling := false)), clock).(phase := Idle)
    case Destroy => FreeAll(s, s.timers).(timers := [], active := {}, phase := Destroyed)
  }

  // ---------------------------------------------------------------- runs

  /** Every step is enabled when it is taken.  Nothing here says that it is safe. */
  predicate IsRun(s: State, steps: seq<Step>)
    decreases |steps|
  {
    steps == [] ||
    (Enabled(s, steps[0]) && (Safe(s, steps[0]) ==> IsRun(Apply(s, steps[0]), steps[1..])))
  }

  predicate RunIsSafe(s: State, steps: seq<Step>)
    decreases |steps|
  {
    steps == [] ||
    (Enabled(s, steps[0]) && Safe(s, steps[0]) && RunIsSafe(Apply(s, steps[0]), steps[1..]))
  }

  function Exec(s: State, steps: seq<Step>): State
    requires RunIsSafe(s, steps)
    decreases |steps|
  {
    if steps == [] then s else Exec(Apply(s, steps[0]), steps[1..])
  }
}
