/** What every step of TimerQueue keeps, and what follows for whole runs. */
module TimerProofs {
  import opened TimerModel

  type Heap = map<Addr, Timer>

  // ---------------------------------------------------------------- the invariant

  function KeyOf(heap: Heap, addr: Addr): ActiveTimer
    requires addr in heap
  {
    ActiveTimer(addr, heap[addr].sequence)
  }

  function EntryOf(heap: Heap, addr: Addr): Entry
    requires addr in heap
  {
    Entry(heap[addr].expiration, addr)
  }

  predicate InBatch(p: Phase, addr: Addr) {
    p.Running? && exists e :: e in p.batch && e.addr == addr
  }

  /** The timer is in the batch and its callback was already run. */
  predicate HasRun(p: Phase, addr: Addr) {
    p.Running? && exists i :: 0 <= i < p.next && i < |p.batch| && p.batch[i].addr == addr
  }

  predicate HeapHas(heap: Heap, sequence: int) {
    exists a :: a in heap && heap[a].sequence == sequence
  }

  /** The two indices agree, with each other and with the timers they point at. */
  predicate Indexed(heap: Heap, timers: seq<Entry>, active: set<ActiveTimer>) {
    && Sorted(timers)
    && (forall e :: e in timers ==> e.addr in heap && e == EntryOf(heap, e.addr) && KeyOf(heap, e.addr) in active)
    && (forall t :: t in active ==> t.addr in heap && t == KeyOf(heap, t.addr) && EntryOf(heap, t.addr) in timers)
  }

  /** The batch being run holds distinct allocated timers whose time has come. */
  predicate BatchDue(heap: Heap, p: Phase) {
    p.Running? ==>
      && p.now > 0
      && p.next <= |p.batch|
      && (forall i, j :: 0 <= i < j < |p.batch| ==> p.batch[i].addr != p.batch[j].addr)
      && (forall e :: e in p.batch ==> e.addr in heap && e == EntryOf(heap, e.addr) && e.when <= p.now)
  }

  /** Every allocated timer waits to be added, is active or belongs to the batch being
      run, and never two of these. */
  predicate Owned(heap: Heap, queued: set<Addr>, active: set<ActiveTimer>, p: Phase) {
    && queued <= heap.Keys
    && (forall a :: a in heap ==>
                      && a < UINTPTR_MAX
                      && (a in queued || KeyOf(heap, a) in active || InBatch(p, a))
                      && !(a in queued && KeyOf(heap, a) in active)
                      && !(a in queued && InBatch(p, a))
                      && !(KeyOf(heap, a) in active && InBatch(p, a)))
  }

  /** Sequence numbers 1..created: each names one allocated timer or was freed, once. */
  predicate Numbered(heap: Heap, created: int, freed: seq<int>) {
    && created >= 0
    && (forall a :: a in heap ==> 1 <= heap[a].sequence <= created && heap[a].sequence !in freed)
    && (forall a, b :: a in heap && b in heap && heap[a].sequence == heap[b].sequence ==> a == b)
    && (forall i, j :: 0 <= i < j < |freed| ==> freed[i] != freed[j])
    && (forall n :: n in freed ==> 1 <= n <= created)
    && (forall n :: 1 <= n <= created ==> n in freed || HeapHas(heap, n))
  }

  /** Outside handleRead no alarm is missing.  Inside, only a timer added by a callback
      can carry an invalid timestamp, and adding it armed the descriptor. */
  predicate Alarmed(timers: seq<Entry>, alarm: Alarm, p: Phase) {
    forall e :: e in timers && (p.Idle? || e.when <= 0) ==> alarm.Armed? && alarm.requested <= e.when
  }

  predicate RunsOnTime(runs: seq<Run>) {
    && (forall r :: r in runs ==> r.expiration <= r.now)
    && (forall i, j :: 0 <= i < j < |runs| && runs[i].sequence == runs[j].sequence ==>
                         runs[i].interval > 0.0 && runs[i].now + Delta(runs[i].interval) <= runs[j].now)
  }

  /** A run of a timer still allocated is one interval before its expiration. */
  predicate Spaced(t: Timer, r: Run, hasRun: bool, p: Phase) {
    && r.interval == t.interval
    && if hasRun then p.Running? && r.now <= p.now
       else r.interval > 0.0 && r.now + Delta(r.interval) <= t.expiration
  }

  predicate Punctual(heap: Heap, created: int, runs: seq<Run>, p: Phase) {
    && RunsOnTime(runs)
    && (forall r :: r in runs ==> r.sequence <= created)
    && (forall a, r :: a in heap && r in runs && heap[a].sequence == r.sequence ==>
                         Spaced(heap[a], r, HasRun(p, a), p))
  }

  /** While the batch runs, its tombstones are exactly the ids cancelled since it began. */
  predicate Tombstoned(heap: Heap, canceling: set<ActiveTimer>, p: Phase) {
    p.Running? ==>
      forall e :: e in p.batch && e.addr in heap ==>
                    (KeyOf(heap, e.addr) in canceling <==> KeyOf(heap, e.addr) in p.cancels)
  }

  predicate Core(s: State) {
    && Indexed(s.heap, s.timers, s.active)
    && BatchDue(s.heap, s.phase)
    && Owned(s.heap, s.queued, s.active, s.phase)
    && Numbered(s.heap, s.created, s.freed)
    && Alarmed(s.timers, s.alarm, s.phase)
    && Punctual(s.heap, s.created, s.runs, s.phase)
    && Tombstoned(s.heap, s.canceling, s.phase)
  }

  predicate Inv(s: State) {
    if s.phase.Destroyed? then
      && Numbered(s.heap, s.created, s.freed) && RunsOnTime(s.runs) && s.timers == [] && s.active == {}
      && Owned(s.heap, s.queued, s.active, s.phase)
    else
      Core(s) && (s.phase.Running? ==> s.calling)
  }

  lemma InitInv(calling: bool)
    ensures Inv(Init(calling))
  {
  }

  // ---------------------------------------------------------------- sizes

  lemma {:induction false} SizesAgree(heap: Heap, timers: seq<Entry>, active: set<ActiveTimer>)
    requires Indexed(heap, timers, active)
    ensures |timers| == |active|
    decreases |timers|
  {
    if timers == [] {
      if t :| t in active { assert false; }
    } else {
      var first := timers[0];
      assert timers == [first] + timers[1..];
      assert first in timers;
      SizesAgree(heap, timers[1..], active - {KeyOf(heap, first.addr)});
    }
  }

  lemma FirstIsEarliest(timers: seq<Entry>)
    requires Sorted(timers) && timers != []
    ensures forall e :: e in timers ==> timers[0].when <= e.when
  {
    assert timers == [timers[0]] + timers[1..];
  }

  // ---------------------------------------------------------------- heap updates

  /** Writing to a timer outside both indices, new or old. */
  lemma IndexedWrite(heap: Heap, timers: seq<Entry>, active: set<ActiveTimer>, a: Addr, t: Timer)
    requires Indexed(heap, timers, active)
    requires a in heap ==> KeyOf(heap, a) !in active
    ensures Indexed(heap[a := t], timers, active)
  {
  }

  lemma IndexedNew(heap: Heap, timers: seq<Entry>, active: set<ActiveTimer>, a: Addr, t: Timer)
    requires Indexed(heap, timers, active) && a !in heap
    ensures Indexed(heap[a := t], timers, active)
  {
  }

  lemma IndexedInsert(heap: Heap, timers: seq<Entry>, active: set<ActiveTimer>, a: Addr)
    requires Indexed(heap, timers, active) && a in heap
    ensures Indexed(heap, Insert(timers, EntryOf(heap, a)), active + {KeyOf(heap, a)})
  {
  }

  /** Dropping a timer from the heap together with its index entries, if any. */
  lemma IndexedDrop(heap: Heap, timers: seq<Entry>, active: set<ActiveTimer>, a: Addr)
    requires Indexed(heap, timers, active) && a in heap
    ensures Indexed(Without(heap, a), Remove(timers, EntryOf(heap, a)), active - {KeyOf(heap, a)})
  {
  }

  lemma IndexedForget(heap: Heap, timers: seq<Entry>, active: set<ActiveTimer>, a: Addr)
    requires Indexed(heap, timers, active) && a in heap && KeyOf(heap, a) !in active
    ensures Indexed(Without(heap, a), timers, active)
  {
  }

  lemma IndexedBegin(heap: Heap, timers: seq<Entry>, active: set<ActiveTimer>, now: int)
    requires Indexed(heap, timers, active)
    ensures Indexed(heap, Later(timers, now), active - Keys(heap, Due(timers, now)))
  {
  }

  lemma NumberedNew(heap: Heap, created: int, freed: seq<int>, a: Addr, t: Timer)
    requires Numbered(heap, created, freed) && a !in heap && t.sequence == created + 1
    ensures Numbered(heap[a := t], created + 1, freed)
  {
    var heap' := heap[a := t];
    forall n | 1 <= n <= created + 1 && n !in freed ensures HeapHas(heap', n) {
      if n == created + 1 {
        assert heap'[a].sequence == n;
      } else {
        assert HeapHas(heap, n);
        var b :| b in heap && heap[b].sequence == n;
        assert b in heap' && heap'[b].sequence == n;
      }
    }
  }

  lemma NumberedRestart(heap: Heap, created: int, freed: seq<int>, a: Addr, t: Timer)
    requires Numbered(heap, created, freed) && a in heap && t.sequence == heap[a].sequence
    ensures Numbered(heap[a := t], created, freed)
  {
    var heap' := heap[a := t];
    forall n | HeapHas(heap, n) ensures HeapHas(heap', n) {
      var b :| b in heap && heap[b].sequence == n;
      assert b in heap' && heap'[b].sequence == n;
    }
  }

  lemma NumberedFree(heap: Heap, created: int, freed: seq<int>, a: Addr)
    requires Numbered(heap, created, freed) && a in heap
    ensures Numbered(Without(heap, a), created, freed + [heap[a].sequence])
  {
    var heap' := Without(heap, a);
    var freed' := freed + [heap[a].sequence];
    forall n | 1 <= n <= created && n !in freed' ensures HeapHas(heap', n) {
      assert n !in freed && n != freed'[|freed|];
      assert HeapHas(heap, n);
      var b :| b in heap && heap[b].sequence == n;
      assert b in heap' && heap'[b].sequence == n;
    }
  }

  lemma PunctualNew(heap: Heap, created: int, freed: seq<int>, runs: seq<Run>, p: Phase, a: Addr, t: Timer)
    requires Punctual(heap, created, runs, p) && Numbered(heap, created, freed)
    requires a !in heap && t.sequence == created + 1
    ensures Punctual(heap[a := t], created + 1, runs, p)
  {
  }

  lemma PunctualFree(heap: Heap, created: int, runs: seq<Run>, p: Phase, a: Addr)
    requires Punctual(heap, created, runs, p) && a in heap
    ensures Punctual(Without(heap, a), created, runs, p)
  {
  }

  // ---------------------------------------------------------------- owners

  function Without(heap: Heap, a: Addr): Heap {
    map b | b in heap && b != a :: heap[b]
  }

  lemma OwnedNew(heap: Heap, timers: seq<Entry>, queued: set<Addr>, active: set<ActiveTimer>, p: Phase, a: Addr, t: Timer)
    requires Owned(heap, queued, active, p) && BatchDue(heap, p) && a !in heap && a < UINTPTR_MAX
    requires Indexed(heap, timers, active)
    ensures Owned(heap[a := t], queued + {a}, active, p)
  {
  }

  lemma OwnedDrop(heap: Heap, queued: set<Addr>, active: set<ActiveTimer>, p: Phase, a: Addr)
    requires Owned(heap, queued, active, p) && a in heap && KeyOf(heap, a) in active
    ensures Owned(Without(heap, a), queued, active - {KeyOf(heap, a)}, p)
  {
  }

  lemma OwnedSamePlaces(heap: Heap, queued: set<Addr>, active: set<ActiveTimer>, p: Phase, q: Phase)
    requires Owned(heap, queued, active, p)
    requires forall a :: InBatch(p, a) <==> InBatch(q, a)
    ensures Owned(heap, queued, active, q)
  {
  }

  lemma BatchKeptElsewhere(heap: Heap, p: Phase, a: Addr)
    requires BatchDue(heap, p) && !InBatch(p, a)
    ensures BatchDue(Without(heap, a), p)
  {
  }

  lemma BatchKeptNew(heap: Heap, canceling: set<ActiveTimer>, p: Phase, a: Addr, t: Timer)
    requires BatchDue(heap, p) && Tombstoned(heap, canceling, p) && a !in heap
    ensures BatchDue(heap[a := t], p) && Tombstoned(heap[a := t], canceling, p)
  {
  }

  // ---------------------------------------------------------------- adding

  lemma AddElsewhereKeeps(s: State, a: Addr, when: int, interval: real)
    requires Core(s) && a !in s.heap && a < UINTPTR_MAX
    ensures Core(Allocate(s, a, when, interval).(queued := s.queued + {a}))
  {
    hide Indexed, BatchDue, Owned, Numbered, Alarmed, Punctual, Tombstoned;
    var t := Timer(when, interval, s.created + 1);
    IndexedNew(s.heap, s.timers, s.active, a, t);
    NumberedNew(s.heap, s.created, s.freed, a, t);
    PunctualNew(s.heap, s.created, s.freed, s.runs, s.phase, a, t);
    OwnedNew(s.heap, s.timers, s.queued, s.active, s.phase, a, t);
    BatchKeptNew(s.heap, s.canceling, s.phase, a, t);
  }

  lemma AlarmedAdd(s: State, a: Addr, clock: int)
    requires Alarmed(s.timers, s.alarm, s.phase) && Sorted(s.timers) && a in s.heap
    ensures var s' := AddInLoop(s, a, clock); Alarmed(s'.timers, s'.alarm, s'.phase)
  {
    if s.timers != [] {
      FirstIsEarliest(s.timers);
      assert s.timers[0] in s.timers;
    }
  }

  lemma OwnedAdd(heap: Heap, queued: set<Addr>, active: set<ActiveTimer>, p: Phase, a: Addr)
    requires Owned(heap, queued, active, p) && a in queued
    ensures a in heap && Owned(heap, queued - {a}, active + {KeyOf(heap, a)}, p)
  {
  }

  lemma AddQueuedKeeps(s: State, a: Addr, clock: int)
    requires Core(s) && a in s.queued
    ensures a in s.heap && Core(AddInLoop(s.(queued := s.queued - {a}), a, clock))
  {
    hide Indexed, BatchDue, Owned, Numbered, Alarmed, Punctual, Tombstoned;
    OwnedAdd(s.heap, s.queued, s.active, s.phase, a);
    IndexedInsert(s.heap, s.timers, s.active, a);
    SortedWhenIndexed(s.heap, s.timers, s.active);
    AlarmedAdd(s.(queued := s.queued - {a}), a, clock);
  }

  lemma SortedWhenIndexed(heap: Heap, timers: seq<Entry>, active: set<ActiveTimer>)
    requires Indexed(heap, timers, active)
    ensures Sorted(timers)
  {
  }

  lemma QueuedAllocated(s: State)
    requires Core(s)
    ensures s.queued <= s.heap.Keys
  {
  }

  /** On the loop thread, addTimer is the other two additions in one go. */
  lemma AddTimerKeeps(s: State, a: Addr, when: int, interval: real, clock: int)
    requires Core(s) && a !in s.heap && a < UINTPTR_MAX
    ensures Core(AddInLoop(Allocate(s, a, when, interval), a, clock))
  {
    QueuedAllocated(s);
    hide Core;
    AddElsewhereKeeps(s, a, when, interval);
    var queued := Allocate(s, a, when, interval).(queued := s.queued + {a});
    AddQueuedKeeps(queued, a, clock);
    assert (s.queued + {a}) - {a} == s.queued;
    assert queued.(queued := queued.queued - {a}) == Allocate(s, a, when, interval);
  }

  // ---------------------------------------------------------------- cancelling

  lemma TombstonedNote(heap: Heap, canceling: set<ActiveTimer>, p: Phase, id: ActiveTimer)
    requires Tombstoned(heap, canceling, p)
    ensures Tombstoned(heap, canceling + {id}, NoteCancel(p, id))
  {
  }

  lemma NoteKeepsPlaces(p: Phase, id: ActiveTimer)
    ensures forall a :: InBatch(NoteCancel(p, id), a) <==> InBatch(p, a)
    ensures forall a :: HasRun(NoteCancel(p, id), a) <==> HasRun(p, a)
  {
    var q := NoteCancel(p, id);
    forall a ensures HasRun(q, a) <==> HasRun(p, a) {
      if HasRun(p, a) {
        var i :| 0 <= i < p.next && i < |p.batch| && p.batch[i].addr == a;
        assert q.batch[i].addr == a;
      }
      if HasRun(q, a) {
        var i :| 0 <= i < q.next && i < |q.batch| && q.batch[i].addr == a;
        assert p.batch[i].addr == a;
      }
    }
  }

  lemma PunctualSamePlaces(heap: Heap, created: int, runs: seq<Run>, p: Phase, id: ActiveTimer)
    requires Punctual(heap, created, runs, p)
    ensures Punctual(heap, created, runs, NoteCancel(p, id))
  {
    NoteKeepsPlaces(p, id);
    forall a, r | a in heap && r in runs && heap[a].sequence == r.sequence
      ensures Spaced(heap[a], r, HasRun(NoteCancel(p, id), a), NoteCancel(p, id))
    {
      assert Spaced(heap[a], r, HasRun(p, a), p);
    }
  }

  /** Noting the id alone; a tombstone may have to be added. */
  lemma NoteKeeps(s: State, id: ActiveTimer)
    requires Core(s)
    ensures var p := NoteCancel(s.phase, id);
            && BatchDue(s.heap, p)
            && Owned(s.heap, s.queued, s.active, p)
            && Alarmed(s.timers, s.alarm, p)
            && Punctual(s.heap, s.created, s.runs, p)
  {
    NoteKeepsPlaces(s.phase, id);
    OwnedSamePlaces(s.heap, s.queued, s.active, s.phase, NoteCancel(s.phase, id));
    PunctualSamePlaces(s.heap, s.created, s.runs, s.phase, id);
  }

  /** A timer of the batch is not active, so its id is not the one dropped. */
  lemma TombstonedDrop(heap: Heap, canceling: set<ActiveTimer>, p: Phase, a: Addr)
    requires Tombstoned(heap, canceling, p) && a in heap && !InBatch(p, a)
    ensures Tombstoned(Without(heap, a), canceling, NoteCancel(p, KeyOf(heap, a)))
  {
  }

  lemma ActiveIsAllocated(s: State, id: ActiveTimer)
    requires Core(s) && id in s.active
    ensures id.addr in s.heap && id == KeyOf(s.heap, id.addr) && !InBatch(s.phase, id.addr)
    ensures EntryOf(s.heap, id.addr) in s.timers
  {
  }

  lemma AlarmedLess(timers: seq<Entry>, fewer: seq<Entry>, alarm: Alarm, p: Phase)
    requires Alarmed(timers, alarm, p) && forall e :: e in fewer ==> e in timers
    ensures Alarmed(fewer, alarm, p)
  {
  }

  lemma CancelActiveKeeps(s: State, id: ActiveTimer)
    requires Core(s) && id in s.active
    ensures id.addr in s.heap && Core(CancelInLoop(s, id))
  {
    ActiveIsAllocated(s, id);
    hide Indexed, BatchDue, Owned, Numbered, Alarmed, Punctual, Tombstoned;
    var a := id.addr;
    var p := NoteCancel(s.phase, id);
    NoteKeeps(s, id);
    NoteKeepsPlaces(s.phase, id);
    IndexedDrop(s.heap, s.timers, s.active, a);
    BatchKeptElsewhere(s.heap, p, a);
    OwnedDrop(s.heap, s.queued, s.active, p, a);
    NumberedFree(s.heap, s.created, s.freed, a);
    PunctualFree(s.heap, s.created, s.runs, p, a);
    TombstonedDrop(s.heap, s.canceling, s.phase, a);
    AlarmedLess(s.timers, Remove(s.timers, EntryOf(s.heap, a)), s.alarm, p);
    assert CancelInLoop(s, id).heap == Without(s.heap, a);
  }

  lemma CancelKeeps(s: State, id: ActiveTimer)
    requires Core(s) && (s.phase.Running? ==> s.calling)
    ensures id in s.active ==> id.addr in s.heap
    ensures Core(CancelInLoop(s, id))
  {
    if id in s.active {
      CancelActiveKeeps(s, id);
    } else {
      NoteKeeps(s, id);
      TombstonedNote(s.heap, s.canceling, s.phase, id);
    }
  }

  // ---------------------------------------------------------------- handleRead

  lemma BatchBegins(heap: Heap, timers: seq<Entry>, active: set<ActiveTimer>, now: int)
    requires Indexed(heap, timers, active) && now > 0
    ensures BatchDue(heap, Running(now, Due(timers, now), 0, {}))
  {
    DistinctAddresses(Due(timers, now));
  }

  lemma OwnedBegin(heap: Heap, timers: seq<Entry>, queued: set<Addr>, active: set<ActiveTimer>, now: int)
    requires Indexed(heap, timers, active) && Owned(heap, queued, active, Idle)
    ensures Owned(heap, queued, active - Keys(heap, Due(timers, now)), Running(now, Due(timers, now), 0, {}))
  {
    var p := Running(now, Due(timers, now), 0, {});
    var left := active - Keys(heap, Due(timers, now));
    forall a | a in heap
      ensures KeyOf(heap, a) in active <==> KeyOf(heap, a) in left || InBatch(p, a)
      ensures !(KeyOf(heap, a) in left && InBatch(p, a))
    {
      if KeyOf(heap, a) in active && KeyOf(heap, a) !in left {
        assert EntryOf(heap, a) in p.batch;
      }
      if InBatch(p, a) {
        var e :| e in p.batch && e.addr == a;
        assert KeyOf(heap, a) in Keys(heap, Due(timers, now));
      }
    }
  }

  lemma PunctualBegin(heap: Heap, created: int, runs: seq<Run>, p: Phase)
    requires Punctual(heap, created, runs, Idle) && p.Running? && p.next == 0
    ensures Punctual(heap, created, runs, p)
  {
    forall a, r | a in heap && r in runs && heap[a].sequence == r.sequence
      ensures Spaced(heap[a], r, HasRun(p, a), p)
    {
      assert Spaced(heap[a], r, HasRun(Idle, a), Idle);
    }
  }

  lemma BeginKeeps(s: State, now: int, drained: bool)
    requires Core(s) && s.phase.Idle? && now > 0
    ensures forall e :: e in s.timers ==> e.addr in s.heap
    ensures Core(Begin(s, now, drained))
  {
    var p := Running(now, Due(s.timers, now), 0, {});
    assert Alarmed(Later(s.timers, now), if drained then Disarmed else s.alarm, p);
    assert Tombstoned(s.heap, {}, p);
    assert forall e :: e in s.timers ==> e.addr in s.heap;
    hide Indexed, BatchDue, Owned, Numbered, Alarmed, Punctual, Tombstoned;
    IndexedBegin(s.heap, s.timers, s.active, now);
    BatchBegins(s.heap, s.timers, s.active, now);
    OwnedBegin(s.heap, s.timers, s.queued, s.active, now);
    PunctualBegin(s.heap, s.created, s.runs, p);
  }

  /** Entries with one address would have one expiration, so be equal. */
  lemma DistinctAddresses(ts: seq<Entry>)
    requires Sorted(ts)
    requires forall e, f :: e in ts && f in ts && e.addr == f.addr ==> e == f
    ensures forall i, j :: 0 <= i < j < |ts| ==> ts[i].addr != ts[j].addr
  {
    if ts != [] {
      var tail := ts[1..];
      assert ts == [ts[0]] + tail;
      DistinctAddresses(tail);
      forall i, j | 0 <= i < j < |ts| ensures ts[i].addr != ts[j].addr {
        if i == 0 {
          assert ts[j] == tail[j - 1] && ts[j] in tail;
        } else {
          assert ts[i] == tail[i - 1] && ts[j] == tail[j - 1];
        }
      }
    }
  }

  lemma RunsOnTimeExtend(runs: seq<Run>, r: Run)
    requires RunsOnTime(runs) && r.expiration <= r.now
    requires forall q :: q in runs && q.sequence == r.sequence ==> q.interval > 0.0 && q.now + Delta(q.interval) <= r.now
    ensures RunsOnTime(runs + [r])
  {
  }

  lemma RunIsOnTime(heap: Heap, created: int, runs: seq<Run>, p: Phase)
    requires Punctual(heap, created, runs, p) && BatchDue(heap, p)
    requires p.Running? && p.next < |p.batch| && p.batch[p.next].addr in heap
    ensures var t := heap[p.batch[p.next].addr];
            RunsOnTime(runs + [Run(t.sequence, p.now, t.expiration, t.interval)])
  {
    var a := p.batch[p.next].addr;
    var t := heap[a];
    assert p.batch[p.next] in p.batch;
    assert !HasRun(p, a);
    forall r | r in runs && r.sequence == t.sequence
      ensures r.interval > 0.0 && r.now + Delta(r.interval) <= p.now
    {
      assert Spaced(t, r, HasRun(p, a), p);
    }
    RunsOnTimeExtend(runs, Run(t.sequence, p.now, t.expiration, t.interval));
  }

  lemma NextPlaces(p: Phase)
    requires p.Running? && p.next < |p.batch|
    ensures forall a :: InBatch(p.(next := p.next + 1), a) <==> InBatch(p, a)
  {
  }

  lemma NextKeeps(s: State)
    requires Core(s) && s.phase.Running? && s.phase.next < |s.phase.batch|
    ensures s.phase.batch[s.phase.next].addr in s.heap
    ensures var q := s.phase.(next := s.phase.next + 1);
            BatchDue(s.heap, q) && Tombstoned(s.heap, s.canceling, q) && Alarmed(s.timers, s.alarm, q)
  {
    hide Indexed, Owned, Numbered, Punctual;
    assert s.phase.batch[s.phase.next] in s.phase.batch;
  }

  lemma RunKeeps(s: State)
    requires Core(s) && s.phase.Running? && s.phase.next < |s.phase.batch|
    ensures s.phase.batch[s.phase.next].addr in s.heap && Core(RunCallback(s))
  {
    hide Indexed, BatchDue, Owned, Numbered, Alarmed, Punctual, Tombstoned, RunCallback;
    NextKeeps(s);
    var q := s.phase.(next := s.phase.next + 1);
    RunIsOnTime(s.heap, s.created, s.runs, s.phase);
    PunctualRun(s.heap, s.created, s.freed, s.runs, s.phase);
    NextPlaces(s.phase);
    OwnedSamePlaces(s.heap, s.queued, s.active, s.phase, q);
    RunShape(s);
  }

  lemma RunShape(s: State)
    requires s.phase.Running? && s.phase.next < |s.phase.batch| && s.phase.batch[s.phase.next].addr in s.heap
    ensures var t := s.heap[s.phase.batch[s.phase.next].addr];
            RunCallback(s) == s.(runs := s.runs + [Run(t.sequence, s.phase.now, t.expiration, t.interval)],
            phase := s.phase.(next := s.phase.next + 1))
  {
  }

  lemma PunctualRun(heap: Heap, created: int, freed: seq<int>, runs: seq<Run>, p: Phase)
    requires Punctual(heap, created, runs, p) && Numbered(heap, created, freed) && BatchDue(heap, p)
    requires p.Running? && p.next < |p.batch| && p.batch[p.next].addr in heap
    requires var t := heap[p.batch[p.next].addr];
             RunsOnTime(runs + [Run(t.sequence, p.now, t.expiration, t.interval)])
    ensures var t := heap[p.batch[p.next].addr];
            Punctual(heap, created, runs + [Run(t.sequence, p.now, t.expiration, t.interval)], p.(next := p.next + 1))
  {
    var a := p.batch[p.next].addr;
    var t := heap[a];
    var run := Run(t.sequence, p.now, t.expiration, t.interval);
    var p' := p.(next := p.next + 1);
    assert p.batch[p.next] in p.batch;
    forall b, r | b in heap && r in runs + [run] && heap[b].sequence == r.sequence
      ensures Spaced(heap[b], r, HasRun(p', b), p')
    {
      if b == a {
        assert p'.batch[p.next].addr == a && HasRun(p', a);
        if r in runs {
          assert !HasRun(p, a);
          assert Spaced(heap[a], r, false, p);
          assert heap[a].Repeat();
          DeltaOfRepeating(heap[a]);
        }
      } else {
        assert r in runs;
        assert HasRun(p', b) <==> HasRun(p, b);
        assert Spaced(heap[b], r, HasRun(p, b), p);
      }
    }
  }

  // ---------------------------------------------------------------- reset

  function Popped(p: Phase): Phase
    requires p.Running? && |p.batch| > 0
  {
    p.(batch := p.batch[1..], next := if p.next > 0 then p.next - 1 else 0)
  }

  lemma PoppedMembers(heap: Heap, p: Phase)
    requires BatchDue(heap, p) && p.Running? && |p.batch| > 0 && p.next == |p.batch|
    ensures forall a :: InBatch(Popped(p), a) <==> InBatch(p, a) && a != p.batch[0].addr
    ensures forall a :: HasRun(Popped(p), a) <==> HasRun(p, a) && a != p.batch[0].addr
    ensures HasRun(p, p.batch[0].addr) && InBatch(p, p.batch[0].addr)
    ensures forall e :: e in p.batch[1..] ==> e in p.batch && e.addr != p.batch[0].addr
  {
    var q := Popped(p);
    assert p.batch[0] in p.batch;
    forall i | 0 <= i < |q.batch| ensures q.batch[i] == p.batch[i + 1] {}
    forall a ensures InBatch(q, a) <==> InBatch(p, a) && a != p.batch[0].addr {
      if InBatch(p, a) && a != p.batch[0].addr {
        var e :| e in p.batch && e.addr == a;
        assert p.batch == [p.batch[0]] + q.batch;
        assert e in q.batch;
      }
    }
    forall a ensures HasRun(q, a) <==> HasRun(p, a) && a != p.batch[0].addr {
      if HasRun(p, a) && a != p.batch[0].addr {
        var i :| 0 <= i < p.next && i < |p.batch| && p.batch[i].addr == a;
        assert q.batch[i - 1].addr == a;
      }
      if HasRun(q, a) {
        var i :| 0 <= i < q.next && i < |q.batch| && q.batch[i].addr == a;
        assert p.batch[i + 1].addr == a;
      }
    }
  }

  lemma PunctualRestart(heap: Heap, created: int, runs: seq<Run>, p: Phase)
    requires Punctual(heap, created, runs, p) && BatchDue(heap, p)
    requires p.Running? && |p.batch| > 0 && p.next == |p.batch| && p.batch[0].addr in heap
    requires heap[p.batch[0].addr].Repeat()
    ensures var a := p.batch[0].addr;
            Punctual(heap[a := heap[a].Restart(p.now)], created, runs, Popped(p))
  {
    var a := p.batch[0].addr;
    var t' := heap[a].Restart(p.now);
    PoppedMembers(heap, p);
    forall b, r | b in heap && r in runs && heap[b].sequence == r.sequence
      ensures Spaced(heap[a := t'][b], r, HasRun(Popped(p), b), Popped(p))
    {
      assert Spaced(heap[b], r, HasRun(p, b), p);
    }
  }

  lemma PunctualPop(heap: Heap, created: int, runs: seq<Run>, p: Phase)
    requires Punctual(heap, created, runs, p) && BatchDue(heap, p)
    requires p.Running? && |p.batch| > 0 && p.next == |p.batch|
    ensures var a := p.batch[0].addr;
            Punctual(Without(heap, a), created, runs, Popped(p))
  {
    PoppedMembers(heap, p);
    forall b, r | b in heap && b != p.batch[0].addr && r in runs && heap[b].sequence == r.sequence
      ensures Spaced(heap[b], r, HasRun(Popped(p), b), Popped(p))
    {
      assert Spaced(heap[b], r, HasRun(p, b), p);
    }
  }

  lemma OwnedRestart(heap: Heap, queued: set<Addr>, active: set<ActiveTimer>, p: Phase, t: Timer)
    requires Owned(heap, queued, active, p) && BatchDue(heap, p)
    requires p.Running? && |p.batch| > 0 && p.next == |p.batch| && p.batch[0].addr in heap
    requires t.sequence == heap[p.batch[0].addr].sequence
    ensures var a := p.batch[0].addr;
            Owned(heap[a := t], queued, active + {KeyOf(heap, a)}, Popped(p))
  {
    PoppedMembers(heap, p);
  }

  lemma OwnedDiscard(heap: Heap, queued: set<Addr>, active: set<ActiveTimer>, p: Phase)
    requires Owned(heap, queued, active, p) && BatchDue(heap, p)
    requires p.Running? && |p.batch| > 0 && p.next == |p.batch|
    ensures Owned(Without(heap, p.batch[0].addr), queued, active, Popped(p))
  {
    PoppedMembers(heap, p);
  }

  lemma BatchPopped(heap: Heap, canceling: set<ActiveTimer>, p: Phase, t: Timer)
    requires BatchDue(heap, p) && Tombstoned(heap, canceling, p)
    requires p.Running? && |p.batch| > 0 && p.next == |p.batch|
    ensures var a := p.batch[0].addr;
            && BatchDue(heap[a := t], Popped(p)) && BatchDue(Without(heap, a), Popped(p))
            && Tombstoned(heap[a := t], canceling, Popped(p)) && Tombstoned(Without(heap, a), canceling, Popped(p))
  {
    PoppedMembers(heap, p);
  }

  predicate ReadyToReset(s: State) {
    Core(s) && s.phase.Running? && s.phase.next == |s.phase.batch|
  }

  lemma FirstOfBatch(s: State)
    requires ReadyToReset(s) && |s.phase.batch| > 0
    ensures BatchAllocated(s) && s.phase.now > 0
    ensures KeyOf(s.heap, s.phase.batch[0].addr) !in s.active
    ensures EntryOf(s.heap, s.phase.batch[0].addr) !in s.timers
  {
    var a := s.phase.batch[0].addr;
    assert s.phase.batch[0] in s.phase.batch;
    assert InBatch(s.phase, a);
  }

  lemma AlarmedRestart(timers: seq<Entry>, alarm: Alarm, p: Phase, e: Entry, q: Phase)
    requires Alarmed(timers, alarm, p) && p.Running? && q.Running? && e.when > 0
    ensures Alarmed(Insert(timers, e), alarm, q) && Alarmed(timers, alarm, q)
  {
  }

  lemma RestartKeeps(s: State)
    requires ReadyToReset(s) && |s.phase.batch| > 0
    requires BatchAllocated(s) && s.heap[s.phase.batch[0].addr].Repeat()
    requires KeyOf(s.heap, s.phase.batch[0].addr) !in s.canceling
    ensures ReadyToReset(ResetOne(s))
  {
    FirstOfBatch(s);
    var a := s.phase.batch[0].addr;
    DeltaOfRepeating(s.heap[a]);
    hide Indexed, BatchDue, Owned, Numbered, Alarmed, Punctual, Tombstoned;
    var t := s.heap[a].Restart(s.phase.now);
    var heap := s.heap[a := t];
    IndexedWrite(s.heap, s.timers, s.active, a, t);
    IndexedInsert(heap, s.timers, s.active, a);
    BatchPopped(s.heap, s.canceling, s.phase, t);
    OwnedRestart(s.heap, s.queued, s.active, s.phase, t);
    NumberedRestart(s.heap, s.created, s.freed, a, t);
    PunctualRestart(s.heap, s.created, s.runs, s.phase);
    AlarmedRestart(s.timers, s.alarm, s.phase, EntryOf(heap, a), Popped(s.phase));
  }

  lemma DiscardShape(s: State)
    requires BatchAllocated(s) && |s.phase.batch| > 0
    requires !s.heap[s.phase.batch[0].addr].Repeat() || KeyOf(s.heap, s.phase.batch[0].addr) in s.canceling
    ensures var a := s.phase.batch[0].addr;
            ResetOne(s) == s.(heap := Without(s.heap, a), freed := s.freed + [s.heap[a].sequence],
            phase := Popped(s.phase))
  {
  }

  lemma DiscardKeeps(s: State)
    requires ReadyToReset(s) && |s.phase.batch| > 0
    requires BatchAllocated(s)
    requires !s.heap[s.phase.batch[0].addr].Repeat() || KeyOf(s.heap, s.phase.batch[0].addr) in s.canceling
    ensures ReadyToReset(ResetOne(s))
  {
    FirstOfBatch(s);
    DiscardShape(s);
    hide Indexed, BatchDue, Owned, Numbered, Alarmed, Punctual, Tombstoned, ResetOne;
    var a := s.phase.batch[0].addr;
    IndexedForget(s.heap, s.timers, s.active, a);
    BatchPopped(s.heap, s.canceling, s.phase, s.heap[a]);
    OwnedDiscard(s.heap, s.queued, s.active, s.phase);
    NumberedFree(s.heap, s.created, s.freed, a);
    PunctualPop(s.heap, s.created, s.runs, s.phase);
    AlarmedRestart(s.timers, s.alarm, s.phase, Entry(1, a), Popped(s.phase));
  }

  // ---------------------------------------------------------------- the end of a batch

  /** Back in the indices with expiration now + interval. */
  predicate Restarted(s: State, r: State, a: Addr)
    requires s.phase.Running? && a in s.heap
  {
    && a in r.heap && r.heap[a] == s.heap[a].(expiration := AddTime(s.phase.now, s.heap[a].interval))
    && KeyOf(r.heap, a) in r.active
  }

  predicate Deleted(s: State, r: State, a: Addr)
    requires a in s.heap
  {
    a !in r.heap && s.heap[a].sequence in r.freed
  }

  predicate Untouched(s: State, r: State, a: Addr)
    requires a in s.heap
  {
    a in r.heap && r.heap[a] == s.heap[a] && (KeyOf(s.heap, a) in r.active <==> KeyOf(s.heap, a) in s.active)
  }

  predicate Survives(s: State, a: Addr)
    requires s.phase.Running? && a in s.heap
  {
    s.heap[a].Repeat() && KeyOf(s.heap, a) !in s.canceling
  }

  /** The outcome of resetting what is left of the batch. */
  predicate ResetTo(s: State, r: State)
    requires s.phase.Running? && BatchDue(s.heap, s.phase)
  {
    && (forall e :: e in s.phase.batch ==> if Survives(s, e.addr) then Restarted(s, r, e.addr) else Deleted(s, r, e.addr))
    && (forall a :: a in s.heap && !InBatch(s.phase, a) ==> Untouched(s, r, a))
    && r.heap.Keys <= s.heap.Keys
    && (forall n :: n in s.freed ==> n in r.freed)
    && r.queued == s.queued && r.created == s.created && r.runs == s.runs && r.alarm == s.alarm
    && r.canceling == s.canceling && r.calling == s.calling
  }

  lemma ResetOneKeeps(s: State)
    requires ReadyToReset(s) && |s.phase.batch| > 0
    ensures BatchAllocated(s) && ReadyToReset(ResetOne(s))
    ensures var r := ResetOne(s);
            && r.phase == Popped(s.phase) && r.canceling == s.canceling
            && r.queued == s.queued && r.created == s.created && r.runs == s.runs && r.alarm == s.alarm
            && r.calling == s.calling && r.heap.Keys <= s.heap.Keys && s.freed <= r.freed
  {
    FirstOfBatch(s);
    if Survives(s, s.phase.batch[0].addr) {
      RestartKeeps(s);
    } else {
      DiscardKeeps(s);
    }
  }

  /** The first entry is settled, and nothing else changes. */
  lemma ResetOneSettles(s: State)
    requires ReadyToReset(s) && |s.phase.batch| > 0 && BatchAllocated(s)
    ensures var a := s.phase.batch[0].addr; var r := ResetOne(s);
            && (if Survives(s, a) then Restarted(s, r, a) else Deleted(s, r, a))
            && (forall b :: b in s.heap && b != a ==> Untouched(s, r, b))
            && (forall e :: e in r.timers ==> e in s.timers || e.addr == a)
  {
    FirstOfBatch(s);
    var a := s.phase.batch[0].addr;
    assert s.phase.batch[0] in s.phase.batch;
  }

  lemma {:induction false} ResetAllOutcome(s: State)
    requires ReadyToReset(s)
    ensures BatchAllocated(s) && BatchDue(s.heap, s.phase)
    ensures var r := ResetAll(s);
            ReadyToReset(r) && r.phase == s.phase.(batch := [], next := 0) && ResetTo(s, r)
    decreases |s.phase.batch|
  {
    if s.phase.batch != [] {
      ResetOneKeeps(s);
      ResetOneSettles(s);
      ResetAllOutcome(ResetOne(s));
      ResetFirstThenRest(s, ResetOne(s), ResetAll(ResetOne(s)));
    }
  }

  /** What one entry does, then what the rest of the batch does. */
  predicate ResetFirst(s: State, m: State)
    requires s.phase.Running? && |s.phase.batch| > 0 && BatchDue(s.heap, s.phase)
  {
    var first := s.phase.batch[0].addr;
    && m.phase == Popped(s.phase) && m.canceling == s.canceling
    && (if Survives(s, first) then Restarted(s, m, first) else Deleted(s, m, first))
    && (forall b :: b in s.heap && b != first ==> Untouched(s, m, b))
    && m.heap.Keys <= s.heap.Keys
    && s.freed <= m.freed
    && m.queued == s.queued && m.created == s.created && m.runs == s.runs && m.alarm == s.alarm
    && m.calling == s.calling
  }

  lemma OthersAfterRest(s: State, m: State, r: State, a: Addr)
    requires s.phase.Running? && |s.phase.batch| > 0 && s.phase.next == |s.phase.batch|
    requires BatchDue(s.heap, s.phase) && ResetFirst(s, m)
    requires BatchDue(m.heap, m.phase) && ResetTo(m, r)
    requires a in s.heap && !InBatch(s.phase, a)
    ensures Untouched(s, r, a)
  {
    PoppedMembers(s.heap, s.phase);
    hide BatchDue;
    assert Untouched(s, m, a) && Untouched(m, r, a);
  }

  lemma FirstAfterRest(s: State, m: State, r: State, first: Addr)
    requires s.phase.Running? && first in s.heap
    requires if Survives(s, first) then Restarted(s, m, first) else Deleted(s, m, first)
    requires first in m.heap ==> Untouched(m, r, first)
    requires r.heap.Keys <= m.heap.Keys && forall n :: n in m.freed ==> n in r.freed
    ensures if Survives(s, first) then Restarted(s, r, first) else Deleted(s, r, first)
  {
  }

  lemma RestAfterFirst(s: State, m: State, r: State, a: Addr)
    requires s.phase.Running? && m.phase.Running? && m.phase.now == s.phase.now && m.canceling == s.canceling
    requires a in s.heap && Untouched(s, m, a)
    requires if Survives(m, a) then Restarted(m, r, a) else Deleted(m, r, a)
    ensures if Survives(s, a) then Restarted(s, r, a) else Deleted(s, r, a)
  {
  }

  lemma BatchAfterRest(s: State, m: State, r: State, e: Entry)
    requires s.phase.Running? && |s.phase.batch| > 0 && s.phase.next == |s.phase.batch|
    requires BatchDue(s.heap, s.phase) && ResetFirst(s, m)
    requires BatchDue(m.heap, m.phase) && ResetTo(m, r)
    requires e in s.phase.batch && e.addr in s.heap
    ensures if Survives(s, e.addr) then Restarted(s, r, e.addr) else Deleted(s, r, e.addr)
  {
    hide BatchDue, Survives, Restarted, Deleted, Untouched;
    PoppedMembers(s.heap, s.phase);
    if e.addr == s.phase.batch[0].addr {
      FirstAfterRest(s, m, r, e.addr);
    } else {
      assert s.phase.batch == [s.phase.batch[0]] + m.phase.batch;
      assert e in m.phase.batch && Untouched(s, m, e.addr);
      RestAfterFirst(s, m, r, e.addr);
    }
  }

  lemma ResetFirstThenRest(s: State, m: State, r: State)
    requires s.phase.Running? && |s.phase.batch| > 0 && s.phase.next == |s.phase.batch|
    requires BatchDue(s.heap, s.phase) && ResetFirst(s, m)
    requires BatchDue(m.heap, m.phase) && ResetTo(m, r)
    ensures ResetTo(s, r)
  {
    assert forall e :: e in s.phase.batch ==> e.addr in s.heap;
    hide BatchDue, Survives, Restarted, Deleted, Untouched;
    forall a | a in s.heap && !InBatch(s.phase, a) ensures Untouched(s, r, a) {
      OthersAfterRest(s, m, r, a);
    }
    forall e | e in s.phase.batch
      ensures if Survives(s, e.addr) then Restarted(s, r, e.addr) else Deleted(s, r, e.addr)
    {
      BatchAfterRest(s, m, r, e);
    }
  }
}
