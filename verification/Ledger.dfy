/** What a connection does, told from outside: a few counters kept while reading the steps and
    the kernel's answers, without looking at any field of the connection. */
module Ledgers {
  import opened Buffers
  import opened Connections

  /** The bytes accepted and delivered so far, how many of them the kernel took and the user was
      given, and whether the sending side was closed. */
  datatype Ledger = Ledger(
    stage: Stage,
    accepted: seq<Byte>,
    taken: nat,
    delivered: seq<Byte>,
    given: nat,
    halfClosed: bool)

  const BLANK := Ledger(Connecting, [], 0, [], 0, false)

  /** write is called by send when it has nothing left from before, and by the loop while it
      has; its positive answers are added up. */
  function Record(l: Ledger, step: Step): Ledger {
    match step
    case Established => l.(stage := Connected)
    case Sent(message, nwrote) =>
      if l.stage != Connected then l
      else if l.taken == |l.accepted| && nwrote > 0 then l.(accepted := l.accepted + message, taken := l.taken + nwrote)
      else l.(accepted := l.accepted + message)
    case Writable(n) =>
      if (l.stage == Connected || l.stage == Disconnecting) && l.taken < |l.accepted| && n > 0 then
        var taken := l.taken + n;
        l.(taken := taken, halfClosed := l.halfClosed || (l.stage == Disconnecting && taken == |l.accepted|))
      else l
    case Readable(bytes) => l.(delivered := l.delivered + bytes)
    case InputTaken => l.(given := |l.delivered|)
    case ShutDown =>
      if l.stage == Connected then l.(stage := Disconnecting, halfClosed := l.taken == |l.accepted|) else l
    case Destroyed => l.(stage := Disconnected)
  }

  function RecordAll(l: Ledger, steps: seq<Step>): Ledger
    decreases |steps|
  {
    if steps == [] then l else RecordAll(Record(l, steps[0]), steps[1..])
  }

  /** The connection is what the ledger tells. */
  predicate Tells(l: Ledger, c: Conn) {
    && c.state == l.stage && l.taken <= |l.accepted| && l.given <= |l.delivered|
    && c.accepted == l.accepted && c.written == l.accepted[..l.taken] && c.output == l.accepted[l.taken..]
    && c.received == l.delivered && c.input == l.delivered[l.given..]
    && c.shutAt == (if l.halfClosed then [|l.accepted|] else [])
  }

  lemma Splits(all: seq<Byte>, more: seq<Byte>, i: nat, n: nat)
    requires i <= |all| && (n > 0 ==> i == |all|) && n <= |more|
    ensures (all + more)[..i + n] == all[..i] + more[..n]
    ensures (all + more)[i + n..] == all[i..] + more[n..]
  {
    if n == 0 {
      assert more[..0] == [] && more[0..] == more;
    } else {
      assert all[..i] == all && all[i..] == [];
    }
  }

  lemma Advances(all: seq<Byte>, i: nat, n: nat)
    requires i + n <= |all|
    ensures all[..i + n] == all[..i] + all[i..][..n] && all[i + n..] == all[i..][n..]
  {
  }

  lemma SentTold(l: Ledger, c: Conn, message: seq<Byte>, nwrote: int)
    requires ConnInv(c) && Tells(l, c) && -1 <= nwrote <= |message|
    ensures Tells(Record(l, Sent(message, nwrote)), Send(c, message, nwrote))
  {
    SendOutcome(c, message, nwrote);
    hide Send;
    if c.state.Connected? {
      var n := if l.taken == |l.accepted| && nwrote > 0 then nwrote else 0;
      Splits(l.accepted, message, l.taken, n);
      assert message[..0] == [] && message[0..] == message;
      assert c.written + [] == c.written && (c.output == [] ==> [] + message == message);
    }
  }

  lemma WritableTold(l: Ledger, c: Conn, n: int)
    requires ConnInv(c) && Tells(l, c) && -1 <= n <= |c.output|
    ensures Tells(Record(l, Writable(n)), HandleWrite(c, n))
  {
    WriteOutcome(c, n);
    hide HandleWrite;
    if c.writing && n > 0 {
      Advances(l.accepted, l.taken, n);
      assert [] + [|l.accepted|] == [|l.accepted|];
    }
  }

  lemma StepTold(l: Ledger, c: Conn, step: Step)
    requires ConnInv(c) && Tells(l, c) && Enabled(c, step)
    ensures Tells(Record(l, step), Apply(c, step))
  {
    match step
    case Sent(message, nwrote) => SentTold(l, c, message, nwrote);
    case Writable(n) => WritableTold(l, c, n);
    case Readable(bytes) => Splits(l.delivered, bytes, l.given, 0);
    case ShutDown => assert [] + [|c.written|] == [|c.written|];
    case _ =>
  }

  lemma {:induction false} RunTold(l: Ledger, c: Conn, steps: seq<Step>)
    requires ConnInv(c) && Tells(l, c) && IsRun(c, steps)
    ensures Tells(RecordAll(l, steps), Exec(c, steps))
    decreases |steps|
  {
    hide ConnInv, Tells, Enabled, Apply, Record;
    if steps != [] {
      StepKeepsInvariant(c, steps[0]);
      StepTold(l, c, steps[0]);
      RunTold(Record(l, steps[0]), Apply(c, steps[0]), steps[1..]);
    }
  }

  /** In every run, whatever the kernel answers, the ledger tells what was accepted, written,
      left waiting, received and left unread, and whether and when the connection was
      half-closed. */
  lemma LedgerTells(steps: seq<Step>)
    requires IsRun(NEW_CONN, steps)
    ensures var l := RecordAll(BLANK, steps); var c := Exec(NEW_CONN, steps);
            && c.state == l.stage && l.taken <= |l.accepted| && l.given <= |l.delivered|
            && c.accepted == l.accepted && c.written == l.accepted[..l.taken] && c.output == l.accepted[l.taken..]
            && c.received == l.delivered && c.input == l.delivered[l.given..]
            && c.shutAt == (if l.halfClosed then [|l.accepted|] else [])
  {
    NewConnInv();
    RunTold(BLANK, NEW_CONN, steps);
  }

  /** The answers of the calls of write in these steps that took something, added up. */
  function Answers(l: Ledger, steps: seq<Step>): nat
    decreases |steps|
  {
    if steps == [] then 0
    else
      var step := steps[0];
      (match step
       case Sent(_, nwrote) => if l.stage == Connected && l.taken == |l.accepted| && nwrote > 0 then nwrote else 0
       case Writable(n) =>
         if (l.stage == Connected || l.stage == Disconnecting) && l.taken < |l.accepted| && n > 0 then n else 0
       case _ => 0) + Answers(Record(l, step), steps[1..])
  }

  lemma {:induction false} TakenAddsUp(l: Ledger, steps: seq<Step>)
    ensures RecordAll(l, steps).taken == l.taken + Answers(l, steps)
    decreases |steps|
  {
    if steps != [] {
      TakenAddsUp(Record(l, steps[0]), steps[1..]);
    }
  }

  /** As many bytes were written as the kernel said it took: none is sent twice or skipped. */
  lemma WrittenIsTaken(steps: seq<Step>)
    requires IsRun(NEW_CONN, steps)
    ensures |Exec(NEW_CONN, steps).written| == Answers(BLANK, steps)
  {
    hide IsRun, Exec, RecordAll, Answers;
    LedgerTells(steps);
    TakenAddsUp(BLANK, steps);
  }
}
