/** Channels and the Poller that keeps them in a dense vector for poll(2). */
module Polling {

  /** A set of poll flags, as wide as the fields of struct pollfd. */
  type Flags = bv16

  const POLLIN: Flags := 0x0001
  const POLLPRI: Flags := 0x0002
  const POLLOUT: Flags := 0x0004

  const NONE_EVENT: Flags := 0
  const READ_EVENT: Flags := POLLIN | POLLPRI
  const WRITE_EVENT: Flags := POLLOUT

  /** What the switches of a channel do, bit by bit: reading asks for ordinary and for urgent
      data, writing for room, and neither touches the other. */
  lemma SwitchesByBits(events: Flags)
    ensures (events | READ_EVENT) & POLLIN != 0 && (events | READ_EVENT) & POLLPRI != 0
    ensures (events | READ_EVENT) & POLLOUT == events & POLLOUT
    ensures (events | WRITE_EVENT) & POLLOUT != 0
    ensures (events | WRITE_EVENT) & POLLIN == events & POLLIN && (events | WRITE_EVENT) & POLLPRI == events & POLLPRI
    ensures (events & !WRITE_EVENT) & POLLOUT == 0
    ensures (events & !WRITE_EVENT) & POLLIN == events & POLLIN && (events & !WRITE_EVENT) & POLLPRI == events & POLLPRI
  {
  }

  datatype PollFd = PollFd(fd: int, events: Flags, revents: Flags)

  /** A slot whose descriptor is negative is skipped by poll; it stands for this one. */
  function Decode(fd: int): int {
    if fd < 0 then -fd - 1 else fd
  }

  function Parked(fd: int): int { -fd - 1 }

  // ---------------------------------------------------------------- the plain map

  /** What poll is asked about one channel; a parked slot is not polled at all. */
  datatype Slot = Slot(events: Flags, parked: bool)

  type View = map<int, Slot>

  datatype Op = Update(fd: int, events: Flags) | Remove(fd: int)

  /** The first update registers; a later one with no events parks the slot, for good. */
  function After(v: View, op: Op): View {
    match op
    case Update(fd, events) =>
      v[fd := Slot(events, fd in v && (v[fd].parked || events == NONE_EVENT))]
    case Remove(fd) => v - {fd}
  }

  lemma OneChanges(v: View, op: Op)
    ensures forall fd :: fd in v && fd != op.fd ==> fd in After(v, op) && After(v, op)[fd] == v[fd]
    ensures op.Update? ==> op.fd in After(v, op) && After(v, op)[op.fd].events == op.events
  {
  }

  function AfterAll(v: View, ops: seq<Op>): View
    decreases |ops|
  {
    if ops == [] then v else AfterAll(After(v, ops[0]), ops[1..])
  }

  predicate Emptied(ops: seq<Op>, fd: int) {
    exists op :: op in ops && op == Update(fd, NONE_EVENT)
  }

  lemma {:induction false} SlotAfter(v: View, ops: seq<Op>, fd: int)
    requires fd in v && Remove(fd) !in ops
    ensures fd in AfterAll(v, ops)
    ensures AfterAll(v, ops)[fd].parked <==> v[fd].parked || Emptied(ops, fd)
    decreases |ops|
  {
    if ops == [] {
    } else {
      assert ops[0] in ops;
      assert forall op :: op in ops <==> op == ops[0] || op in ops[1..];
      SlotAfter(After(v, ops[0]), ops[1..], fd);
    }
  }

  /** From its registration on, a channel is polled exactly as long as no later update
      found it without events: enabling it again does not bring it back. */
  lemma PolledUntilEmptied(v: View, events: Flags, ops: seq<Op>, fd: int)
    requires fd !in v && Remove(fd) !in ops
    ensures var r := AfterAll(After(v, Update(fd, events)), ops);
            fd in r && (!r[fd].parked <==> !Emptied(ops, fd))
  {
    SlotAfter(After(v, Update(fd, events)), ops, fd);
  }

  /** Disabled and enabled again, a channel asks for reading and is not polled. */
  lemma EnabledYetParked(v: View, fd: int)
    requires fd !in v
    ensures var r := AfterAll(v, [Update(fd, READ_EVENT), Update(fd, NONE_EVENT), Update(fd, READ_EVENT)]);
            fd in r && r[fd] == Slot(READ_EVENT, true)
  {
    var ops := [Update(fd, READ_EVENT), Update(fd, NONE_EVENT), Update(fd, READ_EVENT)];
    var v1 := After(v, ops[0]);
    var v2 := After(v1, ops[1]);
    assert ops[1..][0] == ops[1] && ops[1..][1..][0] == ops[2] && ops[1..][1..][1..] == [];
    assert AfterAll(v, ops) == AfterAll(v1, ops[1..]) == AfterAll(v2, ops[1..][1..]);
    assert AfterAll(v2, ops[1..][1..]) == AfterAll(After(v2, ops[2]), []);
  }

  // ---------------------------------------------------------------- the vector

  /** Slots and positions are one bijection: every registered descriptor is decoded from the
      slot at its position, and every slot is at the position of the descriptor it decodes to. */
  predicate WiredBy(ps: seq<PollFd>, at: map<int, int>) {
    && (forall fd :: fd in at ==> fd >= 0 && 0 <= at[fd] < |ps| && Decode(ps[at[fd]].fd) == fd)
    && (forall i :: 0 <= i < |ps| ==> Decode(ps[i].fd) in at && at[Decode(ps[i].fd)] == i)
  }

  function ViewOf(ps: seq<PollFd>, at: map<int, int>): (v: View)
    requires WiredBy(ps, at)
    ensures v.Keys == at.Keys
  {
    map fd | fd in at :: Slot(ps[at[fd]].events, ps[at[fd]].fd < 0)
  }

  lemma SlotOf(ps: seq<PollFd>, at: map<int, int>, fd: int)
    requires WiredBy(ps, at) && fd in at
    ensures 0 <= at[fd] < |ps| && (ps[at[fd]].fd == fd || ps[at[fd]].fd == -fd - 1) && fd >= 0
    ensures fd in ViewOf(ps, at) && ViewOf(ps, at)[fd] == Slot(ps[at[fd]].events, ps[at[fd]].fd < 0)
  {
  }

  lemma RegisteredAt(ps: seq<PollFd>, at: map<int, int>, i: int)
    requires WiredBy(ps, at) && 0 <= i < |ps|
    ensures Decode(ps[i].fd) in at && at[Decode(ps[i].fd)] == i
  {
  }

  function Register(ps: seq<PollFd>, fd: int, events: Flags): seq<PollFd> {
    ps + [PollFd(fd, events, 0)]
  }

  lemma RegisterKeepsWiring(ps: seq<PollFd>, at: map<int, int>, fd: int, events: Flags)
    requires WiredBy(ps, at) && fd >= 0 && fd !in at
    ensures WiredBy(Register(ps, fd, events), at[fd := |ps|])
    ensures ViewOf(Register(ps, fd, events), at[fd := |ps|]) == After(ViewOf(ps, at), Update(fd, events))
  {
    var l := ViewOf(Register(ps, fd, events), at[fd := |ps|]);
    var r := After(ViewOf(ps, at), Update(fd, events));
    assert l.Keys == r.Keys;
    forall f | f in l ensures l[f] == r[f] {}
  }

  function Rewrite(ps: seq<PollFd>, i: int, fd: int, events: Flags): seq<PollFd>
    requires 0 <= i < |ps|
  {
    ps[i := PollFd(if events == NONE_EVENT then Parked(fd) else ps[i].fd, events, 0)]
  }

  lemma RewriteKeepsWiring(ps: seq<PollFd>, at: map<int, int>, fd: int, events: Flags)
    requires WiredBy(ps, at) && fd in at
    ensures WiredBy(Rewrite(ps, at[fd], fd, events), at)
    ensures ViewOf(Rewrite(ps, at[fd], fd, events), at) == After(ViewOf(ps, at), Update(fd, events))
  {
    var l := ViewOf(Rewrite(ps, at[fd], fd, events), at);
    var r := After(ViewOf(ps, at), Update(fd, events));
    assert l.Keys == r.Keys;
    forall f | f in l ensures l[f] == r[f] {
      assert f != fd ==> at[f] != at[fd];
    }
  }

  function SwapOut(ps: seq<PollFd>, i: int): seq<PollFd>
    requires 0 <= i < |ps|
  {
    ps[i := ps[|ps| - 1]][..|ps| - 1]
  }

  /** The descriptor whose slot moves, parked or not, gets the freed position. */
  function Moved(ps: seq<PollFd>, at: map<int, int>, fd: int): map<int, int>
    requires fd in at && |ps| > 0
  {
    var end := Decode(ps[|ps| - 1].fd);
    if end == fd then at - {fd} else (at - {fd})[end := at[fd]]
  }

  lemma SwapOutKeepsWiring(ps: seq<PollFd>, at: map<int, int>, fd: int)
    requires WiredBy(ps, at) && fd in at
    ensures WiredBy(SwapOut(ps, at[fd]), Moved(ps, at, fd))
    ensures ViewOf(SwapOut(ps, at[fd]), Moved(ps, at, fd)) == After(ViewOf(ps, at), Remove(fd))
  {
    var l := ViewOf(SwapOut(ps, at[fd]), Moved(ps, at, fd));
    var r := After(ViewOf(ps, at), Remove(fd));
    assert l.Keys == r.Keys;
    forall f | f in l ensures l[f] == r[f] {
      assert f != fd && at[f] != at[fd];
    }
  }

  // ---------------------------------------------------------------- what poll reports

  /** The descriptors with something to report, in slot order. */
  function ReadyFds(ps: seq<PollFd>): seq<int> {
    if ps == [] then []
    else (if ps[0].revents != 0 then [ps[0].fd] else []) + ReadyFds(ps[1..])
  }

  lemma {:induction false} ReadyExactly(ps: seq<PollFd>, fd: int)
    ensures fd in ReadyFds(ps) <==> exists i :: 0 <= i < |ps| && ps[i].fd == fd && ps[i].revents != 0
  {
    if ps != [] {
      ReadyExactly(ps[1..], fd);
      if i :| 0 <= i < |ps| && ps[i].fd == fd && ps[i].revents != 0 {
        if i > 0 { assert ps[1..][i - 1] == ps[i]; }
      }
      if i :| 0 <= i < |ps[1..]| && ps[1..][i].fd == fd && ps[1..][i].revents != 0 {
        assert ps[i + 1] == ps[1..][i];
      }
    }
  }

  /** With one slot a descriptor, none is reported twice. */
  lemma {:induction false} ReadyOnce(ps: seq<PollFd>)
    requires forall i, j :: 0 <= i < j < |ps| ==> ps[i].fd != ps[j].fd
    ensures forall i, j :: 0 <= i < j < |ReadyFds(ps)| ==> ReadyFds(ps)[i] != ReadyFds(ps)[j]
  {
    if ps != [] {
      var tail := ps[1..];
      ReadyOnce(tail);
      ReadyExactly(tail, ps[0].fd);
      var rest := ReadyFds(tail);
      if ps[0].revents != 0 {
        forall i, j | 0 <= i < j < |ReadyFds(ps)| ensures ReadyFds(ps)[i] != ReadyFds(ps)[j] {
          assert ReadyFds(ps)[j] == rest[j - 1] && rest[j - 1] in rest;
          if i > 0 { assert ReadyFds(ps)[i] == rest[i - 1]; }
        }
      } else {
        assert ReadyFds(ps) == rest;
      }
    }
  }

  /** Wired slots are for different descriptors. */
  lemma EachReadyOnce(ps: seq<PollFd>, at: map<int, int>)
    requires WiredBy(ps, at)
    ensures forall i, j :: 0 <= i < j < |ReadyFds(ps)| ==> ReadyFds(ps)[i] != ReadyFds(ps)[j]
  {
    forall i, j | 0 <= i < j < |ps| ensures ps[i].fd != ps[j].fd {
      RegisteredAt(ps, at, i);
      RegisteredAt(ps, at, j);
    }
    ReadyOnce(ps);
  }

  /** The contract of poll(2): a negative descriptor reports nothing, and the result counts
      the slots that report something. */
  predicate PollAnswer(before: seq<PollFd>, after: seq<PollFd>, numEvents: int) {
    && |after| == |before|
    && (forall i :: 0 <= i < |after| ==>
                      && after[i] == before[i].(revents := after[i].revents)
                      && after[i].revents < 0x8000
                      && (after[i].fd < 0 ==> after[i].revents == 0))
    && numEvents == |ReadyFds(after)|
  }

  // ---------------------------------------------------------------- the classes

  class Channel {
    const fd: int
    var events: Flags
    var revents: Flags
    var index: int

    constructor (fd: int)
      ensures this.fd == fd && events == NONE_EVENT && revents == 0 && index == -1
    {
      this.fd := fd;
      events, revents, index := NONE_EVENT, 0, -1;
    }

    predicate IsNoneEvent()
      reads this
    {
      events == NONE_EVENT
    }

    method EnableReading(poller: Poller)
      requires poller.Valid() && poller.Accepts(this)
      modifies this, poller
      ensures poller.Valid() && poller.Holds(this) && events == old(events) | READ_EVENT
      ensures poller.View() == After(old(poller.View()), Update(fd, old(events) | READ_EVENT))
    {
      hide WiredBy, ViewOf, After;
      events := events | READ_EVENT;
      assert poller.Indices() == old(poller.Indices());
      poller.UpdateChannel(this);
    }

    method EnableWriting(poller: Poller)
      requires poller.Valid() && poller.Accepts(this)
      modifies this, poller
      ensures poller.Valid() && poller.Holds(this) && events == old(events) | WRITE_EVENT
      ensures poller.View() == After(old(poller.View()), Update(fd, old(events) | WRITE_EVENT))
    {
      hide WiredBy, ViewOf, After;
      events := events | WRITE_EVENT;
      assert poller.Indices() == old(poller.Indices());
      poller.UpdateChannel(this);
    }

    method DisableWriting(poller: Poller)
      requires poller.Valid() && poller.Accepts(this)
      modifies this, poller
      ensures poller.Valid() && poller.Holds(this) && events == old(events) & !WRITE_EVENT
      ensures poller.View() == After(old(poller.View()), Update(fd, old(events) & !WRITE_EVENT))
    {
      hide WiredBy, ViewOf, After;
      events := events & !WRITE_EVENT;
      assert poller.Indices() == old(poller.Indices());
      poller.UpdateChannel(this);
    }

    /** A channel already registered may be removed right after this. */
    method DisableAll(poller: Poller)
      requires poller.Valid() && poller.Accepts(this)
      modifies this, poller
      ensures poller.Valid() && poller.Holds(this) && events == NONE_EVENT
      ensures poller.View() == After(old(poller.View()), Update(fd, NONE_EVENT))
      ensures poller.Removable(this) <==> fd in old(poller.channels)
    {
      hide WiredBy, ViewOf;
      events := NONE_EVENT;
      assert poller.Indices() == old(poller.Indices());
      poller.UpdateChannel(this);
      SlotOf(poller.pollfds, poller.Indices(), fd);
    }
  }

  class Poller {
    var pollfds: seq<PollFd>
    var channels: map<int, Channel>

    ghost function Indices(): map<int, int>
      reads this, channels.Values
    {
      map fd | fd in channels :: channels[fd].index
    }

    /** The vector, the map and the indices kept in the channels agree. */
    ghost predicate Wired()
      reads this, channels.Values
    {
      (forall fd :: fd in channels ==> channels[fd].fd == fd) && WiredBy(pollfds, Indices())
    }

    ghost predicate Valid()
      reads this, channels.Values
    {
      && Wired()
      && (forall fd :: fd in channels ==> View()[fd].events == channels[fd].events)
    }

    ghost function View(): (v: View)
      requires Wired()
      reads this, channels.Values
      ensures v.Keys == channels.Keys
    {
      ViewOf(pollfds, Indices())
    }

    ghost predicate Holds(channel: Channel)
      reads this
    {
      channel.fd in channels && channels[channel.fd] == channel
    }

    /** A registered channel, or a new one for a descriptor that has none. */
    ghost predicate Accepts(channel: Channel)
      reads this, channel
    {
      if channel.index < 0 then channel.fd >= 0 && channel.fd !in channels else Holds(channel)
    }

    ghost predicate Removable(channel: Channel)
      requires Wired()
      reads this, channels.Values, channel
    {
      && Holds(channel) && channel.IsNoneEvent()
      && pollfds[Indices()[channel.fd]].fd == Parked(channel.fd)
    }

    constructor ()
      ensures Valid() && View() == map[] && channels == map[]
    {
      pollfds, channels := [], map[];
    }

    method UpdateChannel(channel: Channel)
      requires Wired() && Accepts(channel)
      requires forall fd :: fd in channels && fd != channel.fd ==> View()[fd].events == channels[fd].events
      modifies this, channel`index
      ensures Valid() && Holds(channel)
      ensures channels == old(channels)[channel.fd := channel]
      ensures View() == After(old(View()), Update(channel.fd, channel.events))
      ensures old(channel.index) >= 0 ==> channel.index == old(channel.index)
    {
      hide WiredBy, ViewOf, After, Register, Rewrite;
      ghost var ps, at := pollfds, Indices();
      OneChanges(View(), Update(channel.fd, channel.events));
      if channel.index < 0 {
        RegisterKeepsWiring(ps, at, channel.fd, channel.events);
        AddSlot(channel);
      } else {
        RewriteKeepsWiring(ps, at, channel.fd, channel.events);
        RewriteSlot(channel);
      }
    }

    method AddSlot(channel: Channel)
      requires Wired() && Accepts(channel) && channel.index < 0
      modifies this, channel`index
      ensures pollfds == Register(old(pollfds), channel.fd, channel.events)
      ensures channels == old(channels)[channel.fd := channel]
      ensures Indices() == old(Indices())[channel.fd := |old(pollfds)|] && channel.index == |old(pollfds)|
    {
      hide WiredBy, ViewOf;
      assert channel.fd !in channels;
      pollfds := pollfds + [PollFd(channel.fd, channel.events, 0)];
      var idx := |pollfds| - 1;
      channel.index := idx;
      channels := channels[channel.fd := channel];
      assert Indices().Keys == old(Indices())[channel.fd := idx].Keys;
      forall fd | fd in channels ensures Indices()[fd] == old(Indices())[channel.fd := idx][fd] {}
    }

    method RewriteSlot(channel: Channel)
      requires Wired() && Accepts(channel) && channel.index >= 0
      modifies this`pollfds
      ensures channel.fd in channels && Indices()[channel.fd] == channel.index < |old(pollfds)|
      ensures pollfds == Rewrite(old(pollfds), channel.index, channel.fd, channel.events)
      ensures Indices() == old(Indices()) && Holds(channel)
    {
      hide WiredBy, ViewOf;
      assert channel.fd in channels && channels[channel.fd] == channel;
      var idx := channel.index;
      assert Indices()[channel.fd] == idx;
      SlotOf(pollfds, Indices(), channel.fd);
      assert 0 <= idx < |pollfds|;
      assert pollfds[idx].fd == channel.fd || pollfds[idx].fd == -channel.fd - 1;
      pollfds := pollfds[idx := pollfds[idx].(events := channel.events, revents := 0)];
      if channel.IsNoneEvent() {
        pollfds := pollfds[idx := pollfds[idx].(fd := -channel.fd - 1)];
      }
    }

    /** Removal by swapping with the last slot. */
    method RemoveChannel(channel: Channel)
      requires Valid() && Removable(channel)
      modifies this, channels.Values`index
      ensures Valid() && channels == old(channels) - {channel.fd}
      ensures View() == After(old(View()), Remove(channel.fd))
      ensures channel.index == old(channel.index)
    {
      hide WiredBy, ViewOf, After, SwapOut, Moved;
      ghost var ps, at := pollfds, Indices();
      assert channel.fd in channels && channels[channel.fd] == channel;
      assert channel.IsNoneEvent();
      var idx := channel.index;
      assert at[channel.fd] == idx;
      SlotOf(ps, at, channel.fd);
      assert 0 <= idx < |pollfds|;
      assert pollfds[idx].fd == -channel.fd - 1 && pollfds[idx].events == channel.events;
      SwapOutKeepsWiring(ps, at, channel.fd);
      OneChanges(View(), Remove(channel.fd));
      SwapAndPop(channel);
    }

    method SwapAndPop(channel: Channel)
      requires Wired() && channel.fd in channels && channels[channel.fd] == channel
      modifies this, channels.Values`index
      ensures var at := old(Indices());
              && channel.fd in at && 0 <= at[channel.fd] < |old(pollfds)|
              && pollfds == SwapOut(old(pollfds), at[channel.fd])
              && Indices() == Moved(old(pollfds), at, channel.fd)
      ensures channels == old(channels) - {channel.fd} && channel.index == old(channel.index)
    {
      hide WiredBy, ViewOf;
      ghost var ps, at := pollfds, Indices();
      var idx := channel.index;
      SlotOf(ps, at, channel.fd);
      RegisteredAt(ps, at, |pollfds| - 1);
      channels := channels - {channel.fd};
      if idx == |pollfds| - 1 {
        pollfds := pollfds[..|pollfds| - 1];
      } else {
        var last := |pollfds| - 1;
        var channelAtEnd := pollfds[last].fd;
        pollfds := pollfds[idx := pollfds[last]][last := pollfds[idx]];
        if channelAtEnd < 0 {
          channelAtEnd := -channelAtEnd - 1;
        }
        channels[channelAtEnd].index := idx;
        pollfds := pollfds[..last];
      }
      assert pollfds == SwapOut(ps, idx);
      assert Indices().Keys == Moved(ps, at, channel.fd).Keys;
      forall fd | fd in channels ensures Indices()[fd] == Moved(ps, at, channel.fd)[fd] {}
    }

    /** The scan after poll(2) has answered; it stops once every event is accounted for. */
    method FillActiveChannels(numEvents: int, ghost asked: seq<PollFd>) returns (active: seq<Channel>)
      requires Wired() && PollAnswer(asked, pollfds, numEvents)
      modifies channels.Values`revents
      ensures |active| == |ReadyFds(pollfds)|
      ensures forall k :: 0 <= k < |active| ==>
                            var fd := ReadyFds(pollfds)[k];
                            fd in channels && active[k] == channels[fd]
      ensures forall i, j :: 0 <= i < j < |active| ==> active[i] != active[j]
      ensures forall i :: 0 <= i < |pollfds| && pollfds[i].revents != 0 ==>
                            pollfds[i].fd in channels && channels[pollfds[i].fd].revents == pollfds[i].revents
      ensures Wired() && forall fd :: fd in channels ==> channels[fd].events == old(channels[fd].events)
    {
      hide WiredBy, ReadyFds;
      active := [];
      ghost var at := Indices();
      var left := numEvents;
      var i := 0;
      assert pollfds[0..] == pollfds;
      while i < |pollfds| && left > 0
        invariant i <= |pollfds| && left == |ReadyFds(pollfds[i..])|
        invariant Indices() == at && forall fd :: fd in channels ==> channels[fd].events == old(channels[fd].events)
        invariant |active| + left == numEvents
        invariant forall k :: 0 <= k < |active| ==>
                                var fd := ReadyFds(pollfds)[k];
                                fd in channels && active[k] == channels[fd]
        invariant ReadyFds(pollfds)[|active|..] == ReadyFds(pollfds[i..])
        invariant forall j :: 0 <= j < i && pollfds[j].revents != 0 ==>
                                pollfds[j].fd in channels && channels[pollfds[j].fd].revents == pollfds[j].revents
      {
        NextReady(pollfds, i);
        RegisteredAt(pollfds, at, i);
        if pollfds[i].revents > 0 {
          left := left - 1;
          assert pollfds[i].fd in channels;
          var channel := channels[pollfds[i].fd];
          assert channel.fd == pollfds[i].fd;
          channel.revents := pollfds[i].revents;
          assert ReadyFds(pollfds)[|active|] == ReadyFds(pollfds)[|active|..][0];
          active := active + [channel];
          forall j | 0 <= j < i && pollfds[j].revents != 0
            ensures pollfds[j].fd in channels && channels[pollfds[j].fd].revents == pollfds[j].revents
          {
            RegisteredAt(pollfds, at, j);
          }
        }
        i := i + 1;
      }
      NothingLeft(pollfds, i);
      EachReadyOnce(pollfds, at);
    }
  }

  lemma NextReady(ps: seq<PollFd>, i: nat)
    requires i < |ps|
    ensures ReadyFds(ps[i..]) == (if ps[i].revents != 0 then [ps[i].fd] else []) + ReadyFds(ps[i + 1..])
  {
    assert ps[i..][0] == ps[i] && ps[i..][1..] == ps[i + 1..];
  }

  /** No descriptor is left to report, so no later slot reports anything. */
  lemma NothingLeft(ps: seq<PollFd>, i: nat)
    requires i <= |ps| && (i == |ps| || |ReadyFds(ps[i..])| == 0)
    ensures |ReadyFds(ps[i..])| == 0
    ensures forall j :: i <= j < |ps| ==> ps[j].revents == 0
  {
    forall j | i <= j < |ps| ensures ps[j].revents == 0 {
      ReadyExactly(ps[i..], ps[j].fd);
      assert ps[i..][j - i] == ps[j];
    }
  }
}
