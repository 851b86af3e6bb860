/** src/unix_poll.cc, src/epoller.cc, src/include/channel.h: two pollers over one abstract registry. */
module Pollers {

  /** events_: the bits asked for. */
  datatype Interest = Interest(read: bool, write: bool)
  {
    predicate Any() { read || write }
  }

  const NO_EVENT := Interest(false, false)

  /** revents_: the bits reported. */
  datatype Revents = Revents(readable: bool, writable: bool, error: bool, invalid: bool, hangup: bool)
  {
    predicate Any() { readable || writable || error || invalid || hangup }
  }

  const NOTHING := Revents(false, false, false, false, false)

  /** The four tests of Channel::Handle, in order: read, write, error, close. */
  predicate Flagged(r: Revents, stage: nat)
  {
    match stage
    case 0 => r.readable
    case 1 => r.writable
    case 2 => r.error || r.invalid
    case 3 => r.hangup
    case _ => false
  }

  class Channel {
    const fd: int
    var index: int
    var events: Interest
    var revents: Revents
    var isHandling: bool

    constructor (fd: int)
      ensures this.fd == fd && index == -1 && events == NO_EVENT && revents == NOTHING && !isHandling
    {
      this.fd, index, events, revents, isHandling := fd, -1, NO_EVENT, NOTHING, false;
    }

    /** channel.cc:14-32: the callbacks called, by the test that called them. */
    method Handle() returns (called: seq<nat>)
      modifies this`isHandling
      ensures !isHandling
      ensures forall k: nat :: k in called <==> Flagged(revents, k)
      ensures (0 in called <==> revents.readable) && (1 in called <==> revents.writable)
      ensures (2 in called <==> revents.error || revents.invalid) && (3 in called <==> revents.hangup)
      ensures forall i, j | 0 <= i < j < |called| :: called[i] < called[j]
    {
      isHandling := true;
      called := [];
      if revents.readable { called := called + [0]; }
      if revents.writable { called := called + [1]; }
      if revents.error || revents.invalid { called := called + [2]; }
      if revents.hangup { called := called + [3]; }
      isHandling := false;
    }
  }

  // ---------------------------------------------------------------- poll(2)

  datatype PollFd = PollFd(fd: int, events: Interest, revents: Revents)

  /** The descriptor a slot stands for, also when it is stored negated so that poll ignores it. */
  function FdOf(slot: int): int
  {
    if slot >= 0 then slot else -slot - 1
  }

  /** Lines 105-106: zero is taken for a negated descriptor. */
  function EndFd(slot: int): int
  {
    if slot > 0 then slot else -(slot + 1)
  }

  /** The slots that carry events, by position. */
  function Ready(plfds: seq<PollFd>): seq<int>
  {
    if plfds == [] then []
    else
      var n := |plfds| - 1;
      Ready(plfds[..n]) + (if plfds[n].fd >= 0 && plfds[n].revents.Any() then [n] else [])
  }

  lemma {:induction false} ReadyExactly(plfds: seq<PollFd>)
    ensures forall i :: i in Ready(plfds) <==>
              0 <= i < |plfds| && plfds[i].fd >= 0 && plfds[i].revents.Any()
    ensures forall j, k | 0 <= j < k < |Ready(plfds)| :: Ready(plfds)[j] < Ready(plfds)[k]
  {
    if plfds != [] {
      var n := |plfds| - 1;
      var front := Ready(plfds[..n]);
      ReadyExactly(plfds[..n]);
      forall j | 0 <= j < |front| ensures front[j] < n {
        assert front[j] in front;
      }
    }
  }

  lemma NoneReady(plfds: seq<PollFd>)
    ensures Ready(plfds[..0]) == []
  {
  }

  lemma ReadyStep(plfds: seq<PollFd>, i: nat)
    requires i < |plfds|
    ensures Ready(plfds[..i + 1]) ==
            Ready(plfds[..i]) + (if plfds[i].fd >= 0 && plfds[i].revents.Any() then [i] else [])
  {
    assert plfds[..i + 1][..i] == plfds[..i];
  }

  lemma {:induction false} ReadyPrefix(plfds: seq<PollFd>, i: nat)
    requires i <= |plfds|
    ensures Ready(plfds[..i]) <= Ready(plfds)
    decreases |plfds|
  {
    if i == |plfds| {
      assert plfds[..i] == plfds;
    } else {
      var n := |plfds| - 1;
      assert plfds[..n][..i] == plfds[..i];
      ReadyPrefix(plfds[..n], i);
    }
  }

  /** The array is dense: slots and registered descriptors name each other (`indices` is what the
      channels hold in index_in_poller_). */
  ghost predicate Dense(plfds: seq<PollFd>, indices: map<int, int>)
  {
    && (forall fd | fd in indices :: fd >= 0 && 0 <= indices[fd] < |plfds| && FdOf(plfds[indices[fd]].fd) == fd)
    && (forall i | 0 <= i < |plfds| :: FdOf(plfds[i].fd) in indices && indices[FdOf(plfds[i].fd)] == i)
  }

  /** What a slot stands for: the events asked for, and whether it is negated, so that poll ignores it. */
  datatype Slot = Slot(events: Interest, ignored: bool)
  {
    /** As line 84 means it: ignored exactly while no events are asked for. */
    predicate Right() { ignored <==> !events.Any() }
  }

  /** The abstract slots of a dense array, by descriptor. */
  ghost function Watched(plfds: seq<PollFd>, indices: map<int, int>): map<int, Slot>
    requires Dense(plfds, indices)
  {
    map fd | fd in indices :: SlotOf(plfds[indices[fd]])
  }

  function SlotOf(pfd: PollFd): Slot
  {
    Slot(pfd.events, pfd.fd < 0)
  }

  /** Lines 62-88: a new slot is not negated; line 85 negates whatever is there, and nothing undoes it. */
  function SlotUpdate(slots: map<int, Slot>, fd: int, events: Interest): map<int, Slot>
  {
    slots[fd := Slot(events, fd in slots && if events.Any() then slots[fd].ignored else !slots[fd].ignored)]
  }

  lemma PushSlot(plfds: seq<PollFd>, indices: map<int, int>, pfd: PollFd)
    requires Dense(plfds, indices) && pfd.fd >= 0 && pfd.fd !in indices
    ensures Dense(plfds + [pfd], indices[pfd.fd := |plfds|])
    ensures Watched(plfds + [pfd], indices[pfd.fd := |plfds|]) == Watched(plfds, indices)[pfd.fd := SlotOf(pfd)]
  {
    var after, to := plfds + [pfd], indices[pfd.fd := |plfds|];
    assert forall d | d in indices :: after[to[d]] == plfds[indices[d]];
    var watched := Watched(plfds, indices)[pfd.fd := SlotOf(pfd)];
    assert watched.Keys == Watched(after, to).Keys;
  }

  lemma ModifySlot(plfds: seq<PollFd>, indices: map<int, int>, fd: int, pfd: PollFd)
    requires Dense(plfds, indices) && fd in indices && FdOf(pfd.fd) == fd
    ensures Dense(plfds[indices[fd] := pfd], indices)
    ensures Watched(plfds[indices[fd] := pfd], indices) == Watched(plfds, indices)[fd := SlotOf(pfd)]
  {
    var i := indices[fd];
    var after := plfds[i := pfd];
    forall d | d in indices && d != fd ensures after[indices[d]] == plfds[indices[d]] {
      assert FdOf(plfds[indices[d]].fd) == d;
    }
  }

  /** Swapping with the last slot and popping removes one descriptor and nothing else. */
  function SwapPop(plfds: seq<PollFd>, i: nat): seq<PollFd>
    requires i < |plfds|
  {
    plfds[i := plfds[|plfds| - 1]][..|plfds| - 1]
  }

  /** The indices after the removal: the descriptor of the last slot takes over the hole. */
  function Reindex(plfds: seq<PollFd>, indices: map<int, int>, fd: int): map<int, int>
    requires plfds != [] && fd in indices
  {
    var last := FdOf(plfds[|plfds| - 1].fd);
    if last == fd then indices - {fd} else (indices - {fd})[last := indices[fd]]
  }

  lemma SwapRemove(plfds: seq<PollFd>, indices: map<int, int>, fd: int)
    requires Dense(plfds, indices) && fd in indices
    ensures Dense(SwapPop(plfds, indices[fd]), Reindex(plfds, indices, fd))
    ensures Watched(SwapPop(plfds, indices[fd]), Reindex(plfds, indices, fd)) == Watched(plfds, indices) - {fd}
    ensures FdOf(plfds[|plfds| - 1].fd) == fd <==> indices[fd] == |plfds| - 1
  {
    var after, to := SwapPop(plfds, indices[fd]), Reindex(plfds, indices, fd);
    SwapPopAt(plfds, indices, fd);
    ReindexAt(plfds, indices, fd);
    hide SwapPop, Reindex;
    forall d | d in to ensures d >= 0 && 0 <= to[d] < |after| && FdOf(after[to[d]].fd) == d {
      assert FdOf(plfds[indices[d]].fd) == d;
    }
    assert forall i | 0 <= i < |after| :: FdOf(after[i].fd) in to && to[FdOf(after[i].fd)] == i;
  }

  /** Each remaining descriptor's slot is where its new index says, and no slot is left over. */
  lemma SwapPopAt(plfds: seq<PollFd>, indices: map<int, int>, fd: int)
    requires Dense(plfds, indices) && fd in indices
    ensures var after, to := SwapPop(plfds, indices[fd]), Reindex(plfds, indices, fd);
            && |after| == |plfds| - 1
            && (forall d | d in to :: 0 <= to[d] < |after| && after[to[d]] == plfds[indices[d]])
            && (forall i | 0 <= i < |after| :: FdOf(after[i].fd) in to && to[FdOf(after[i].fd)] == i)
  {
    var after, to, n := SwapPop(plfds, indices[fd]), Reindex(plfds, indices, fd), |plfds| - 1;
    assert FdOf(plfds[n].fd) in indices && indices[FdOf(plfds[n].fd)] == n;
    forall d | d in to ensures 0 <= to[d] < n && after[to[d]] == plfds[indices[d]] {
      assert FdOf(plfds[indices[d]].fd) == d;
    }
    forall i | 0 <= i < n ensures FdOf(after[i].fd) in to && to[FdOf(after[i].fd)] == i {
      assert indices[FdOf(plfds[i].fd)] == i;
    }
  }

  /** The end_fd of lines 105-107 names a registered descriptor exactly when the last slot does not
      hold an un-negated 0. */
  lemma EndFdFound(plfds: seq<PollFd>, indices: map<int, int>)
    requires Dense(plfds, indices) && plfds != []
    ensures EndFd(plfds[|plfds| - 1].fd) in indices <==> plfds[|plfds| - 1].fd != 0
    ensures plfds[|plfds| - 1].fd != 0 ==> EndFd(plfds[|plfds| - 1].fd) == FdOf(plfds[|plfds| - 1].fd)
  {
  }

  lemma ReindexAt(plfds: seq<PollFd>, indices: map<int, int>, fd: int)
    requires Dense(plfds, indices) && fd in indices
    ensures var to, n := Reindex(plfds, indices, fd), |plfds| - 1;
            && to.Keys == indices.Keys - {fd}
            && (forall d | d in to ::
                  to[d] == if indices[fd] < n && d == FdOf(plfds[n].fd) then indices[fd] else indices[d])
  {
  }

  /** The array as poll(2) leaves it. */
  function Reported(plfds: seq<PollFd>, report: int -> Revents): seq<PollFd>
  {
    seq(|plfds|, i requires 0 <= i < |plfds| =>
      plfds[i].(revents := if plfds[i].fd < 0 then NOTHING else report(plfds[i].fd)))
  }

  lemma ReportedKeeps(plfds: seq<PollFd>, indices: map<int, int>, report: int -> Revents)
    requires Dense(plfds, indices)
    ensures Dense(Reported(plfds, report), indices)
    ensures Watched(Reported(plfds, report), indices) == Watched(plfds, indices)
  {
    var after := Reported(plfds, report);
    assert forall i | 0 <= i < |plfds| :: after[i].fd == plfds[i].fd && SlotOf(after[i]) == SlotOf(plfds[i]);
    forall fd | fd in indices
      ensures FdOf(after[indices[fd]].fd) == fd && after[indices[fd]].events == plfds[indices[fd]].events
    {
      assert FdOf(plfds[indices[fd]].fd) == fd;
    }
  }

  datatype Removal = Removed | NotRegistered | AssertFails

  /** What the channels hold in index_in_poller_. */
  ghost predicate Indexed(channels: map<int, Channel>, indices: map<int, int>)
    reads channels.Values
  {
    && indices.Keys == channels.Keys
    && (forall fd | fd in channels :: channels[fd].fd == fd && channels[fd].index == indices[fd])
  }

  class UPoll {
    var plfds: seq<PollFd>
    var fdChannels: map<int, Channel>
    ghost var indices: map<int, int>

    ghost predicate Valid()
      reads this, fdChannels.Values
    {
      Dense(plfds, indices) && Indexed(fdChannels, indices)
    }

    ghost function Slots(): map<int, Slot>
      requires Dense(plfds, indices)
      reads this
    {
      Watched(plfds, indices)
    }

    /** A channel is registered here, or its index is negative. */
    ghost predicate Knows(ch: Channel)
      reads this, ch
    {
      if ch.index < 0 then ch.fd !in fdChannels else ch.fd in fdChannels && fdChannels[ch.fd] == ch
    }

    constructor ()
      ensures Valid() && Slots() == map[] && fdChannels == map[]
    {
      plfds, fdChannels, indices := [], map[], map[];
    }

    /** The asserts on each branch are `Knows`. The last clause is the exact condition under which the
        slot comes out as line 84 means it. */
    method UpdateChannel(channel: Channel)
      requires Valid() && Knows(channel) && channel.fd >= 0
      modifies this, channel`index
      ensures Valid() && Knows(channel) && channel.index >= 0
      ensures Slots() == SlotUpdate(old(Slots()), channel.fd, channel.events)
      ensures fdChannels == old(fdChannels)[channel.fd := channel]
      ensures Slots()[channel.fd].Right() <==>
              if old(channel.index) < 0 then channel.events.Any() else !old(Slots())[channel.fd].ignored
    {
      SlotsKeys();
      hide Dense, Watched;
      if channel.index < 0 {
        Register(channel);
      } else {
        Modify(channel);
      }
    }

    lemma SlotsKeys()
      requires Valid()
      ensures Slots().Keys == fdChannels.Keys == indices.Keys
      ensures forall fd | fd in fdChannels :: Slots()[fd] == SlotOf(plfds[indices[fd]])
    {
    }

    method Register(channel: Channel)
      requires Valid() && channel.fd !in fdChannels && channel.fd >= 0
      modifies this, channel`index
      ensures Valid() && channel.index == |old(plfds)|
      ensures Slots() == old(Slots())[channel.fd := Slot(channel.events, false)]
      ensures fdChannels == old(fdChannels)[channel.fd := channel]
    {
      hide Dense, Watched;
      var pfd := PollFd(channel.fd, channel.events, NOTHING);
      PushSlot(plfds, indices, pfd);
      channel.index := |plfds|;
      indices := indices[channel.fd := |plfds|];
      plfds := plfds + [pfd];
      fdChannels := fdChannels[channel.fd := channel];
    }

    method Modify(channel: Channel)
      requires Valid() && channel.fd in fdChannels && fdChannels[channel.fd] == channel
      modifies this
      ensures Valid() && channel.index >= 0
      ensures Slots() == SlotUpdate(old(Slots()), channel.fd, channel.events)
      ensures fdChannels == old(fdChannels)
    {
      SlotAt(channel);
      hide Dense, Watched;
      var pfd := plfds[channel.index];
      pfd := pfd.(events := channel.events, revents := NOTHING);
      if !channel.events.Any() {
        pfd := pfd.(fd := -pfd.fd - 1);
      }
      ModifySlot(plfds, indices, channel.fd, pfd);
      plfds := plfds[channel.index := pfd];
    }

    lemma SlotAt(channel: Channel)
      requires Valid() && channel.fd in fdChannels && fdChannels[channel.fd] == channel
      ensures 0 <= channel.index < |plfds| && FdOf(plfds[channel.index].fd) == channel.fd
      ensures channel.fd in Slots() && Slots()[channel.fd] == SlotOf(plfds[channel.index])
    {
    }

    /** Swap with the last slot, then pop. The assert of line 95 fails when events are still asked for,
        the one of line 107 when the last slot holds descriptor 0 un-negated. An unregistered channel is
        told by its index, whatever its descriptor. */
    method RemoveChannel(channel: Channel) returns (r: Removal)
      requires Valid() && (channel.index >= 0 ==> Knows(channel))
      modifies this, channel`index, fdChannels.Values`index
      ensures r == NotRegistered <==> old(channel.index) < 0
      ensures r == AssertFails <==>
              0 <= old(channel.index) &&
              (channel.events.Any() ||
               (old(channel.index) < |old(plfds)| - 1 && old(plfds)[|old(plfds)| - 1].fd == 0))
      ensures r != AssertFails ==> Valid() && channel.index < 0
      ensures r == NotRegistered ==> plfds == old(plfds) && fdChannels == old(fdChannels) && Slots() == old(Slots())
      ensures r == Removed ==> Slots() == old(Slots()) - {channel.fd}
      ensures r == Removed ==> fdChannels == old(fdChannels) - {channel.fd}
    {
      if channel.index < 0 { return NotRegistered; }
      if channel.events.Any() { return AssertFails; }
      r := Unregister(channel);
    }

    method Unregister(channel: Channel) returns (r: Removal)
      requires Valid() && channel.fd in fdChannels && fdChannels[channel.fd] == channel
      modifies this, fdChannels.Values`index
      ensures r == AssertFails <==>
              0 <= old(channel.index) < |old(plfds)| - 1 && old(plfds)[|old(plfds)| - 1].fd == 0
      ensures r != AssertFails ==> r == Removed && Valid() && channel.index < 0
      ensures r != AssertFails ==> Slots() == old(Slots()) - {channel.fd}
      ensures r != AssertFails ==> fdChannels == old(fdChannels) - {channel.fd}
    {
      SlotAt(channel);
      EndFdFound(plfds, indices);
      hide Dense, Watched;
      var end := channel;
      if channel.index + 1 < |plfds| {
        var endFd := EndFd(plfds[|plfds| - 1].fd);
        if endFd !in fdChannels { return AssertFails; }
        end := fdChannels[endFd];
      }
      TakeOut(channel, end);
      r := Removed;
    }

    /** Lines 103 and 108-112; `end` is the channel of the last slot. */
    method TakeOut(channel: Channel, end: Channel)
      requires Valid() && channel.fd in fdChannels && fdChannels[channel.fd] == channel
      requires plfds != [] && end.fd == FdOf(plfds[|plfds| - 1].fd)
      requires end.fd in fdChannels && fdChannels[end.fd] == end
      modifies this, channel`index, end`index
      ensures Valid() && channel.index < 0
      ensures Slots() == old(Slots()) - {channel.fd}
      ensures fdChannels == old(fdChannels) - {channel.fd}
    {
      SlotAt(channel);
      hide Dense, Watched, SwapPop, Reindex;
      SwapRemove(plfds, indices, channel.fd);
      ReindexAt(plfds, indices, channel.fd);
      var i := channel.index;
      indices := Reindex(plfds, indices, channel.fd);
      fdChannels := fdChannels - {channel.fd};
      DropSlot(i);
      Renumber(channel, end, i);
    }

    /** Lines 108 and 111. */
    method Renumber(channel: Channel, end: Channel, i: nat)
      requires channel.fd !in fdChannels && indices.Keys == fdChannels.Keys
      requires end != channel ==> end.fd in indices && indices[end.fd] == i
      requires forall fd | fd in fdChannels ::
                 fdChannels[fd].fd == fd && (fdChannels[fd] != end ==> fdChannels[fd].index == indices[fd])
      modifies channel`index, end`index
      ensures Indexed(fdChannels, indices) && channel.index == -1
    {
      if end != channel {
        end.index := i;
      }
      channel.index := -1;
    }

    /** Lines 109 and 112. */
    method DropSlot(i: nat)
      requires i < |plfds|
      modifies this`plfds
      ensures plfds == SwapPop(old(plfds), i)
    {
      var last := |plfds| - 1;
      if i < last {
        plfds := plfds[i := plfds[last]][last := plfds[i]];
      }
      plfds := plfds[..last];
    }

    /** `ch` is the channel of slot `i` and has been given its revents. */
    ghost predicate IsSlot(ch: Channel, i: int)
      reads this, ch
    {
      && 0 <= i < |plfds| && FdOf(plfds[i].fd) in fdChannels && fdChannels[FdOf(plfds[i].fd)] == ch
      && ch.revents == plfds[i].revents
    }

    /** The first `numEvents` slots that carry events; all of them when poll's count is right. */
    method FillActivedChannels(numEvents: int) returns (active: seq<Channel>)
      requires Valid()
      modifies fdChannels.Values`revents
      ensures Valid()
      ensures |active| == if numEvents < 0 then 0 else if numEvents < |Ready(plfds)| then numEvents else |Ready(plfds)|
      ensures forall k | 0 <= k < |active| :: IsSlot(active[k], Ready(plfds)[k])
    {
      hide Dense, Ready;
      NoneReady(plfds);
      active := [];
      var left := numEvents;
      var i := 0;
      while i < |plfds|
        invariant 0 <= i <= |plfds| && Valid()
        invariant |active| == |Ready(plfds[..i])| && left == numEvents - |active|
        invariant left < 0 ==> active == []
        invariant forall k | 0 <= k < |active| :: Ready(plfds[..i])[k] < i && IsSlot(active[k], Ready(plfds[..i])[k])
      {
        if left <= 0 { break; }
        ReadyStep(plfds, i);
        var pfd := plfds[i];
        if pfd.fd >= 0 && pfd.revents.Any() {
          left := left - 1;
          NoOtherSlot(i);
          var ch := fdChannels[pfd.fd];
          ch.revents := pfd.revents;
          active := active + [ch];
        }
        i := i + 1;
      }
      ReadyPrefix(plfds, i);
      assert i == |plfds| ==> plfds[..i] == plfds;
    }

    /** poll(2) fills in the revents of every slot that is not negated and returns how many are not
        zero. `report` is what it says of each descriptor. */
    method PollUntil(report: int -> Revents) returns (active: seq<Channel>)
      requires Valid()
      modifies this`plfds, fdChannels.Values`revents
      ensures Valid() && Slots() == old(Slots()) && fdChannels == old(fdChannels)
      ensures forall k | 0 <= k < |active| ::
                active[k].fd in fdChannels && fdChannels[active[k].fd] == active[k] &&
                active[k].revents == report(active[k].fd)
      ensures forall fd | fd in fdChannels :: fdChannels[fd] in active <==> !Slots()[fd].ignored && report(fd).Any()
      ensures forall j, k | 0 <= j < k < |active| :: active[j] != active[k]
    {
      hide Dense, Watched, Ready, IsSlot;
      ReportedKeeps(plfds, indices, report);
      plfds := Reported(plfds, report);
      active := FillActivedChannels(|Ready(plfds)|);
      DeliveredExactly(active, report);
    }

    lemma DeliveredExactly(active: seq<Channel>, report: int -> Revents)
      requires Valid() && |active| == |Ready(plfds)|
      requires forall k | 0 <= k < |active| :: IsSlot(active[k], Ready(plfds)[k])
      requires forall i | 0 <= i < |plfds| && plfds[i].fd >= 0 :: plfds[i].revents == report(plfds[i].fd)
      ensures forall k | 0 <= k < |active| ::
                active[k].fd in fdChannels && fdChannels[active[k].fd] == active[k] &&
                active[k].revents == report(active[k].fd)
      ensures forall fd | fd in fdChannels :: fdChannels[fd] in active <==> !Slots()[fd].ignored && report(fd).Any()
      ensures forall j, k | 0 <= j < k < |active| :: active[j] != active[k]
    {
      var ready := Ready(plfds);
      ReadyExactly(plfds);
      SlotsKeys();
      forall k | 0 <= k < |active|
        ensures ready[k] in ready && active[k].fd == plfds[ready[k]].fd && active[k].index == ready[k]
      {
        assert ready[k] in ready;
      }
      forall fd | fd in fdChannels ensures fdChannels[fd] in active <==> !Slots()[fd].ignored && report(fd).Any() {
        var i := indices[fd];
        assert FdOf(plfds[i].fd) == fd;
        if i in ready {
          var k :| 0 <= k < |ready| && ready[k] == i;
          assert active[k] == fdChannels[fd];
        }
      }
    }

    lemma NoOtherSlot(i: nat)
      requires Valid() && i < |plfds|
      ensures FdOf(plfds[i].fd) in fdChannels
      ensures forall j | 0 <= j < |plfds| && j != i ::
                FdOf(plfds[j].fd) in fdChannels && fdChannels[FdOf(plfds[j].fd)] != fdChannels[FdOf(plfds[i].fd)]
    {
    }
  }

  // ---------------------------------------------------------------- epoll(7)

  class EPoller {
    var fdChannels: map<int, Channel>
    /** The size of actived_events_, which only ever shrinks. */
    var room: nat
    /** The kernel's interest list as epoll_ctl leaves it: events, and the pointer in epoll_data. */
    var kernel: map<int, Interest>
    var kernelData: map<int, Channel>

    ghost predicate Valid()
      reads this, fdChannels.Values
    {
      && kernel.Keys == fdChannels.Keys
      && kernelData == fdChannels && room > 0
      && (forall fd | fd in fdChannels :: fdChannels[fd].fd == fd && fdChannels[fd].index == 1)
    }

    ghost function Registry(): map<int, Interest>
      reads this
    {
      kernel
    }

    ghost predicate Knows(ch: Channel)
      reads this, ch
    {
      if ch.index < 0 then ch.fd !in fdChannels else ch.fd in fdChannels && fdChannels[ch.fd] == ch
    }

    constructor ()
      ensures Valid() && Registry() == map[] && fdChannels == map[]
    {
      fdChannels, kernel, kernelData, room := map[], map[], map[], 16;
    }

    method UpdateChannel(channel: Channel)
      requires Valid() && Knows(channel)
      modifies this, channel`index
      ensures Valid() && Knows(channel) && channel.index >= 0
      ensures Registry() == old(Registry())[channel.fd := channel.events]
      ensures fdChannels == old(fdChannels)[channel.fd := channel]
    {
      kernel := kernel[channel.fd := channel.events];
      if channel.index < 0 { // EPOLL_CTL_ADD
        kernelData := kernelData[channel.fd := channel];
        channel.index := 1;
        fdChannels := fdChannels[channel.fd := channel];
      } else { // EPOLL_CTL_MOD
        kernelData := kernelData[channel.fd := channel];
      }
    }

    /** Found by descriptor: where UPoll looks at the index, this looks at the descriptor, and the
        asserts of lines 46 and 47 fail exactly when the channel registered for it is another one, or
        events are still asked for. */
    method RemoveChannel(channel: Channel) returns (r: Removal)
      requires Valid() && (channel.index >= 0 ==> Knows(channel))
      modifies this, channel`index
      ensures r == NotRegistered <==> channel.fd !in old(fdChannels)
      ensures r == AssertFails <==>
              channel.fd in old(fdChannels) && (old(fdChannels)[channel.fd] != channel || channel.events.Any())
      ensures r != Removed ==>
                fdChannels == old(fdChannels) && Registry() == old(Registry()) && channel.index == old(channel.index)
      ensures Valid() && (r == Removed ==> channel.index < 0)
      ensures r == Removed ==> Registry() == old(Registry()) - {channel.fd}
      ensures r == Removed ==> fdChannels == old(fdChannels) - {channel.fd}
    {
      if channel.fd !in fdChannels { return NotRegistered; }
      if fdChannels[channel.fd] != channel || channel.events.Any() { return AssertFails; }
      kernel := kernel - {channel.fd}; // EPOLL_CTL_DEL
      kernelData := kernelData - {channel.fd};
      channel.index := -1;
      fdChannels := fdChannels - {channel.fd};
      r := Removed;
    }

    /** Lines 96-111. epoll_wait stores at most `room` events. The array keeps the size of the shortest
        batch so far, but never loses its last element: every wait can deliver something. */
    method PollUntil(events: seq<(int, Revents)>) returns (active: seq<Channel>)
      requires Valid() && |events| <= room
      requires forall i | 0 <= i < |events| :: events[i].0 in kernel
      requires forall i, j | 0 <= i < j < |events| :: events[i].0 != events[j].0
      modifies this`room, fdChannels.Values`revents
      ensures Valid() && Registry() == old(Registry()) && fdChannels == old(fdChannels)
      ensures room == if events == [] then old(room) else |events|
      ensures |active| == |events|
      ensures forall k | 0 <= k < |events| ::
                active[k] == fdChannels[events[k].0] && active[k].revents == events[k].1
    {
      active := FillActivedChannels(events);
      if 0 < |events| < room {
        room := |events|;
      }
    }

    /** `events` is what epoll_wait stored: descriptors on the interest list, each once. */
    method FillActivedChannels(events: seq<(int, Revents)>) returns (active: seq<Channel>)
      requires Valid()
      requires forall i | 0 <= i < |events| :: events[i].0 in kernel
      requires forall i, j | 0 <= i < j < |events| :: events[i].0 != events[j].0
      modifies fdChannels.Values`revents
      ensures Valid()
      ensures |active| == |events|
      ensures forall k | 0 <= k < |events| ::
                active[k] == fdChannels[events[k].0] && active[k].revents == events[k].1
    {
      active := [];
      for i := 0 to |events|
        invariant Valid() && |active| == i
        invariant forall k | 0 <= k < i ::
                    active[k] == fdChannels[events[k].0] && active[k].revents == events[k].1
      {
        var ch := kernelData[events[i].0];
        active := active + [ch];
        ch.revents := events[i].1;
      }
    }
  }

  // ---------------------------------------------------------------- one registry, two pollers

  /** What the owner of descriptor `fd` asks for: new interests, or DisableAll and RemoveChannel as
      HandleClose and the loop's destructor do. */
  datatype Request = Want(fd: int, events: Interest) | Retire(fd: int)

  function ApplyOne(registry: map<int, Interest>, r: Request): map<int, Interest>
  {
    match r
    case Want(fd, events) => registry[fd := events]
    case Retire(fd) => registry - {fd}
  }

  /** The abstract registry after some requests: who is registered, and for which events. */
  function Apply(registry: map<int, Interest>, requests: seq<Request>): map<int, Interest>
  {
    if requests == [] then registry
    else
      ApplyOne(Apply(registry, requests[..|requests| - 1]), requests[|requests| - 1])
  }

  function ApplySlot(slots: map<int, Slot>, r: Request): map<int, Slot>
  {
    match r
    case Want(fd, events) => SlotUpdate(slots, fd, events)
    case Retire(fd) => slots - {fd}
  }

  /** The slots of UPoll after some requests. */
  function ApplySlots(slots: map<int, Slot>, requests: seq<Request>): map<int, Slot>
  {
    if requests == [] then slots
    else
      ApplySlot(ApplySlots(slots, requests[..|requests| - 1]), requests[|requests| - 1])
  }

  /** UPoll registers what the abstract registry says, for the events it says. */
  ghost predicate Registers(slots: map<int, Slot>, registry: map<int, Interest>)
  {
    forall fd :: (fd in slots <==> fd in registry) && (fd in slots ==> slots[fd].events == registry[fd])
  }

  lemma {:induction false} RegistersAll(slots: map<int, Slot>, registry: map<int, Interest>, requests: seq<Request>)
    requires Registers(slots, registry)
    ensures Registers(ApplySlots(slots, requests), Apply(registry, requests))
  {
    if requests != [] {
      RegistersAll(slots, registry, requests[..|requests| - 1]);
    }
  }

  /** How many updates asked for no events since `fd` was last registered. */
  function Empties(requests: seq<Request>, fd: int): nat
  {
    if requests == [] then 0
    else
      var before, r := requests[..|requests| - 1], requests[|requests| - 1];
      if r.fd != fd then Empties(before, fd)
      else
        match r
        case Retire(_) => 0
        case Want(_, events) =>
          if fd in Apply(map[], before) && !events.Any() then Empties(before, fd) + 1 else Empties(before, fd)
  }

  lemma {:induction false} NoEmpties(requests: seq<Request>, fd: int)
    requires fd !in Apply(map[], requests)
    ensures Empties(requests, fd) == 0
  {
    if requests != [] && fd !in Apply(map[], requests[..|requests| - 1]) {
      NoEmpties(requests[..|requests| - 1], fd);
    }
  }

  /** After any requests to a new UPoll a registered descriptor is ignored by poll exactly when the
      number of empty updates since its registration is odd. */
  lemma {:induction false} SlotParity(requests: seq<Request>, fd: int)
    ensures Registers(ApplySlots(map[], requests), Apply(map[], requests))
    ensures fd in Apply(map[], requests) ==>
              (ApplySlots(map[], requests)[fd].ignored <==> Empties(requests, fd) % 2 == 1)
  {
    RegistersAll(map[], map[], requests);
    if requests != [] {
      var before := requests[..|requests| - 1];
      SlotParity(before, fd);
      if fd !in Apply(map[], before) { NoEmpties(before, fd); }
    }
  }

  /** Everybody who asked for events is polled for them, as epoll does by itself. */
  ghost predicate AllPolled(slots: map<int, Slot>)
  {
    forall fd | fd in slots && slots[fd].events.Any() :: !slots[fd].ignored
  }

  /** The guard at request `k`: nobody asks for events on a slot that is negated. */
  predicate AskedInTime(requests: seq<Request>, k: nat)
    requires k < |requests|
  {
    var r, before := requests[k], requests[..k];
    r.Want? && r.events.Any() && r.fd in Apply(map[], before) ==> Empties(before, r.fd) % 2 == 0
  }

  lemma PrefixStep(requests: seq<Request>, k: nat)
    requires k < |requests|
    ensures requests[..k + 1][..k] == requests[..k] && requests[..k + 1][k] == requests[k]
    ensures |requests[..k + 1]| == k + 1
    ensures ApplySlots(map[], requests[..k + 1]) == ApplySlot(ApplySlots(map[], requests[..k]), requests[k])
    ensures Apply(map[], requests[..k + 1]) == ApplyOne(Apply(map[], requests[..k]), requests[k])
  {
  }

  /** UPoll polls everybody who asked for events, after every request of a history, if and only if no
      request for events comes after an odd number of empty updates since the registration. */
  lemma PollMatchesEpoll(requests: seq<Request>)
    ensures (forall n: nat | n <= |requests| :: AllPolled(ApplySlots(map[], requests[..n]))) <==>
            (forall k: nat | k < |requests| :: AskedInTime(requests, k))
  {
    if forall k: nat | k < |requests| :: AskedInTime(requests, k) {
      forall n: nat | n <= |requests| ensures AllPolled(ApplySlots(map[], requests[..n])) {
        PolledWhenInTime(requests, n);
      }
    }
    if forall n: nat | n <= |requests| :: AllPolled(ApplySlots(map[], requests[..n])) {
      forall k: nat | k < |requests| ensures AskedInTime(requests, k) {
        InTimeWhenPolled(requests, k);
      }
    }
  }

  lemma {:induction false} PolledWhenInTime(requests: seq<Request>, n: nat)
    requires n <= |requests| && forall k: nat | k < |requests| :: AskedInTime(requests, k)
    ensures AllPolled(ApplySlots(map[], requests[..n]))
  {
    if n > 0 {
      PolledWhenInTime(requests, n - 1);
      PrefixStep(requests, n - 1);
      SlotParity(requests[..n - 1], requests[n - 1].fd);
      assert AskedInTime(requests, n - 1);
    }
  }

  lemma InTimeWhenPolled(requests: seq<Request>, k: nat)
    requires k < |requests| && AllPolled(ApplySlots(map[], requests[..k + 1]))
    ensures AskedInTime(requests, k)
  {
    var slots := ApplySlots(map[], requests[..k]);
    PrefixStep(requests, k);
    SlotParity(requests[..k], requests[k].fd);
    assert requests[k].fd in Apply(map[], requests[..k]) <==> requests[k].fd in slots;
    assert requests[k].Want? ==> requests[k].fd in ApplySlots(map[], requests[..k + 1]);
  }

  /** At each request: a registration asks for events, and after an empty update comes only removal. */
  predicate Disciplined(requests: seq<Request>, k: nat)
    requires k < |requests|
  {
    var r, registry := requests[k], Apply(map[], requests[..k]);
    r.Want? ==> if r.fd in registry then registry[r.fd].Any() else r.events.Any()
  }

  ghost predicate AllRight(slots: map<int, Slot>)
  {
    forall fd | fd in slots :: slots[fd].Right()
  }

  /** Every slot is negated exactly while no events are asked for, at all times, if and only if the
      requests are disciplined: the reading of lines 83-86 the code relies on. */
  lemma SlotsRight(requests: seq<Request>)
    ensures (forall n: nat | n <= |requests| :: AllRight(ApplySlots(map[], requests[..n]))) <==>
            (forall k: nat | k < |requests| :: Disciplined(requests, k))
  {
    if forall k: nat | k < |requests| :: Disciplined(requests, k) {
      forall n: nat | n <= |requests| ensures AllRight(ApplySlots(map[], requests[..n])) {
        RightWhenDisciplined(requests, n);
      }
    }
    if forall n: nat | n <= |requests| :: AllRight(ApplySlots(map[], requests[..n])) {
      forall k: nat | k < |requests| ensures Disciplined(requests, k) {
        PrefixStep(requests, k);
        RegistersAll(map[], map[], requests[..k]);
        var fd, slots, later := requests[k].fd, ApplySlots(map[], requests[..k]), ApplySlots(map[], requests[..k + 1]);
        assert AllRight(slots) && AllRight(later);
        assert fd in slots <==> fd in Apply(map[], requests[..k]);
        assert requests[k].Want? ==> fd in later;
      }
    }
  }

  lemma {:induction false} RightWhenDisciplined(requests: seq<Request>, n: nat)
    requires n <= |requests| && forall k: nat | k < |requests| :: Disciplined(requests, k)
    ensures AllRight(ApplySlots(map[], requests[..n]))
  {
    if n > 0 {
      RightWhenDisciplined(requests, n - 1);
      PrefixStep(requests, n - 1);
      RegistersAll(map[], map[], requests[..n - 1]);
      assert Disciplined(requests, n - 1);
    }
  }

  /** Enabling events again after disabling them: epoll watches the descriptor, poll does not. */
  lemma DisabledForGood(fd: int, events: Interest)
    requires events.Any()
    ensures var requests := [Want(fd, events), Want(fd, NO_EVENT), Want(fd, events)];
            && Apply(map[], requests) == map[fd := events]
            && ApplySlots(map[], requests) == map[fd := Slot(events, true)]
            && !AllPolled(ApplySlots(map[], requests))
  {
    var requests := [Want(fd, events), Want(fd, NO_EVENT), Want(fd, events)];
    assert requests[..0] == [];
    PrefixStep(requests, 0);
    PrefixStep(requests, 1);
    PrefixStep(requests, 2);
    assert requests[..3] == requests;
    RegistersAll(map[], map[], requests);
    assert fd in ApplySlots(map[], requests);
  }

  // ---------------------------------------------------------------- the two pollers on the same requests

  /** One channel per descriptor, of which a poller has registered some. */
  ghost predicate PoolOf(pool: map<int, Channel>, known: map<int, Channel>, fds: set<int>)
    reads pool.Values
  {
    && pool.Keys == fds
    && (forall fd | fd in pool :: pool[fd].fd == fd && (fd in known <==> pool[fd].index >= 0))
    && (forall fd | fd in known :: fd in pool && known[fd] == pool[fd])
  }

  lemma KnownInPool(pool: map<int, Channel>, known: map<int, Channel>, fds: set<int>)
    requires PoolOf(pool, known, fds)
    ensures known.Values <= pool.Values
  {
    assert forall fd | fd in known.Keys :: fd in pool && pool[fd] == known[fd] && pool[fd] in pool.Values;
  }

  lemma EmptiedThenRemoved(m: map<int, Interest>, fd: int, e: Interest)
    ensures m[fd := e] - {fd} == m - {fd}
  {
  }

  lemma NegatedThenRemoved(m: map<int, Slot>, fd: int, e: Interest)
    ensures SlotUpdate(m, fd, e) - {fd} == m - {fd}
  {
  }

  method PollRequest(poll: UPoll, pool: map<int, Channel>, ghost fds: set<int>, r: Request)
    requires poll.Valid() && PoolOf(pool, poll.fdChannels, fds) && r.fd in fds
    requires forall fd | fd in fds :: fd > 0
    modifies poll, pool.Values
    ensures poll.Valid() && PoolOf(pool, poll.fdChannels, fds)
    ensures poll.Slots() == ApplySlot(old(poll.Slots()), r)
  {
    hide Dense, Watched, SlotUpdate;
    var ch := pool[r.fd];
    match r {
      case Want(_, events) =>
        ch.events := events;
        poll.UpdateChannel(ch);
      case Retire(_) =>
        ch.events := NO_EVENT;
        poll.UpdateChannel(ch);
        PollRetire(poll, pool, fds, ch);
        NegatedThenRemoved(old(poll.Slots()), r.fd, NO_EVENT);
    }
  }

  method PollRetire(poll: UPoll, pool: map<int, Channel>, ghost fds: set<int>, ch: Channel)
    requires poll.Valid() && PoolOf(pool, poll.fdChannels, fds)
    requires ch.fd in poll.fdChannels && pool[ch.fd] == ch && ch.events == NO_EVENT
    requires forall fd | fd in fds :: fd > 0
    modifies poll, pool.Values
    ensures poll.Valid() && PoolOf(pool, poll.fdChannels, fds)
    ensures poll.Slots() == old(poll.Slots()) - {ch.fd}
  {
    assert forall fd | fd in poll.fdChannels.Keys :: fd in poll.fdChannels && fd in pool.Keys;
    NoZeroSlot(poll, fds);
    hide Dense, Watched;
    KnownInPool(pool, poll.fdChannels, fds);
    var r := poll.RemoveChannel(ch);
  }

  lemma NoZeroSlot(poll: UPoll, fds: set<int>)
    requires poll.Valid() && poll.fdChannels.Keys <= fds && forall fd | fd in fds :: fd > 0
    ensures forall i | 0 <= i < |poll.plfds| :: poll.plfds[i].fd != 0
  {
    forall i | 0 <= i < |poll.plfds| ensures poll.plfds[i].fd != 0 {
      assert FdOf(poll.plfds[i].fd) in poll.indices;
    }
  }

  method EpollRequest(epoll: EPoller, pool: map<int, Channel>, ghost fds: set<int>, r: Request)
    requires epoll.Valid() && PoolOf(pool, epoll.fdChannels, fds) && r.fd in fds
    modifies epoll, pool.Values
    ensures epoll.Valid() && PoolOf(pool, epoll.fdChannels, fds)
    ensures epoll.Registry() == ApplyOne(old(epoll.Registry()), r)
  {
    var ch := pool[r.fd];
    match r {
      case Want(_, events) =>
        ch.events := events;
        epoll.UpdateChannel(ch);
      case Retire(_) =>
        ch.events := NO_EVENT;
        epoll.UpdateChannel(ch);
        var _ := epoll.RemoveChannel(ch);
        EmptiedThenRemoved(old(epoll.Registry()), r.fd, NO_EVENT);
    }
  }

  /** Any requests over positive descriptors leave in UPoll the slots that ApplySlots says ... */
  method PollRun(poll: UPoll, pool: map<int, Channel>, ghost fds: set<int>, requests: seq<Request>)
    requires poll.Valid() && PoolOf(pool, poll.fdChannels, fds)
    requires forall fd | fd in fds :: fd > 0
    requires forall i | 0 <= i < |requests| :: requests[i].fd in fds
    modifies poll, pool.Values
    ensures poll.Valid() && PoolOf(pool, poll.fdChannels, fds)
    ensures poll.Slots() == ApplySlots(old(poll.Slots()), requests)
  {
    hide Dense, Watched, PoolOf;
    ghost var start := poll.Slots();
    for i := 0 to |requests|
      invariant poll.Valid() && PoolOf(pool, poll.fdChannels, fds)
      invariant poll.Slots() == ApplySlots(start, requests[..i])
    {
      assert requests[..i + 1][..i] == requests[..i];
      PollRequest(poll, pool, fds, requests[i]);
    }
    assert requests[..|requests|] == requests;
  }

  /** ... and in EPoller, where the kernel polls for whatever is registered, the abstract registry. */
  method EpollRun(epoll: EPoller, pool: map<int, Channel>, ghost fds: set<int>, requests: seq<Request>)
    requires epoll.Valid() && PoolOf(pool, epoll.fdChannels, fds)
    requires forall i | 0 <= i < |requests| :: requests[i].fd in fds
    modifies epoll, pool.Values
    ensures epoll.Valid() && PoolOf(pool, epoll.fdChannels, fds)
    ensures epoll.Registry() == Apply(old(epoll.Registry()), requests)
  {
    hide PoolOf;
    ghost var start := epoll.Registry();
    for i := 0 to |requests|
      invariant epoll.Valid() && PoolOf(pool, epoll.fdChannels, fds)
      invariant epoll.Registry() == Apply(start, requests[..i])
    {
      assert requests[..i + 1][..i] == requests[..i];
      EpollRequest(epoll, pool, fds, requests[i]);
    }
    assert requests[..|requests|] == requests;
  }

  lemma {:induction false} NeverNegated(requests: seq<Request>, fd: int)
    requires forall i | 0 <= i < |requests| && requests[i].Want? :: requests[i].events.Any()
    ensures Empties(requests, fd) == 0
  {
    if requests != [] {
      NeverNegated(requests[..|requests| - 1], fd);
    }
  }

  lemma NeverIgnored(requests: seq<Request>)
    requires forall i | 0 <= i < |requests| && requests[i].Want? :: requests[i].events.Any()
    ensures forall fd :: fd in ApplySlots(map[], requests) <==> fd in Apply(map[], requests)
    ensures forall fd | fd in ApplySlots(map[], requests) :: !ApplySlots(map[], requests)[fd].ignored
  {
    RegistersAll(map[], map[], requests);
    forall fd | fd in ApplySlots(map[], requests) ensures !ApplySlots(map[], requests)[fd].ignored {
      SlotParity(requests, fd);
      NeverNegated(requests, fd);
    }
  }

  /** A new UPoll, requests that always ask for something, then poll: exactly the registered channels
      whose descriptors have something to report are delivered, each once, with their own report. */
  method PollDelivers(
    poll: UPoll, pool: map<int, Channel>, ghost fds: set<int>, requests: seq<Request>, report: int -> Revents)
    returns (active: seq<Channel>)
    requires poll.Valid() && PoolOf(pool, poll.fdChannels, fds) && poll.Slots() == map[]
    requires forall fd | fd in fds :: fd > 0
    requires forall i | 0 <= i < |requests| :: requests[i].fd in fds
    requires forall i | 0 <= i < |requests| && requests[i].Want? :: requests[i].events.Any()
    modifies poll, pool.Values
    ensures forall fd | fd in fds :: pool[fd] in active <==> fd in Apply(map[], requests) && report(fd).Any()
    ensures forall k | 0 <= k < |active| :: active[k].fd in fds && active[k] == pool[active[k].fd]
    ensures forall k | 0 <= k < |active| :: active[k].revents == report(active[k].fd)
    ensures forall j, k | 0 <= j < k < |active| :: active[j] != active[k]
  {
    PollRun(poll, pool, fds, requests);
    NeverIgnored(requests);
    poll.SlotsKeys();
    hide Dense, Watched, Apply, ApplySlots, PoolOf;
    active := DeliverAll(poll, pool, fds, report);
  }

  method DeliverAll(poll: UPoll, pool: map<int, Channel>, ghost fds: set<int>, report: int -> Revents)
    returns (active: seq<Channel>)
    requires poll.Valid() && PoolOf(pool, poll.fdChannels, fds)
    requires forall fd | fd in poll.Slots() :: !poll.Slots()[fd].ignored
    modifies poll, pool.Values
    ensures forall fd | fd in fds :: pool[fd] in active <==> fd in old(poll.Slots()) && report(fd).Any()
    ensures forall k | 0 <= k < |active| ::
              active[k].fd in fds && active[k] == pool[active[k].fd] && active[k].revents == report(active[k].fd)
    ensures forall j, k | 0 <= j < k < |active| :: active[j] != active[k]
  {
    poll.SlotsKeys();
    hide Dense, Watched;
    KnownInPool(pool, poll.fdChannels, fds);
    active := poll.PollUntil(report);
    forall fd | fd in fds && pool[fd] in active ensures fd in poll.fdChannels {
      var k :| 0 <= k < |active| && active[k] == pool[fd];
      assert active[k].fd == fd;
    }
  }
}
