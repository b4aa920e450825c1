/** Channels as the pollers see them, from `mytinyhttpd/net/channel.h` and `mytinyhttpd/net/channel.cc`,
    and what a history of updates and removals asks the kernel to watch. */
module Channels {

  type Mask = m: nat | m < 0x8000

  /** A channel object; two channels may have had the same file descriptor, one after the other. */
  datatype Channel = Channel(fd: nat, id: nat)

  const NEW := -1
  const ADDED := 0
  const DELETED := 1

  /** `events_` and `status_`. */
  datatype Fields = Fields(events: Mask, status: int)

  const INITIAL := Fields(0, NEW)

  function Get(fields: map<Channel, Fields>, ch: Channel): (f: Fields) {
    if ch in fields then fields[ch] else INITIAL
  }

  /** Every change of `events_` is followed by an update, so an update carries the new mask. */
  datatype Op = Update(ch: Channel, events: Mask) | Remove(ch: Channel)

  // ---------------------------------------------------------------- histories

  /** The mask the history asks for on a descriptor: that of the newest operation on it. */
  function Interest(ops: seq<Op>, fd: nat): (m: Mask) {
    if ops == [] then 0
    else
      var pre, op := ops[..|ops| - 1], ops[|ops| - 1];
      if op.ch.fd != fd then Interest(pre, fd) else if op.Update? then op.events else 0
  }

  /** The channel that has a descriptor, and whether it has been updated once only. */
  datatype Owner = None | Owner(ch: Channel, once: bool)

  function OwnerOf(ops: seq<Op>, fd: nat): (o: Owner) {
    if ops == [] then None
    else
      var pre, op := ops[..|ops| - 1], ops[|ops| - 1];
      if op.ch.fd != fd then OwnerOf(pre, fd)
      else if op.Update? then Owner(op.ch, OwnerOf(pre, fd).None?)
      else None
  }

  predicate Seen(ops: seq<Op>, ch: Channel) {
    exists i :: 0 <= i < |ops| && ops[i].ch == ch
  }

  predicate Owns(ops: seq<Op>, ch: Channel) {
    var o := OwnerOf(ops, ch.fd);
    o.Owner? && o.ch == ch
  }

  /** What `PollPoller` demands: descriptors are registered by channels never used before, and a channel
      is removed after an update to the empty mask that is not its first. */
  predicate PollAllows(ops: seq<Op>, op: Op) {
    match op
    case Update(ch, events) => Owns(ops, ch) || (OwnerOf(ops, ch.fd).None? && !Seen(ops, ch))
    case Remove(ch) => Owns(ops, ch) && Interest(ops, ch.fd) == 0 && !OwnerOf(ops, ch.fd).once
  }

  /** What `EPollPoller` demands. */
  predicate EpollAllows(ops: seq<Op>, op: Op) {
    match op
    case Update(ch, events) => Owns(ops, ch) || OwnerOf(ops, ch.fd).None?
    case Remove(ch) => Owns(ops, ch) && Interest(ops, ch.fd) == 0
  }

  predicate PollOrderly(ops: seq<Op>) {
    ops == [] || (PollOrderly(ops[..|ops| - 1]) && PollAllows(ops[..|ops| - 1], ops[|ops| - 1]))
  }

  predicate EpollOrderly(ops: seq<Op>) {
    ops == [] || (EpollOrderly(ops[..|ops| - 1]) && EpollAllows(ops[..|ops| - 1], ops[|ops| - 1]))
  }

  lemma {:induction false} PollDemandsMore(ops: seq<Op>)
    requires PollOrderly(ops)
    ensures EpollOrderly(ops)
  {
    if ops != [] {
      PollDemandsMore(ops[..|ops| - 1]);
    }
  }

  /** `ops'` is `ops` with one more operation. */
  ghost predicate Newer(ops: seq<Op>, ops': seq<Op>, op: Op) {
    && (forall fd: nat :: Interest(ops', fd) ==
          if op.ch.fd != fd then Interest(ops, fd) else if op.Update? then op.events else 0)
    && (forall fd: nat :: OwnerOf(ops', fd) ==
          if op.ch.fd != fd then OwnerOf(ops, fd)
          else if op.Update? then Owner(op.ch, OwnerOf(ops, fd).None?)
          else None)
    && (forall ch :: Seen(ops', ch) <==> Seen(ops, ch) || ch == op.ch)
  }

  lemma Newest(ops: seq<Op>, op: Op)
    ensures Newer(ops, ops + [op], op)
  {
    assert (ops + [op])[..|ops|] == ops;
    forall ch
      ensures Seen(ops + [op], ch) <==> Seen(ops, ch) || ch == op.ch
    {
      assert (ops + [op])[|ops|] == op;
      if Seen(ops, ch) {
        var i :| 0 <= i < |ops| && ops[i].ch == ch;
        assert (ops + [op])[i].ch == ch;
      }
    }
  }

  /** An owner has been seen, and has the descriptor it owns. */
  lemma {:induction false} OwnerIsSeen(ops: seq<Op>, fd: nat)
    ensures var o := OwnerOf(ops, fd); o.Owner? ==> o.ch.fd == fd && Seen(ops, o.ch)
  {
    if ops != [] {
      var pre, op := ops[..|ops| - 1], ops[|ops| - 1];
      OwnerIsSeen(pre, fd);
      assert ops == pre + [op];
      Newest(pre, op);
    }
  }
}

/** `mytinyhttpd/net/poll_poller.cc`: a dense array of `pollfd` slots. The status of a channel is its
    slot; a slot whose channel has no interest is hidden from the kernel by making its descriptor
    negative; removal swaps the last slot into the gap. */
module PollPollers {
  import opened Channels

  datatype PollFd = PollFd(fd: int, events: Mask, revents: nat)

  datatype Poller = Poller(
    pollfds: seq<PollFd>,
    channels: map<nat, Channel>,
    fields: map<Channel, Fields>,
    crashed: bool)

  const Empty := Poller([], map[], map[], false)

  function Hidden(fd: nat): (h: int)
    ensures h < 0
  {
    -1 - fd
  }

  /** The descriptor a slot is for. */
  function FdOf(p: PollFd): (fd: nat) {
    if p.fd < 0 then -1 - p.fd else p.fd
  }

  predicate SlotIsFor(p: PollFd, fd: nat) {
    p.fd == fd || p.fd == Hidden(fd)
  }

  predicate Registered(s: Poller, ch: Channel) {
    ch.fd in s.channels && s.channels[ch.fd] == ch
  }

  function AfterUpdate(s: Poller, ch: Channel, events: Mask): (s': Poller) {
    var i := Get(s.fields, ch).status;
    var f := s.fields[ch := Fields(events, i)];
    if i == NEW then
      if ch.fd in s.channels then s.(crashed := true)
      else
        s.(pollfds := s.pollfds + [PollFd(ch.fd, events, 0)],
           channels := s.channels[ch.fd := ch],
           fields := s.fields[ch := Fields(events, |s.pollfds|)])
    else if !Registered(s, ch) || !(0 <= i < |s.pollfds|) || !SlotIsFor(s.pollfds[i], ch.fd) then
      s.(crashed := true)
    else
      s.(pollfds := s.pollfds[i := PollFd(if events == 0 then Hidden(ch.fd) else ch.fd, events, 0)], fields := f)
  }

  function AfterRemove(s: Poller, ch: Channel): (s': Poller) {
    var Fields(events, i) := Get(s.fields, ch);
    var n := |s.pollfds|;
    if !Registered(s, ch) || events != 0 || !(0 <= i < n)
       || s.pollfds[i].fd != Hidden(ch.fd) || s.pollfds[i].events != events then
      s.(crashed := true)
    else
      var channels' := s.channels - {ch.fd};
      if i == n - 1 then s.(pollfds := s.pollfds[..n - 1], channels := channels')
      else if FdOf(s.pollfds[n - 1]) !in channels' then s.(crashed := true)
      else
        var moved := channels'[FdOf(s.pollfds[n - 1])];
        s.(pollfds := s.pollfds[i := s.pollfds[n - 1]][..n - 1],
           channels := channels',
           fields := s.fields[moved := Get(s.fields, moved).(status := i)])
  }

  function Apply(s: Poller, op: Op): (s': Poller) {
    if s.crashed then s
    else
      match op
      case Update(ch, events) => AfterUpdate(s, ch, events)
      case Remove(ch) => AfterRemove(s, ch)
  }

  /** The newest operation is the last. */
  function Run(ops: seq<Op>): (s: Poller) {
    if ops == [] then Empty else Apply(Run(ops[..|ops| - 1]), ops[|ops| - 1])
  }

  /** The kernel looks at the slots with a descriptor. */
  predicate Watches(s: Poller, fd: nat, m: Mask) {
    exists i :: 0 <= i < |s.pollfds| && s.pollfds[i].fd == fd && s.pollfds[i].events == m
  }

  // ---------------------------------------------------------------- the invariant

  /** Channel to slot: every registered channel has its slot. */
  ghost predicate HaveSlots(s: Poller) {
    forall fd :: fd in s.channels ==>
      var ch := s.channels[fd];
      && ch.fd == fd
      && ch in s.fields
      && 0 <= s.fields[ch].status < |s.pollfds|
      && SlotIsFor(s.pollfds[s.fields[ch].status], fd)
      && s.pollfds[s.fields[ch].status].events == s.fields[ch].events
  }

  /** Slot to channel: every slot is that of a registered channel. */
  ghost predicate HaveChannels(s: Poller) {
    forall i :: 0 <= i < |s.pollfds| ==>
      var fd := FdOf(s.pollfds[i]);
      fd in s.channels && s.channels[fd] in s.fields && s.fields[s.channels[fd]].status == i
  }

  ghost predicate Bijection(s: Poller) {
    HaveSlots(s) && HaveChannels(s)
  }

  ghost predicate KnowsOwners(s: Poller, ops: seq<Op>) {
    forall fd: nat ::
      && (fd in s.channels <==> OwnerOf(ops, fd).Owner?)
      && (fd in s.channels ==> s.channels[fd] == OwnerOf(ops, fd).ch)
  }

  /** The slot of an owner carries its mask, and is hidden when the mask is empty and has not been so
      from the first update. */
  ghost predicate Carries(s: Poller, ops: seq<Op>) {
    forall fd: nat :: OwnerOf(ops, fd).Owner? ==>
      var f := Get(s.fields, OwnerOf(ops, fd).ch);
      && f.events == Interest(ops, fd)
      && 0 <= f.status < |s.pollfds|
      && (s.pollfds[f.status].fd == Hidden(fd) <==> Interest(ops, fd) == 0 && !OwnerOf(ops, fd).once)
  }

  /** The status is reset for no channel once used. */
  ghost predicate UsedForever(s: Poller, ops: seq<Op>) {
    forall ch {:trigger Get(s.fields, ch)} {:trigger Seen(ops, ch)} ::
      Get(s.fields, ch).status == NEW <==> !Seen(ops, ch)
  }

  ghost predicate NoInterestUnowned(ops: seq<Op>) {
    forall fd: nat :: OwnerOf(ops, fd).None? ==> Interest(ops, fd) == 0
  }

  ghost predicate Inv(s: Poller, ops: seq<Op>) {
    && !s.crashed
    && Bijection(s)
    && KnowsOwners(s, ops)
    && Carries(s, ops)
    && UsedForever(s, ops)
    && NoInterestUnowned(ops)
  }

  lemma SlotFd(p: PollFd, fd: nat)
    ensures SlotIsFor(p, fd) <==> FdOf(p) == fd
  {
  }

  /** Two channels never share a slot. */
  lemma SlotsAreDistinct(s: Poller, fd: nat, fd': nat)
    requires Bijection(s) && fd in s.channels && fd' in s.channels && fd != fd'
    ensures s.fields[s.channels[fd]].status != s.fields[s.channels[fd']].status
  {
    var i := s.fields[s.channels[fd]].status;
    SlotFd(s.pollfds[i], fd);
    SlotFd(s.pollfds[i], fd');
  }

  lemma AddKeepsBijection(s: Poller, ch: Channel, events: Mask)
    requires Bijection(s) && ch.fd !in s.channels && Get(s.fields, ch).status == NEW
    ensures Bijection(AfterUpdate(s, ch, events))
  {
    var s' := AfterUpdate(s, ch, events);
    assert FdOf(s'.pollfds[|s.pollfds|]) == ch.fd;
    assert HaveSlots(s');
    assert HaveChannels(s');
  }

  lemma ModifyKeepsBijection(s: Poller, ch: Channel, events: Mask)
    requires Bijection(s) && Registered(s, ch)
    ensures Bijection(AfterUpdate(s, ch, events)) && !(AfterUpdate(s, ch, events).crashed && !s.crashed)
  {
    var s' := AfterUpdate(s, ch, events);
    var i := s.fields[ch].status;
    SlotFd(s.pollfds[i], ch.fd);
    SlotFd(s'.pollfds[i], ch.fd);
    forall fd | fd in s.channels && fd != ch.fd
      ensures s.fields[s.channels[fd]].status != i
    {
      SlotsAreDistinct(s, fd, ch.fd);
    }
    assert HaveSlots(s');
    assert HaveChannels(s');
  }

  /** A slot hidden with the empty mask: what `RemoveChannel` asserts. */
  predicate Removable(s: Poller, ch: Channel) {
    && Registered(s, ch) && ch in s.fields && s.fields[ch].events == 0
    && 0 <= s.fields[ch].status < |s.pollfds|
    && s.pollfds[s.fields[ch].status].fd == Hidden(ch.fd)
    && s.pollfds[s.fields[ch].status].events == 0
  }

  lemma PopKeepsBijection(s: Poller, ch: Channel)
    requires Bijection(s) && Removable(s, ch) && s.fields[ch].status == |s.pollfds| - 1
    ensures Bijection(AfterRemove(s, ch)) && AfterRemove(s, ch).crashed == s.crashed
  {
    var s' := AfterRemove(s, ch);
    forall fd | fd in s.channels && fd != ch.fd
      ensures s.fields[s.channels[fd]].status != s.fields[ch].status
    {
      SlotsAreDistinct(s, fd, ch.fd);
    }
    assert HaveSlots(s');
    assert HaveChannels(s');
  }

  lemma SwapMovesLast(s: Poller, ch: Channel)
    requires Bijection(s) && Removable(s, ch) && s.fields[ch].status < |s.pollfds| - 1
    ensures var last := s.pollfds[|s.pollfds| - 1];
            var fd := FdOf(last);
            && fd in s.channels && fd != ch.fd
            && AfterRemove(s, ch) ==
               var i, moved := s.fields[ch].status, s.channels[fd];
               s.(pollfds := s.pollfds[i := last][..|s.pollfds| - 1],
                  channels := s.channels - {ch.fd},
                  fields := s.fields[moved := s.fields[moved].(status := i)])
  {
    var last := s.pollfds[|s.pollfds| - 1];
    assert s.fields[s.channels[FdOf(last)]].status == |s.pollfds| - 1;
  }

  lemma MovedHasFields(s: Poller)
    requires Bijection(s) && s.pollfds != []
    ensures var fd := FdOf(s.pollfds[|s.pollfds| - 1]); fd in s.channels && s.channels[fd] in s.fields
  {
  }

  lemma SwapKeepsBijection(s: Poller, ch: Channel)
    requires Bijection(s) && Removable(s, ch) && s.fields[ch].status < |s.pollfds| - 1
    ensures Bijection(AfterRemove(s, ch))
  {
    SwapMovesLast(s, ch);
    var s' := AfterRemove(s, ch);
    hide AfterRemove;
    var i, n := s.fields[ch].status, |s.pollfds|;
    var end := FdOf(s.pollfds[n - 1]);
    var moved := s.channels[end];
    assert s.fields[moved].status == n - 1;
    forall fd | fd in s.channels && fd != ch.fd && fd != end
      ensures s.fields[s.channels[fd]].status != i && s.fields[s.channels[fd]].status != n - 1
    {
      SlotsAreDistinct(s, fd, ch.fd);
      SlotsAreDistinct(s, fd, end);
    }
    hide FdOf, SlotIsFor;
    SwapHasSlots(s, s', ch, moved);
    SwapHasChannels(s, s', ch, moved);
  }

  /** What the swap leaves behind. */
  ghost predicate Swapped(s: Poller, s': Poller, ch: Channel, moved: Channel) {
    && Removable(s, ch) && Registered(s, moved) && moved in s.fields && moved != ch
    && var i, n := s.fields[ch].status, |s.pollfds|;
    && i < n - 1 == s.fields[moved].status
    && FdOf(s.pollfds[n - 1]) == moved.fd != ch.fd
    && s'.pollfds == s.pollfds[i := s.pollfds[n - 1]][..n - 1]
    && s'.channels == s.channels - {ch.fd}
    && s'.fields == s.fields[moved := s.fields[moved].(status := i)]
    && forall fd :: fd in s.channels && fd != ch.fd && fd != moved.fd && s.channels[fd] in s.fields ==>
         s.fields[s.channels[fd]].status != i && s.fields[s.channels[fd]].status != n - 1
  }

  lemma SwapHasSlots(s: Poller, s': Poller, ch: Channel, moved: Channel)
    requires Bijection(s) && Swapped(s, s', ch, moved)
    ensures HaveSlots(s')
  {
    hide HaveChannels, SlotIsFor, FdOf;
  }

  lemma SwapHasChannels(s: Poller, s': Poller, ch: Channel, moved: Channel)
    requires Bijection(s) && Swapped(s, s', ch, moved)
    ensures HaveChannels(s')
  {
    var i, n := s.fields[ch].status, |s.pollfds|;
    assert s.fields[s.channels[FdOf(s.pollfds[n - 1])]].status == n - 1;
    forall j | 0 <= j < n - 1 && j != i
      ensures FdOf(s.pollfds[j]) != ch.fd && FdOf(s.pollfds[j]) != moved.fd
    {
      assert s.fields[s.channels[FdOf(s.pollfds[j])]].status == j;
    }
    hide HaveSlots, SlotIsFor, FdOf;
  }

  // ---------------------------------------------------------------- histories

  lemma UpdateKeepsHistory(s: Poller, ops: seq<Op>, ops': seq<Op>, ch: Channel, events: Mask)
    requires Inv(s, ops) && Newer(ops, ops', Update(ch, events)) && PollAllows(ops, Update(ch, events))
    ensures var s' := AfterUpdate(s, ch, events);
            KnowsOwners(s', ops') && UsedForever(s', ops') && NoInterestUnowned(ops')
  {
    hide Interest, OwnerOf, Seen, Carries;
  }

  lemma AddCarries(s: Poller, ops: seq<Op>, ops': seq<Op>, ch: Channel, events: Mask)
    requires Inv(s, ops) && Newer(ops, ops', Update(ch, events)) && OwnerOf(ops, ch.fd).None? && !Seen(ops, ch)
    ensures Carries(AfterUpdate(s, ch, events), ops')
  {
    hide Interest, OwnerOf, Seen, HaveChannels;
    forall fd: nat | OwnerOf(ops, fd).Owner?
      ensures OwnerOf(ops, fd).ch != ch
    {
      OwnerIsSeen(ops, fd);
    }
  }

  lemma ModifyCarries(s: Poller, ops: seq<Op>, ops': seq<Op>, ch: Channel, events: Mask)
    requires Inv(s, ops) && Newer(ops, ops', Update(ch, events)) && Owns(ops, ch)
    ensures Carries(AfterUpdate(s, ch, events), ops')
  {
    hide Interest, OwnerOf, Seen;
    forall fd: nat | OwnerOf(ops, fd).Owner? && fd != ch.fd
      ensures OwnerOf(ops, fd).ch != ch
      ensures s.fields[OwnerOf(ops, fd).ch].status != s.fields[ch].status
    {
      OwnerIsSeen(ops, fd);
      SlotsAreDistinct(s, fd, ch.fd);
    }
    hide HaveChannels, UsedForever;
  }

  lemma UpdateKeepsInv(s: Poller, ops: seq<Op>, ops': seq<Op>, ch: Channel, events: Mask)
    requires Inv(s, ops) && Newer(ops, ops', Update(ch, events)) && PollAllows(ops, Update(ch, events))
    ensures Inv(AfterUpdate(s, ch, events), ops')
  {
    UpdateKeepsHistory(s, ops, ops', ch, events);
    hide Interest, OwnerOf, Seen, HaveSlots, HaveChannels, Carries;
    if Owns(ops, ch) {
      ModifyKeepsBijection(s, ch, events);
      ModifyCarries(s, ops, ops', ch, events);
    } else {
      AddKeepsBijection(s, ch, events);
      AddCarries(s, ops, ops', ch, events);
    }
  }

  lemma AllowedIsRemovable(s: Poller, ops: seq<Op>, ch: Channel)
    requires Inv(s, ops) && Owns(ops, ch)
    ensures PollAllows(ops, Remove(ch)) <==> Removable(s, ch)
    ensures Registered(s, ch) && ch in s.fields && 0 <= s.fields[ch].status < |s.pollfds|
  {
    hide Interest, OwnerOf, Seen;
  }

  /** Removal as the other channels see it: they keep their masks and what is in their slots. */
  ghost predicate Removed(s: Poller, s': Poller, ch: Channel) {
    && !s'.crashed
    && s'.channels == s.channels - {ch.fd}
    && (forall c :: Get(s'.fields, c).events == Get(s.fields, c).events)
    && (forall c :: Get(s'.fields, c).status == NEW <==> Get(s.fields, c).status == NEW)
    && (forall fd :: fd in s.channels && fd != ch.fd ==>
          var i, i' := Get(s.fields, s.channels[fd]).status, Get(s'.fields, s.channels[fd]).status;
          0 <= i < |s.pollfds| && 0 <= i' < |s'.pollfds| && s'.pollfds[i'] == s.pollfds[i])
  }

  lemma PopRemoves(s: Poller, ch: Channel)
    requires Bijection(s) && Removable(s, ch) && s.fields[ch].status == |s.pollfds| - 1 && !s.crashed
    ensures Removed(s, AfterRemove(s, ch), ch)
  {
    forall fd | fd in s.channels && fd != ch.fd
      ensures s.fields[s.channels[fd]].status != s.fields[ch].status
    {
      SlotsAreDistinct(s, fd, ch.fd);
    }
    hide HaveChannels;
  }

  lemma OthersElsewhere(s: Poller, fd1: nat, fd2: nat)
    requires Bijection(s) && fd1 in s.channels && fd2 in s.channels
    ensures forall fd :: fd in s.channels && fd != fd1 && fd != fd2 ==>
              var at := s.fields[s.channels[fd]].status;
              at != s.fields[s.channels[fd1]].status && at != s.fields[s.channels[fd2]].status
  {
    forall fd | fd in s.channels && fd != fd1 && fd != fd2
      ensures var at := s.fields[s.channels[fd]].status;
              at != s.fields[s.channels[fd1]].status && at != s.fields[s.channels[fd2]].status
    {
      SlotsAreDistinct(s, fd, fd1);
      SlotsAreDistinct(s, fd, fd2);
    }
  }

  lemma SwapRemoves(s: Poller, ch: Channel)
    requires Bijection(s) && Removable(s, ch) && s.fields[ch].status < |s.pollfds| - 1 && !s.crashed
    ensures Removed(s, AfterRemove(s, ch), ch)
  {
    SwapMovesLast(s, ch);
    hide AfterRemove;
    var i, n := s.fields[ch].status, |s.pollfds|;
    var end := FdOf(s.pollfds[n - 1]);
    assert s.fields[s.channels[end]].status == n - 1;
    OthersElsewhere(s, ch.fd, end);
    hide HaveChannels, FdOf, SlotIsFor;
  }

  lemma RemoveKeepsHistory(s: Poller, s': Poller, ops: seq<Op>, ops': seq<Op>, ch: Channel)
    requires Inv(s, ops) && Newer(ops, ops', Remove(ch)) && Owns(ops, ch) && Removed(s, s', ch)
    ensures KnowsOwners(s', ops') && UsedForever(s', ops') && NoInterestUnowned(ops')
  {
    OwnerIsSeen(ops, ch.fd);
    hide Interest, OwnerOf, Seen, Carries, Bijection, Get;
  }

  lemma RemoveCarries(s: Poller, s': Poller, ops: seq<Op>, ops': seq<Op>, ch: Channel)
    requires Inv(s, ops) && Newer(ops, ops', Remove(ch)) && Removed(s, s', ch)
    ensures Carries(s', ops')
  {
    hide Interest, OwnerOf, Seen, UsedForever, Bijection, Get;
  }

  lemma RemoveKeepsInv(s: Poller, ops: seq<Op>, ops': seq<Op>, ch: Channel)
    requires Inv(s, ops) && Newer(ops, ops', Remove(ch)) && PollAllows(ops, Remove(ch))
    ensures Inv(AfterRemove(s, ch), ops')
  {
    AllowedIsRemovable(s, ops, ch);
    var s' := AfterRemove(s, ch);
    hide AfterRemove, HaveSlots, HaveChannels, KnowsOwners, Carries, UsedForever, NoInterestUnowned, Newer;
    if s.fields[ch].status == |s.pollfds| - 1 {
      PopKeepsBijection(s, ch);
      PopRemoves(s, ch);
    } else {
      SwapKeepsBijection(s, ch);
      SwapRemoves(s, ch);
    }
    RemoveKeepsHistory(s, s', ops, ops', ch);
    RemoveCarries(s, s', ops, ops', ch);
  }

  lemma StepFailsIff(s: Poller, ops: seq<Op>, op: Op)
    requires Inv(s, ops)
    ensures Apply(s, op).crashed <==> !PollAllows(ops, op)
  {
    hide Interest, OwnerOf, Seen;
    match op
    case Update(ch, events) =>
      if Owns(ops, ch) {
        ModifyKeepsBijection(s, ch, events);
      } else if Seen(ops, ch) {
        assert !Registered(s, ch);
      } else {
        assert Get(s.fields, ch).status == NEW;
      }
    case Remove(ch) =>
      if Owns(ops, ch) {
        AllowedIsRemovable(s, ops, ch);
        if Removable(s, ch) && s.fields[ch].status < |s.pollfds| - 1 {
          SwapMovesLast(s, ch);
        }
      } else {
        assert !Registered(s, ch);
      }
  }

  lemma StepKeepsInv(s: Poller, ops: seq<Op>, op: Op)
    requires Inv(s, ops) && PollAllows(ops, op)
    ensures Inv(Apply(s, op), ops + [op])
  {
    Newest(ops, op);
    assert !s.crashed;
    hide Newer, Inv, PollAllows;
    match op
    case Update(ch, events) => UpdateKeepsInv(s, ops, ops + [op], ch, events);
    case Remove(ch) => RemoveKeepsInv(s, ops, ops + [op], ch);
  }

  /** The assertions hold in exactly the orderly histories, and in those the invariant does. */
  lemma {:induction false} RunKeepsInv(ops: seq<Op>)
    ensures Run(ops).crashed <==> !PollOrderly(ops)
    ensures PollOrderly(ops) ==> Inv(Run(ops), ops)
  {
    hide PollAllows;
    if ops == [] {
      assert Inv(Empty, []);
    } else {
      var pre, op := ops[..|ops| - 1], ops[|ops| - 1];
      assert ops == pre + [op];
      RunKeepsInv(pre);
      if PollOrderly(pre) {
        StepFailsIff(Run(pre), pre, op);
        hide Apply, Inv;
        if PollAllows(pre, op) {
          StepKeepsInv(Run(pre), pre, op);
        }
      }
    }
  }

  /** The kernel is asked for what the history asks for. */
  lemma InvServes(s: Poller, ops: seq<Op>, fd: nat, m: Mask)
    requires Inv(s, ops) && m != 0
    ensures Watches(s, fd, m) <==> Interest(ops, fd) == m
  {
    hide Interest, OwnerOf, Seen;
    if Watches(s, fd, m) {
      var i :| 0 <= i < |s.pollfds| && s.pollfds[i].fd == fd && s.pollfds[i].events == m;
      assert FdOf(s.pollfds[i]) == fd;
    }
    if Interest(ops, fd) == m {
      assert OwnerOf(ops, fd).Owner?;
      var i := s.fields[s.channels[fd]].status;
      assert s.pollfds[i].fd == fd;
    }
  }

  lemma WatchesInterest(ops: seq<Op>, fd: nat, m: Mask)
    requires PollOrderly(ops) && m != 0
    ensures Watches(Run(ops), fd, m) <==> Interest(ops, fd) == m
  {
    hide Inv, Watches;
    RunKeepsInv(ops);
    InvServes(Run(ops), ops, fd, m);
  }

  ghost predicate Serves(s: Poller, ops: seq<Op>) {
    forall fd: nat, m: Mask :: m != 0 ==> (Watches(s, fd, m) <==> Interest(ops, fd) == m)
  }

  /** An operation the poller allows, and what it leaves. */
  lemma StepServes(s: Poller, ops: seq<Op>, op: Op)
    requires Inv(s, ops) && PollAllows(ops, op)
    ensures var s' := Apply(s, op); Inv(s', ops + [op]) && Serves(s', ops + [op])
  {
    hide Inv, PollAllows, Apply, Watches, Interest;
    StepKeepsInv(s, ops, op);
    forall fd: nat, m: Mask | m != 0
      ensures Watches(Apply(s, op), fd, m) <==> Interest(ops + [op], fd) == m
    {
      InvServes(Apply(s, op), ops + [op], fd, m);
    }
  }

  /** Channels and slots are in bijection, whatever the removals. */
  lemma SlotsMatchChannels(ops: seq<Op>)
    requires PollOrderly(ops)
    ensures Bijection(Run(ops)) && |Run(ops).channels| == |Run(ops).pollfds|
  {
    RunKeepsInv(ops);
    CountSlots(Run(ops), |Run(ops).pollfds|);
    var s := Run(ops);
    var fds := set i | 0 <= i < |s.pollfds| :: FdOf(s.pollfds[i]);
    forall fd | fd in s.channels
      ensures fd in fds
    {
      SlotFd(s.pollfds[s.fields[s.channels[fd]].status], fd);
    }
    assert fds == s.channels.Keys;
  }

  lemma {:induction false} CountSlots(s: Poller, n: nat)
    requires Bijection(s) && n <= |s.pollfds|
    ensures |set i | 0 <= i < n :: FdOf(s.pollfds[i])| == n
  {
    if n > 0 {
      CountSlots(s, n - 1);
      var fds := set i | 0 <= i < n :: FdOf(s.pollfds[i]);
      var fewer := set i | 0 <= i < n - 1 :: FdOf(s.pollfds[i]);
      var fd := FdOf(s.pollfds[n - 1]);
      forall i | 0 <= i < n - 1
        ensures FdOf(s.pollfds[i]) != fd
      {
        assert s.fields[s.channels[FdOf(s.pollfds[i])]].status == i;
        assert s.fields[s.channels[fd]].status == n - 1;
      }
      assert fds == fewer + {fd};
    }
  }

  lemma OrderlyStep(ops: seq<Op>, op: Op)
    requires PollOrderly(ops) && PollAllows(ops, op)
    ensures PollOrderly(ops + [op])
  {
    assert (ops + [op])[..|ops|] == ops;
  }

  /** A channel used again after its removal finds a stale slot. */
  lemma ReuseFails(ch: Channel)
    ensures var ops := [Update(ch, 3), Update(ch, 0), Remove(ch), Update(ch, 3)];
            Run(ops).crashed && EpollOrderly(ops) && PollOrderly(ops[..3])
  {
    var a, b, c := [Update(ch, 3)], [Update(ch, 3), Update(ch, 0)], [Update(ch, 3), Update(ch, 0), Remove(ch)];
    var ops := [Update(ch, 3), Update(ch, 0), Remove(ch), Update(ch, 3)];
    assert ops[..3] == c && c[..2] == b && b[..1] == a && a[..0] == [];
    Newest([], Update(ch, 3));
    Newest(a, Update(ch, 0));
    Newest(b, Remove(ch));
    assert [] + a == a && a + [Update(ch, 0)] == b && b + [Remove(ch)] == c;
    hide Interest, OwnerOf, Seen;
    OwnsNothing(ch);
    OrderlyStep([], Update(ch, 3));
    OrderlyStep(a, Update(ch, 0));
    OrderlyStep(b, Remove(ch));
    PollDemandsMore(c);
    assert OwnerOf(c, ch.fd).None? && Seen(c, ch);
    RunKeepsInv(ops);
  }

  lemma OwnsNothing(ch: Channel)
    ensures OwnerOf([], ch.fd).None? && !Seen([], ch) && Interest([], ch.fd) == 0
  {
  }

  // ---------------------------------------------------------------- reporting

  /** The first `n` slots with events, in order. */
  function ReadySlots(pollfds: seq<PollFd>, n: nat): (slots: seq<nat>)
    requires n <= |pollfds|
  {
    if n == 0 then []
    else if pollfds[n - 1].revents > 0 then ReadySlots(pollfds, n - 1) + [n - 1]
    else ReadySlots(pollfds, n - 1)
  }

  lemma {:induction false} ReadySlotsAre(pollfds: seq<PollFd>, n: nat)
    requires n <= |pollfds|
    ensures forall i: nat :: i in ReadySlots(pollfds, n) <==> i < n && pollfds[i].revents > 0
    ensures forall j, k :: 0 <= j < k < |ReadySlots(pollfds, n)| ==>
              ReadySlots(pollfds, n)[j] < ReadySlots(pollfds, n)[k]
  {
    if n > 0 {
      ReadySlotsAre(pollfds, n - 1);
      var fewer := ReadySlots(pollfds, n - 1);
      assert forall j :: 0 <= j < |fewer| ==> fewer[j] in fewer;
    }
  }

  lemma {:induction false} ReadyPrefix(pollfds: seq<PollFd>, k: nat, n: nat)
    requires k <= n <= |pollfds|
    ensures ReadySlots(pollfds, k) <= ReadySlots(pollfds, n)
    decreases n
  {
    if k < n {
      ReadyPrefix(pollfds, k, n - 1);
    }
  }

  /** The channels of the slots, in order, with their events. */
  ghost predicate Reports(active: seq<Channel>, fields: map<Channel, Fields>, revents: map<Channel, nat>,
                          pollfds: seq<PollFd>, slots: seq<nat>)
  {
    && |active| == |slots|
    && forall j :: 0 <= j < |slots| ==>
         && active[j] in fields && fields[active[j]].status == slots[j]
         && active[j] in revents && slots[j] < |pollfds| && revents[active[j]] == pollfds[slots[j]].revents
  }

  lemma OneMore(active: seq<Channel>, fields: map<Channel, Fields>, revents: map<Channel, nat>,
                pollfds: seq<PollFd>, slots: seq<nat>, ch: Channel, i: nat)
    requires Reports(active, fields, revents, pollfds, slots)
    requires i < |pollfds| && ch in fields && fields[ch].status == i && i !in slots
    ensures Reports(active + [ch], fields, revents[ch := pollfds[i].revents], pollfds, slots + [i])
  {
    var active', revents', slots' := active + [ch], revents[ch := pollfds[i].revents], slots + [i];
    forall j | 0 <= j < |slots'|
      ensures active'[j] in fields && fields[active'[j]].status == slots'[j] && active'[j] in revents'
      ensures slots'[j] < |pollfds| && revents'[active'[j]] == pollfds[slots'[j]].revents
    {
      if j < |slots| {
        assert slots[j] in slots;
        assert active[j] != ch;
      }
    }
  }

  lemma NoneReported(fields: map<Channel, Fields>, revents: map<Channel, nat>, pollfds: seq<PollFd>)
    ensures Reports([], fields, revents, pollfds, [])
  {
  }

  lemma ReportedOnce(active: seq<Channel>, fields: map<Channel, Fields>, revents: map<Channel, nat>,
                     pollfds: seq<PollFd>, slots: seq<nat>)
    requires Reports(active, fields, revents, pollfds, slots)
    requires forall j, k :: 0 <= j < k < |slots| ==> slots[j] < slots[k]
    ensures |active| == |slots|
    ensures forall j, k :: 0 <= j < k < |active| ==> active[j] != active[k]
  {
  }

  /** A slot with a descriptor leads to the channel that has the slot. */
  lemma ReadyChannel(s: Poller, i: nat)
    requires Bijection(s) && i < |s.pollfds| && s.pollfds[i].fd >= 0
    ensures var fd := s.pollfds[i].fd;
            && fd in s.channels && s.channels[fd] in s.fields
            && s.fields[s.channels[fd]].status == i && i !in ReadySlots(s.pollfds, i)
  {
    assert FdOf(s.pollfds[i]) == s.pollfds[i].fd;
    ReadySlotsAre(s.pollfds, i);
  }

  /** What the methods assert, from what their callers are asked for. */
  lemma UpdateIsSafe(s: Poller, ops: seq<Op>, ch: Channel, events: Mask)
    requires Inv(s, ops) && PollAllows(ops, Update(ch, events))
    ensures !AfterUpdate(s, ch, events).crashed && Apply(s, Update(ch, events)) == AfterUpdate(s, ch, events)
  {
    hide PollAllows, AfterUpdate;
    StepFailsIff(s, ops, Update(ch, events));
  }

  lemma RemoveIsSafe(s: Poller, ops: seq<Op>, ch: Channel)
    requires Inv(s, ops) && PollAllows(ops, Remove(ch))
    ensures Bijection(s) && Removable(s, ch) && Apply(s, Remove(ch)) == AfterRemove(s, ch)
  {
    hide AfterRemove;
    AllowedIsRemovable(s, ops, ch);
  }

  class PollPoller {
    var pollfds: seq<PollFd>
    var channels: map<nat, Channel>
    var fields: map<Channel, Fields>    // of the channels
    var revents: map<Channel, nat>
    ghost var ops: seq<Op>              // the history

    ghost function View(): (s: Poller)
      reads this
    {
      Poller(pollfds, channels, fields, false)
    }

    /** Slots, channels and masks agree with each other and with the history. */
    ghost predicate Valid()
      reads this
    {
      Inv(View(), ops)
    }

    constructor ()
      ensures Valid() && View() == Empty && ops == []
    {
      pollfds, channels, fields, revents := [], map[], map[], map[];
      ops := [];
    }

    /** The kernel is asked for what the history, with this update, asks for. */
    method UpdateChannel(ch: Channel, events: Mask)
      requires Valid() && PollAllows(ops, Update(ch, events))
      modifies this
      ensures Valid() && ops == old(ops) + [Update(ch, events)] && Serves(View(), ops)
      ensures View() == AfterUpdate(old(View()), ch, events)
    {
      hide Inv, Serves, PollAllows, Apply, AfterUpdate;
      StepServes(View(), ops, Update(ch, events));
      UpdateIsSafe(View(), ops, ch, events);
      WriteSlot(ch, events);
      ops := ops + [Update(ch, events)];
    }

    method WriteSlot(ch: Channel, events: Mask)
      requires !AfterUpdate(View(), ch, events).crashed
      modifies this`pollfds, this`channels, this`fields
      ensures View() == AfterUpdate(old(View()), ch, events)
    {
      var status := Get(fields, ch).status;
      if status == NEW {
        pollfds := pollfds + [PollFd(ch.fd, events, 0)];
        fields := fields[ch := Fields(events, |pollfds| - 1)];
        channels := channels[ch.fd := ch];
      } else {
        pollfds := pollfds[status := PollFd(ch.fd, events, 0)];
        if events == 0 {
          pollfds := pollfds[status := pollfds[status].(fd := -1 - ch.fd)];
        }
        fields := fields[ch := Fields(events, status)];
      }
    }

    method RemoveChannel(ch: Channel)
      requires Valid() && PollAllows(ops, Remove(ch))
      modifies this
      ensures Valid() && ops == old(ops) + [Remove(ch)] && Serves(View(), ops)
      ensures View() == AfterRemove(old(View()), ch)
    {
      ghost var s := View();
      StepServes(s, ops, Remove(ch));
      RemoveIsSafe(s, ops, ch);
      hide Inv, Serves, PollAllows, HaveSlots, HaveChannels;
      ops := ops + [Remove(ch)];
      if fields[ch].status == |pollfds| - 1 {
        channels := channels - {ch.fd};
        pollfds := pollfds[..|pollfds| - 1];
      } else {
        SwapRemove(ch);
      }
    }

    method SwapRemove(ch: Channel)
      requires Bijection(View()) && Removable(View(), ch) && fields[ch].status < |pollfds| - 1
      modifies this`pollfds, this`channels, this`fields
      ensures View() == AfterRemove(old(View()), ch)
    {
      SwapMovesLast(View(), ch);
      MovedHasFields(View());
      hide AfterRemove, HaveSlots, HaveChannels;
      var status, end := fields[ch].status, |pollfds| - 1;
      channels := channels - {ch.fd};
      var channelAtEnd := pollfds[end].fd;
      pollfds := pollfds[status := pollfds[end]][end := pollfds[status]];
      if channelAtEnd < 0 {
        channelAtEnd := -channelAtEnd - 1;
      }
      var moved := channels[channelAtEnd];
      fields := fields[moved := fields[moved].(status := status)];
      pollfds := pollfds[..end];
      assert pollfds == old(pollfds)[status := old(pollfds)[end]][..end];
    }

    /** `numEvents` and the `revents` are from the kernel, which leaves hidden slots alone. Every channel
        whose slot has events is reported, in slot order and once, and nothing else is. */
    method FillActiveChannels(numEvents: nat) returns (active: seq<Channel>)
      requires Valid()
      requires forall i :: 0 <= i < |pollfds| && pollfds[i].fd < 0 ==> pollfds[i].revents == 0
      requires numEvents == |ReadySlots(pollfds, |pollfds|)|
      modifies this`revents
      ensures View() == old(View())
      ensures Reports(active, fields, revents, pollfds, ReadySlots(pollfds, |pollfds|))
      ensures forall j, k :: 0 <= j < k < |active| ==> active[j] != active[k]
    {
      hide HaveSlots, HaveChannels, Reports;
      active := [];
      assert Reports(active, fields, revents, pollfds, []) by { NoneReported(fields, revents, pollfds); }
      var left := numEvents;
      var i := 0;
      while i < |pollfds| && left > 0
        invariant 0 <= i <= |pollfds|
        invariant |ReadySlots(pollfds, i)| == numEvents - left
        invariant Reports(active, fields, revents, pollfds, ReadySlots(pollfds, i))
      {
        var pfd := pollfds[i];
        if pfd.revents > 0 {
          left := left - 1;
          ReadyChannel(View(), i);
          var ch := channels[pfd.fd];
          OneMore(active, fields, revents, pollfds, ReadySlots(pollfds, i), ch, i);
          revents := revents[ch := pfd.revents];
          active := active + [ch];
        }
        i := i + 1;
      }
      ReadyPrefix(pollfds, i, |pollfds|);
      assert ReadySlots(pollfds, i) == ReadySlots(pollfds, |pollfds|);
      ReadySlotsAre(pollfds, |pollfds|);
      ReportedOnce(active, fields, revents, pollfds, ReadySlots(pollfds, |pollfds|));
    }
  }
}

/** `mytinyhttpd/net/epoll_poller.cc`: the kernel keeps the descriptors, and the status of a channel says
    whether it is among them. */
module EpollPollers {
  import opened Channels

  /** What `epoll_ctl` stored for a descriptor. */
  datatype Event = Event(events: Mask, ch: Channel)

  datatype Poller = Poller(
    channels: map<nat, Channel>,
    fields: map<Channel, Fields>,
    kernel: map<nat, Event>,
    crashed: bool)

  const Empty := Poller(map[], map[], map[], false)

  datatype Operation = Add | Modify | Delete

  predicate Registered(s: Poller, ch: Channel) {
    ch.fd in s.channels && s.channels[ch.fd] == ch
  }

  /** Adding a descriptor that is there and modifying one that is not are fatal; deleting one that is
      not there is only logged. */
  function Ctl(s: Poller, operation: Operation, ch: Channel): (s': Poller) {
    var event := Event(Get(s.fields, ch).events, ch);
    match operation
    case Add => if ch.fd in s.kernel then s.(crashed := true) else s.(kernel := s.kernel[ch.fd := event])
    case Modify => if ch.fd in s.kernel then s.(kernel := s.kernel[ch.fd := event]) else s.(crashed := true)
    case Delete => s.(kernel := s.kernel - {ch.fd})
  }

  function AfterUpdate(s: Poller, ch: Channel, events: Mask): (s': Poller) {
    var status := Get(s.fields, ch).status;
    var s1 := s.(fields := s.fields[ch := Fields(events, status)]);
    if status == NEW then
      if ch.fd in s.channels then s.(crashed := true)
      else Ctl(s1.(channels := s.channels[ch.fd := ch], fields := s.fields[ch := Fields(events, ADDED)]), Add, ch)
    else if !Registered(s, ch) then s.(crashed := true)
    else if status == DELETED then Ctl(s1.(fields := s.fields[ch := Fields(events, ADDED)]), Add, ch)
    else if status == ADDED then
      if events == 0 then Ctl(s1, Delete, ch).(fields := s.fields[ch := Fields(events, DELETED)])
      else Ctl(s1, Modify, ch)
    else s.(crashed := true)
  }

  function AfterRemove(s: Poller, ch: Channel): (s': Poller) {
    var Fields(events, status) := Get(s.fields, ch);
    if !Registered(s, ch) || events != 0 || !(status == ADDED || status == DELETED) then s.(crashed := true)
    else
      var s1 := s.(channels := s.channels - {ch.fd});
      var s2 := if status == ADDED then Ctl(s1, Delete, ch) else s1;
      s2.(fields := s.fields[ch := Fields(events, NEW)])
  }

  function Apply(s: Poller, op: Op): (s': Poller) {
    if s.crashed then s
    else
      match op
      case Update(ch, events) => AfterUpdate(s, ch, events)
      case Remove(ch) => AfterRemove(s, ch)
  }

  function Run(ops: seq<Op>): (s: Poller) {
    if ops == [] then Empty else Apply(Run(ops[..|ops| - 1]), ops[|ops| - 1])
  }

  predicate Watches(s: Poller, fd: nat, m: Mask) {
    fd in s.kernel && s.kernel[fd].events == m
  }

  // ---------------------------------------------------------------- the invariant

  ghost predicate KnowsOwners(s: Poller, ops: seq<Op>) {
    forall fd: nat ::
      && (fd in s.channels <==> OwnerOf(ops, fd).Owner?)
      && (fd in s.channels ==> s.channels[fd] == OwnerOf(ops, fd).ch)
  }

  /** The three states: not ours, with the kernel, and kept out of the kernel for lack of interest. */
  ghost predicate StatusOf(s: Poller, ops: seq<Op>, ch: Channel) {
    var f := Get(s.fields, ch);
    if !Owns(ops, ch) then f.status == NEW
    else
      && f.events == Interest(ops, ch.fd)
      && (f.status == ADDED || f.status == DELETED)
      && (f.status == ADDED ==> ch.fd in s.kernel && s.kernel[ch.fd] == Event(f.events, ch))
      && (f.status == DELETED ==> ch.fd !in s.kernel && f.events == 0)
  }

  ghost predicate KnowsStatuses(s: Poller, ops: seq<Op>) {
    forall ch :: StatusOf(s, ops, ch)
  }

  ghost predicate NothingElse(s: Poller, ops: seq<Op>) {
    forall fd: nat :: OwnerOf(ops, fd).None? ==> fd !in s.kernel && Interest(ops, fd) == 0
  }

  ghost predicate Inv(s: Poller, ops: seq<Op>) {
    !s.crashed && KnowsOwners(s, ops) && KnowsStatuses(s, ops) && NothingElse(s, ops)
  }

  /** An update ends with the channel registered, and in the kernel unless it lost its interest. */
  lemma UpdateIs(s: Poller, ops: seq<Op>, ch: Channel, events: Mask)
    requires Inv(s, ops) && EpollAllows(ops, Update(ch, events))
    ensures var out := events == 0 && Get(s.fields, ch).status == ADDED;
            AfterUpdate(s, ch, events) ==
            s.(channels := s.channels[ch.fd := ch],
               fields := s.fields[ch := Fields(events, if out then DELETED else ADDED)],
               kernel := if out then s.kernel - {ch.fd} else s.kernel[ch.fd := Event(events, ch)])
  {
    hide Interest, OwnerOf, Seen;
    assert StatusOf(s, ops, ch);
    if Owns(ops, ch) {
      assert s.channels == s.channels[ch.fd := ch];
    }
  }

  lemma UpdateKeepsInv(s: Poller, ops: seq<Op>, ops': seq<Op>, ch: Channel, events: Mask)
    requires Inv(s, ops) && Newer(ops, ops', Update(ch, events)) && EpollAllows(ops, Update(ch, events))
    ensures Inv(AfterUpdate(s, ch, events), ops')
  {
    UpdateIs(s, ops, ch, events);
    var s' := AfterUpdate(s, ch, events);
    hide Interest, OwnerOf, Seen, AfterUpdate;
    assert StatusOf(s, ops, ch);
    assert KnowsOwners(s', ops') && NothingElse(s', ops');
    forall c
      ensures StatusOf(s', ops', c)
    {
      UpdateKeepsStatus(s, ops, ops', ch, events, c);
    }
  }

  lemma UpdateKeepsStatus(s: Poller, ops: seq<Op>, ops': seq<Op>, ch: Channel, events: Mask, c: Channel)
    requires Inv(s, ops) && Newer(ops, ops', Update(ch, events)) && EpollAllows(ops, Update(ch, events))
    ensures StatusOf(AfterUpdate(s, ch, events), ops', c)
  {
    UpdateIs(s, ops, ch, events);
    hide Interest, OwnerOf, Seen, AfterUpdate;
    assert StatusOf(s, ops, c) && StatusOf(s, ops, ch);
  }

  lemma RemoveKeepsInv(s: Poller, ops: seq<Op>, ops': seq<Op>, ch: Channel)
    requires Inv(s, ops) && Newer(ops, ops', Remove(ch)) && EpollAllows(ops, Remove(ch))
    ensures Inv(AfterRemove(s, ch), ops')
  {
    hide Interest, OwnerOf, Seen;
    var s' := AfterRemove(s, ch);
    assert StatusOf(s, ops, ch);
    assert !s'.crashed && KnowsOwners(s', ops') && NothingElse(s', ops');
    forall c
      ensures StatusOf(s', ops', c)
    {
      assert StatusOf(s, ops, c);
    }
  }

  lemma StepFailsIff(s: Poller, ops: seq<Op>, op: Op)
    requires Inv(s, ops)
    ensures Apply(s, op).crashed <==> !EpollAllows(ops, op)
  {
    hide Interest, OwnerOf, Seen;
    assert StatusOf(s, ops, op.ch);
  }

  lemma {:induction false} RunKeepsInv(ops: seq<Op>)
    ensures Run(ops).crashed <==> !EpollOrderly(ops)
    ensures EpollOrderly(ops) ==> Inv(Run(ops), ops)
  {
    hide EpollAllows;
    if ops == [] {
      assert Inv(Empty, []);
    } else {
      var pre, op := ops[..|ops| - 1], ops[|ops| - 1];
      assert ops == pre + [op];
      RunKeepsInv(pre);
      if EpollOrderly(pre) {
        StepFailsIff(Run(pre), pre, op);
        hide Inv, Apply;
        if EpollAllows(pre, op) {
          StepKeepsInv(Run(pre), pre, op);
        }
      }
    }
  }

  lemma InvServes(s: Poller, ops: seq<Op>, fd: nat, m: Mask)
    requires Inv(s, ops) && m != 0
    ensures Watches(s, fd, m) <==> Interest(ops, fd) == m
    ensures fd in s.kernel ==>
              OwnerOf(ops, fd).Owner? && s.kernel[fd].ch == OwnerOf(ops, fd).ch && Registered(s, s.kernel[fd].ch)
  {
    OwnerIsSeen(ops, fd);
    hide Interest, OwnerOf, Seen;
    if OwnerOf(ops, fd).Owner? {
      assert StatusOf(s, ops, OwnerOf(ops, fd).ch);
    }
  }

  lemma WatchesInterest(ops: seq<Op>, fd: nat, m: Mask)
    requires EpollOrderly(ops) && m != 0
    ensures Watches(Run(ops), fd, m) <==> Interest(ops, fd) == m
    ensures Watches(Run(ops), fd, m) ==> OwnerOf(ops, fd).Owner? && Run(ops).kernel[fd].ch == OwnerOf(ops, fd).ch
  {
    hide Inv;
    RunKeepsInv(ops);
    InvServes(Run(ops), ops, fd, m);
  }

  ghost predicate Serves(s: Poller, ops: seq<Op>) {
    forall fd: nat, m: Mask :: m != 0 ==> (Watches(s, fd, m) <==> Interest(ops, fd) == m)
  }

  lemma StepKeepsInv(s: Poller, ops: seq<Op>, op: Op)
    requires Inv(s, ops) && EpollAllows(ops, op)
    ensures Inv(Apply(s, op), ops + [op])
  {
    Newest(ops, op);
    assert !s.crashed;
    hide Newer, Inv, EpollAllows;
    match op
    case Update(ch, events) => UpdateKeepsInv(s, ops, ops + [op], ch, events);
    case Remove(ch) => RemoveKeepsInv(s, ops, ops + [op], ch);
  }

  /** An operation the poller allows, and what it leaves. */
  lemma StepServes(s: Poller, ops: seq<Op>, op: Op)
    requires Inv(s, ops) && EpollAllows(ops, op)
    ensures var s' := Apply(s, op); !s'.crashed && Inv(s', ops + [op]) && Serves(s', ops + [op])
  {
    StepFailsIff(s, ops, op);
    hide Inv, EpollAllows, Apply, Watches, Interest;
    StepKeepsInv(s, ops, op);
    forall fd: nat, m: Mask | m != 0
      ensures Watches(Apply(s, op), fd, m) <==> Interest(ops + [op], fd) == m
    {
      InvServes(Apply(s, op), ops + [op], fd, m);
    }
  }

  lemma ApplyIs(s: Poller, op: Op)
    requires !s.crashed
    ensures Apply(s, op) == if op.Update? then AfterUpdate(s, op.ch, op.events) else AfterRemove(s, op.ch)
  {
  }

  class EpollPoller {
    var channels: map<nat, Channel>
    var fields: map<Channel, Fields>   // of the channels
    var revents: map<Channel, Mask>
    var kernel: map<nat, Event>        // behind `epollfd_`
    ghost var ops: seq<Op>             // the history

    ghost function View(): (s: Poller)
      reads this
    {
      Poller(channels, fields, kernel, false)
    }

    /** Channels, statuses and the kernel's table agree with the history. */
    ghost predicate Valid()
      reads this
    {
      Inv(View(), ops)
    }

    constructor ()
      ensures Valid() && View() == Empty && ops == []
    {
      channels, fields, revents, kernel := map[], map[], map[], map[];
      ops := [];
    }

    method CallCtl(operation: Operation, ch: Channel)
      requires !Ctl(View(), operation, ch).crashed
      modifies this`kernel
      ensures View() == Ctl(old(View()), operation, ch)
    {
      var event := Event(Get(fields, ch).events, ch);
      match operation
      case Delete => kernel := kernel - {ch.fd};
      case _ => kernel := kernel[ch.fd := event];
    }

    /** The kernel is asked for what the history, with this update, asks for. */
    method UpdateChannel(ch: Channel, events: Mask)
      requires Valid() && EpollAllows(ops, Update(ch, events))
      modifies this
      ensures Valid() && ops == old(ops) + [Update(ch, events)] && Serves(View(), ops)
      ensures View() == AfterUpdate(old(View()), ch, events)
    {
      hide Inv, Serves, EpollAllows, Apply, AfterUpdate;
      StepServes(View(), ops, Update(ch, events));
      ApplyIs(View(), Update(ch, events));
      SetInterest(ch, events);
      ops := ops + [Update(ch, events)];
    }

    method SetInterest(ch: Channel, events: Mask)
      requires !AfterUpdate(View(), ch, events).crashed
      modifies this`channels, this`fields, this`kernel
      ensures View() == AfterUpdate(old(View()), ch, events)
    {
      var status := Get(fields, ch).status;
      fields := fields[ch := Fields(events, status)];
      if status == NEW || status == DELETED {
        if status == NEW {
          channels := channels[ch.fd := ch];
        }
        fields := fields[ch := Fields(events, ADDED)];
        CallCtl(Add, ch);
      } else if events == 0 {
        CallCtl(Delete, ch);
        fields := fields[ch := Fields(events, DELETED)];
      } else {
        CallCtl(Modify, ch);
      }
    }

    method RemoveChannel(ch: Channel)
      requires Valid() && EpollAllows(ops, Remove(ch))
      modifies this
      ensures Valid() && ops == old(ops) + [Remove(ch)] && Serves(View(), ops)
      ensures View() == AfterRemove(old(View()), ch)
    {
      StepServes(View(), ops, Remove(ch));
      ApplyIs(View(), Remove(ch));
      hide Inv, Serves, EpollAllows;
      ops := ops + [Remove(ch)];
      var Fields(events, status) := Get(fields, ch);
      channels := channels - {ch.fd};
      if status == ADDED {
        CallCtl(Delete, ch);
      }
      fields := fields[ch := Fields(events, NEW)];
    }

    /** `ready` is from the kernel: some of its descriptors, each once. */
    method FillActiveChannels(ready: seq<Event>) returns (active: seq<Channel>)
      requires Valid()
      requires forall i :: 0 <= i < |ready| ==> ready[i].ch.fd in kernel && kernel[ready[i].ch.fd].ch == ready[i].ch
      requires forall i, j :: 0 <= i < j < |ready| ==> ready[i].ch != ready[j].ch
      modifies this`revents
      ensures |active| == |ready|
      ensures forall i :: 0 <= i < |ready| ==>
                active[i] == ready[i].ch && active[i] in revents && revents[active[i]] == ready[i].events
    {
      hide Inv;
      active := [];
      for i := 0 to |ready|
        invariant |active| == i
        invariant forall j :: 0 <= j < i ==>
                    active[j] == ready[j].ch && active[j] in revents && revents[active[j]] == ready[j].events
      {
        revents := revents[ready[i].ch := ready[i].events];
        active := active + [ready[i].ch];
        InvServes(View(), ops, ready[i].ch.fd, 1);
        assert ready[i].ch.fd in channels && channels[ready[i].ch.fd] == ready[i].ch;
      }
    }
  }
}

/** The two pollers are interchangeable. */
module Pollers {
  import opened Channels
  import PollPollers
  import EpollPollers

  /** In every history without failed assertions the two pollers watch the same descriptors with the
      same masks, as far as those are not empty. */
  lemma SameDescriptorsWatched(ops: seq<Op>, fd: nat, m: Mask)
    requires !PollPollers.Run(ops).crashed && m != 0
    ensures !EpollPollers.Run(ops).crashed
    ensures PollPollers.Watches(PollPollers.Run(ops), fd, m) <==> EpollPollers.Watches(EpollPollers.Run(ops), fd, m)
    ensures PollPollers.Watches(PollPollers.Run(ops), fd, m) <==> Interest(ops, fd) == m
  {
    PollPollers.RunKeepsInv(ops);
    PollDemandsMore(ops);
    EpollPollers.RunKeepsInv(ops);
    PollPollers.WatchesInterest(ops, fd, m);
    EpollPollers.WatchesInterest(ops, fd, m);
  }
}
