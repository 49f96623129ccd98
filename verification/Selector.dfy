/** What callers may rely on of any selector: the contract of the abstract class RSelector. */
module SelectorSpec {
  import opened Totals

  /**
   The descriptors registered, those the last wait found ready and next has yet to return, those next
   has returned since, and the one a call of remove_current_ready would remove.
   */
  datatype Sel = Sel(registered: set<int>, pending: set<int>, reported: seq<int>, last: Option<int>)

  const NEW_SEL := Sel({}, {}, [], None)

  predicate AddFd(s: Sel, t: Sel, fd: int, ok: bool) {
    t == s.(registered := if ok then s.registered + {fd} else s.registered)
  }

  predicate Wait(s: Sel, t: Sel, ok: bool) {
    t.registered == s.registered && t.pending <= t.registered && (ok ==> t.reported == [] && t.last == None)
  }

  /** next returns a ready descriptor that it has not returned since the wait; nothing only if none is left. */
  predicate Next(s: Sel, t: Sel, r: Option<int>) {
    match r
    case Some(fd) =>
      && fd in s.pending && fd in s.registered && fd !in s.reported
      && t == Sel(s.registered, s.pending - {fd}, s.reported + [fd], Some(fd))
    case None => s.pending == {} && t == s.(last := None)
  }

  predicate Remove(s: Sel, t: Sel) {
    s.last.Some? && t == s.(registered := s.registered - {s.last.value}, last := None)
  }

  /** The calls made between two registrations. */
  datatype Op = WaitOp(ok: bool) | NextOp(r: Option<int>) | RemoveOp

  predicate OpStep(s: Sel, t: Sel, op: Op) {
    match op
    case WaitOp(ok) => Wait(s, t, ok)
    case NextOp(r) => Next(s, t, r)
    case RemoveOp => Remove(s, t)
  }

  ghost predicate Trace(ss: seq<Sel>, ops: seq<Op>) {
    |ss| == |ops| + 1 && forall i :: 0 <= i < |ops| ==> OpStep(ss[i], ss[i + 1], ops[i])
  }

  /** What next returned during the given calls. */
  function Returned(ops: seq<Op>): (r: seq<int>) {
    if ops == [] then []
    else if ops[|ops| - 1].NextOp? && ops[|ops| - 1].r.Some? then Returned(ops[..|ops| - 1]) + [ops[|ops| - 1].r.value]
    else Returned(ops[..|ops| - 1])
  }

  function Elements(s: seq<int>): (r: set<int>) { set x <- s }

  /**
   Between two waits next returns distinct descriptors, all registered when the wait returned: those that were
   ready, as far as it has got; once it has nothing more to return, exactly those.
   */
  lemma {:induction false} EachOncePerWait(ss: seq<Sel>, ops: seq<Op>)
    requires Trace(ss, ops) && ss[0].reported == [] && forall op <- ops :: !op.WaitOp?
    ensures Returned(ops) == ss[|ops|].reported && Distinct(Returned(ops))
    ensures Elements(Returned(ops)) + ss[|ops|].pending == ss[0].pending && Elements(Returned(ops)) !! ss[|ops|].pending
    ensures ss[|ops|].registered <= ss[0].registered && forall fd <- Returned(ops) :: fd in ss[0].registered
    ensures ops != [] && ops[|ops| - 1] == NextOp(None) ==> Elements(Returned(ops)) == ss[0].pending
  {
    if ops != [] {
      var n := |ops| - 1;
      assert forall op <- ops[..n] :: op in ops;
      EachOncePerWait(ss[..|ops|], ops[..n]);
      assert ops[n] in ops && OpStep(ss[n], ss[n + 1], ops[n]);
      OneMoreReturned(Returned(ops[..n]), ops[n]);
    }
  }

  lemma NoElements()
    ensures Elements([]) == {}
  {
  }

  lemma AppendElements(s: seq<int>, x: int)
    ensures Elements(s + [x]) == Elements(s) + {x}
  {
    assert forall y :: y in s + [x] <==> y in s || y == x;
  }

  lemma OneMoreReturned(s: seq<int>, op: Op)
    ensures op.NextOp? && op.r.Some? ==> Elements(s + [op.r.value]) == Elements(s) + {op.r.value}
  {
    if op.NextOp? && op.r.Some? {
      AppendElements(s, op.r.value);
    }
  }

  /** A descriptor that is not registered, such as a removed one, is never returned again. */
  lemma {:induction false} RemovedNeverReappears(ss: seq<Sel>, ops: seq<Op>, fd: int)
    requires Trace(ss, ops) && fd !in ss[0].registered
    ensures fd !in ss[|ops|].registered && fd !in Returned(ops)
  {
    if ops != [] {
      var n := |ops| - 1;
      RemovedNeverReappears(ss[..|ops|], ops[..n], fd);
      assert OpStep(ss[n], ss[n + 1], ops[n]);
    }
  }
}

/** PollRSelector of client.cpp: an array of pollfd with two cursors. */
module PollSelector {
  import opened Totals
  import opened Kernel
  import SelectorSpec

  datatype PollFd = PollFd(fd: int, revents: Flags)

  class PollRSelector {
    const poller: Poller
    var fds: seq<PollFd>
    var currentFree: nat
    var currentReady: nat
    ghost var reported: seq<int>
    ghost var last: Option<int>
    ghost var refused: nat  // how often add_fd found no free slot

    /** Used entries hold distinct descriptors or -1; unused ones have no events. */
    ghost predicate Valid()
      reads this
    {
      && currentFree <= |fds| && currentReady <= |fds|
      && (forall i :: currentFree <= i < |fds| ==> fds[i].revents.Zero())
      && (forall i, j :: 0 <= i < j < currentFree && fds[i].fd != -1 ==> fds[i].fd != fds[j].fd)
      && (forall i :: currentReady <= i < currentFree && fds[i].fd != -1 && !fds[i].revents.Zero() ==>
        fds[i].fd !in reported)
      && (last.Some? ==> 1 <= currentReady <= currentFree && fds[currentReady - 1].fd == last.value != -1)
    }

    ghost function Abs(): SelectorSpec.Sel
      requires Valid()
      reads this
    {
      SelectorSpec.Sel(Used(fds[..currentFree]), ReadyFrom(fds, currentReady), reported, last)
    }

    /** The events poll found and next has yet to return, in the order of the array. */
    ghost function Pending(): seq<Event>
      requires Valid()
      reads this
    {
      EventsFrom(fds, currentReady)
    }

    /** The descriptors handed to poll, -1 for those removed. */
    ghost function Descriptors(): seq<int>
      requires currentFree <= |fds|
      reads this
    {
      FdsOfEntries(fds[..currentFree])
    }

    /** The objects this selector may write to. */
    ghost function Repr(): set<object> { {this, poller} }

    ghost function Failures(): nat reads this, poller { refused + poller.failures }

    constructor (fdCount: nat)
      ensures Valid() && fresh(Repr()) && Abs() == SelectorSpec.NEW_SEL && Capacity() == fdCount
      ensures Failures() == 0 && Pending() == []
    {
      poller := new Poller();
      fds := seq(fdCount, _ => PollFd(0, NO_FLAGS));
      currentFree, currentReady := 0, 0;
      reported, last, refused := [], None, 0;
      new;
      NoEvents(fds, 0);
    }

    ghost function Capacity(): nat reads this { |fds| }

    /** All descriptors poll has found events for. */
    ghost function WithEvents(): set<int> reads this { ReadyFrom(fds, 0) }

    /** The slots still free. Entries are never reused, so a removal frees nothing. */
    ghost function Free(): int reads this { |fds| - currentFree }

    method AddFd(sockfd: int) returns (ok: bool)
      requires Valid() && sockfd >= 0 && sockfd !in Abs().registered
      modifies this
      ensures Valid() && SelectorSpec.AddFd(old(Abs()), Abs(), sockfd, ok)
      ensures ok <==> old(Free()) > 0
      ensures Capacity() == old(Capacity()) && Free() == old(Free()) - (if ok then 1 else 0)
      ensures Failures() == old(Failures()) + (if ok then 0 else 1) && Pending() == old(Pending())
    {
      if currentFree == |fds| {
        refused := refused + 1;
        return false;
      }
      ghost var was := fds[..currentFree];
      fds := fds[currentFree := fds[currentFree].(fd := sockfd)];
      currentFree := currentFree + 1;
      assert fds[..currentFree] == was + [fds[currentFree - 1]];
      UsedAppend(was, fds[currentFree - 1]);
      NewEntryIsNotReady(old(fds), fds, currentFree - 1, currentReady);
      NewEntryHasNoEvent(old(fds), fds, currentFree - 1, currentReady);
      ok := true;
    }

    /** poll with no time limit: unless it fails, what is pending is what it has found. */
    method Wait() returns (ok: bool)
      requires Valid()
      modifies this, poller
      ensures Valid() && SelectorSpec.Wait(old(Abs()), Abs(), ok)
      ensures ok ==> Abs().pending == WithEvents()
      ensures Capacity() == old(Capacity()) && Free() == old(Free()) && Descriptors() == old(Descriptors())
      ensures |poller.answers| == old(|poller.answers|) + 1
      ensures match poller.answers[old(|poller.answers|)]
        case None => !ok && Pending() == old(Pending())
        case Some(revents) => (
          ok && |revents| == |Descriptors()| && Pending() == Reports(Descriptors(), revents))
      ensures FoundInAll(poller.answers) == old(FoundInAll(poller.answers)) + (if ok then |Pending()| else 0)
      ensures Failures() == old(Failures()) + (if ok then 0 else 1)
    {
      var revents := poller.Poll(FdsOfEntries(fds[..currentFree]));
      FoundMore(old(poller.answers), revents);
      ReadyIsUsed(fds, currentReady, currentFree);
      if revents.None? {
        return false;
      }
      var was := fds;
      fds := Filled(fds, revents.value);
      SameFdsSameUsed(fds[..currentFree], was[..currentFree]);
      currentReady := 0;
      reported, last := [], None;
      ReadyIsUsed(fds, currentReady, currentFree);
      EventsAreReports(fds, revents.value, 0);
      ReportsFound(Descriptors(), revents.value);
      ok := true;
    }

    method Next() returns (r: Option<Event>)
      requires Valid()
      modifies this
      ensures Valid() && SelectorSpec.Next(old(Abs()), Abs(), if r.Some? then Some(r.value.fd) else None)
      ensures r.Some? ==> !r.value.flags.Zero() && old(Pending()) == [r.value] + Pending()
      ensures r.None? ==> old(Pending()) == [] == Pending()
      ensures Capacity() == old(Capacity()) && Free() == old(Free()) && Failures() == old(Failures())
    {
      hide EventsFrom, ReadyFrom;
      EventsEnd(fds);
      while currentReady != |fds|
        invariant currentReady <= |fds| && fds == old(fds) && currentFree == old(currentFree)
        invariant old(currentReady) <= currentReady && reported == old(reported) && refused == old(refused)
        invariant ReadyFrom(fds, currentReady) == old(ReadyFrom(fds, currentReady))
        invariant EventsFrom(fds, currentReady) == old(EventsFrom(fds, currentReady))
        invariant forall i :: currentReady <= i < currentFree && fds[i].fd != -1 && !fds[i].revents.Zero() ==>
          fds[i].fd !in reported
        decreases |fds| - currentReady
      {
        var p := fds[currentReady];
        ReadyStep(fds, currentReady, currentFree);
        EventsStep(fds, currentReady);
        if p.revents.Zero() || p.fd == -1 {
          currentReady := currentReady + 1;
          continue;
        }
        currentReady := currentReady + 1;
        assert fds[..currentFree][currentReady - 1] == p;
        reported, last := reported + [p.fd], Some(p.fd);
        return Some(Event(p.fd, p.revents));
      }
      last := None;
      return None;
    }

    method RemoveCurrentReady()
      requires Valid() && Abs().last.Some?
      modifies this
      ensures Valid() && SelectorSpec.Remove(old(Abs()), Abs())
      ensures Capacity() == old(Capacity()) && Free() == old(Free()) && Failures() == old(Failures())
      ensures Pending() == old(Pending())
    {
      UsedRemove(fds[..currentFree], currentReady - 1);
      SameTailSameReady(fds, fds[currentReady - 1 := fds[currentReady - 1].(fd := -1)], currentReady);
      SameTailSameEvents(fds, fds[currentReady - 1 := fds[currentReady - 1].(fd := -1)], currentReady);
      assert fds[..currentFree][currentReady - 1 := fds[currentReady - 1].(fd := -1)]
          == fds[currentReady - 1 := fds[currentReady - 1].(fd := -1)][..currentFree];
      fds := fds[currentReady - 1 := fds[currentReady - 1].(fd := -1)];
      last := None;
    }
  }

  /** The descriptors in use. */
  ghost function Used(s: seq<PollFd>): set<int> {
    set i | 0 <= i < |s| && s[i].fd != -1 :: s[i].fd
  }

  /** The descriptors from position i on that have events. */
  ghost function ReadyFrom(s: seq<PollFd>, i: nat): set<int>
    requires i <= |s|
  {
    set k | i <= k < |s| && !s[k].revents.Zero() && s[k].fd != -1 :: s[k].fd
  }

  function FdsOfEntries(s: seq<PollFd>): (r: seq<int>)
    ensures |r| == |s| && forall i :: 0 <= i < |r| ==> r[i] == s[i].fd
  {
    seq(|s|, i requires 0 <= i < |s| => s[i].fd)
  }

  /** The array with the answer of poll written into its first entries. */
  function Filled(s: seq<PollFd>, revents: seq<Flags>): (r: seq<PollFd>)
    requires |revents| <= |s|
    ensures |r| == |s|
    ensures forall i :: 0 <= i < |s| ==> r[i] == if i < |revents| then s[i].(revents := revents[i]) else s[i]
  {
    seq(|s|, i requires 0 <= i < |s| => if i < |revents| then s[i].(revents := revents[i]) else s[i])
  }

  /** The events from position i on, in order. */
  ghost function EventsFrom(s: seq<PollFd>, i: nat): seq<Event>
    requires i <= |s|
    decreases |s| - i
  {
    if i == |s| then []
    else if s[i].revents.Zero() || s[i].fd == -1 then EventsFrom(s, i + 1)
    else [Event(s[i].fd, s[i].revents)] + EventsFrom(s, i + 1)
  }

  /** What poll reports of the given descriptors. */
  ghost function Reports(fds: seq<int>, revents: seq<Flags>): seq<Event>
    requires |fds| == |revents|
  {
    if fds == [] then []
    else (if revents[0].Zero() then [] else [Event(fds[0], revents[0])]) + Reports(fds[1..], revents[1..])
  }

  lemma {:induction false} ReportsFound(fds: seq<int>, revents: seq<Flags>)
    requires |fds| == |revents|
    ensures |Reports(fds, revents)| == Found(revents)
  {
    if fds != [] {
      ReportsFound(fds[1..], revents[1..]);
    }
  }

  lemma FoundMore(answers: seq<Option<seq<Flags>>>, revents: Option<seq<Flags>>)
    ensures FoundInAll(answers + [revents]) ==
      FoundInAll(answers) + (if revents.None? then 0 else Found(revents.value))
  {
    assert (answers + [revents])[..|answers|] == answers;
  }

  lemma EventsEnd(s: seq<PollFd>)
    ensures EventsFrom(s, |s|) == [] && ReadyFrom(s, |s|) == {}
  {
  }

  lemma EventsStep(s: seq<PollFd>, i: nat)
    requires i < |s|
    ensures EventsFrom(s, i) ==
      if s[i].revents.Zero() || s[i].fd == -1 then EventsFrom(s, i + 1)
      else [Event(s[i].fd, s[i].revents)] + EventsFrom(s, i + 1)
  {
  }

  lemma {:induction false} NoEvents(s: seq<PollFd>, i: nat)
    requires i <= |s| && forall k :: i <= k < |s| ==> s[k].revents.Zero()
    ensures EventsFrom(s, i) == []
    decreases |s| - i
  {
    if i < |s| {
      NoEvents(s, i + 1);
    }
  }

  lemma {:induction false} EventsAreReports(s: seq<PollFd>, revents: seq<Flags>, i: nat)
    requires i <= |revents| <= |s| && (forall k :: |revents| <= k < |s| ==> s[k].revents.Zero())
    requires forall k :: 0 <= k < |revents| ==>
      s[k].revents == revents[k] && (s[k].fd == -1 ==> revents[k].Zero())
    ensures EventsFrom(s, i) == Reports(FdsOfEntries(s[..|revents|])[i..], revents[i..])
    decreases |revents| - i
  {
    if i == |revents| {
      NoEvents(s, i);
    } else {
      EventsAreReports(s, revents, i + 1);
      var fds := FdsOfEntries(s[..|revents|]);
      assert fds[i..][0] == s[i].fd && fds[i..][1..] == fds[i + 1..] && revents[i..][1..] == revents[i + 1..];
    }
  }

  lemma {:induction false} SameTailSameEvents(s: seq<PollFd>, t: seq<PollFd>, i: nat)
    requires |s| == |t| && i <= |s| && forall k :: i <= k < |s| ==> s[k] == t[k]
    ensures EventsFrom(s, i) == EventsFrom(t, i)
    decreases |s| - i
  {
    if i < |s| {
      SameTailSameEvents(s, t, i + 1);
    }
  }

  lemma {:induction false} NewEntryHasNoEvent(s: seq<PollFd>, t: seq<PollFd>, k: nat, i: nat)
    requires k < |s| == |t| && i <= |s| && s[k].revents.Zero() && t == s[k := s[k].(fd := t[k].fd)]
    ensures EventsFrom(s, i) == EventsFrom(t, i)
    decreases |s| - i
  {
    if i < |s| {
      NewEntryHasNoEvent(s, t, k, i + 1);
    }
  }

  lemma ReadyStep(s: seq<PollFd>, i: nat, used: nat)
    requires i < |s| && used <= |s| && (forall k :: used <= k < |s| ==> s[k].revents.Zero())
    requires forall j, k :: 0 <= j < k < used && s[j].fd != -1 ==> s[j].fd != s[k].fd
    ensures if s[i].revents.Zero() || s[i].fd == -1 then ReadyFrom(s, i) == ReadyFrom(s, i + 1)
      else ReadyFrom(s, i) == {s[i].fd} + ReadyFrom(s, i + 1) && s[i].fd !in ReadyFrom(s, i + 1)
  {
    forall x | x in ReadyFrom(s, i) && x != s[i].fd ensures x in ReadyFrom(s, i + 1) {
      var k :| i <= k < |s| && !s[k].revents.Zero() && s[k].fd != -1 && s[k].fd == x;
    }
  }

  lemma NewEntryIsNotReady(s: seq<PollFd>, t: seq<PollFd>, k: nat, i: nat)
    requires k < |s| == |t| && i <= |s| && s[k].revents.Zero() && t == s[k := s[k].(fd := t[k].fd)]
    ensures ReadyFrom(s, i) == ReadyFrom(t, i)
  {
    forall x | x in ReadyFrom(s, i) ensures x in ReadyFrom(t, i) {
      var j :| i <= j < |s| && !s[j].revents.Zero() && s[j].fd != -1 && s[j].fd == x;
      assert t[j] == s[j];
    }
  }

  lemma SameTailSameReady(s: seq<PollFd>, t: seq<PollFd>, i: nat)
    requires |s| == |t| && i <= |s| && forall k :: i <= k < |s| ==> s[k] == t[k]
    ensures ReadyFrom(s, i) == ReadyFrom(t, i)
  {
  }

  lemma ReadyIsUsed(s: seq<PollFd>, i: nat, used: nat)
    requires i <= |s| && used <= |s| && forall k :: used <= k < |s| ==> s[k].revents.Zero()
    ensures ReadyFrom(s, i) <= Used(s[..used])
  {
    forall x | x in ReadyFrom(s, i) ensures x in Used(s[..used]) {
      var k :| i <= k < |s| && !s[k].revents.Zero() && s[k].fd != -1 && s[k].fd == x;
      assert s[..used][k].fd == x;
    }
  }

  lemma UsedAppend(s: seq<PollFd>, p: PollFd)
    requires p.fd != -1
    ensures Used(s + [p]) == Used(s) + {p.fd}
  {
    assert (s + [p])[|s|] == p;
    forall x | x in Used(s) ensures x in Used(s + [p]) {
      var i :| 0 <= i < |s| && s[i].fd != -1 && s[i].fd == x;
      assert (s + [p])[i].fd == x;
    }
  }

  lemma SameFdsSameUsed(s: seq<PollFd>, t: seq<PollFd>)
    requires |s| == |t| && forall i :: 0 <= i < |s| ==> s[i].fd == t[i].fd
    ensures Used(s) == Used(t)
  {
  }

  lemma UsedRemove(s: seq<PollFd>, i: nat)
    requires i < |s| && s[i].fd != -1
    requires forall j, k :: 0 <= j < k < |s| && s[j].fd != -1 ==> s[j].fd != s[k].fd
    ensures Used(s[i := s[i].(fd := -1)]) == Used(s) - {s[i].fd}
  {
    var t := s[i := s[i].(fd := -1)];
    forall x | x in Used(s) && x != s[i].fd ensures x in Used(t) {
      var j :| 0 <= j < |s| && s[j].fd != -1 && s[j].fd == x;
      assert t[j].fd == x;
    }
    forall x | x in Used(t) ensures x in Used(s) && x != s[i].fd {
      var j :| 0 <= j < |t| && t[j].fd != -1 && t[j].fd == x;
      assert s[j].fd == x;
    }
  }
}

/** EPollRSelector of common.h and common.cpp. */
module EPollSelector {
  import opened Totals
  import opened Kernel
  import opened EpollWait
  import SelectorSpec

  lemma SliceHead(events: seq<Event>, i: nat, j: nat)
    requires i < j <= |events|
    ensures events[i..j] == [events[i]] + events[i + 1..j]
  {
  }

  /** The rest of distinct events is distinct from the first. */
  lemma DistinctTail(s: seq<Event>, e: Event, t: seq<Event>)
    requires s == [e] + t && DistinctFds(s)
    ensures DistinctFds(t) && forall x <- t :: x in s && x.fd != e.fd
  {
    forall k | 0 <= k < |t| ensures t[k] == s[k + 1] && t[k].fd != e.fd {
      assert s[0] == e && s[k + 1] == t[k];
    }
    forall a, b | 0 <= a < b < |t| ensures t[a].fd != t[b].fd {
      assert s[a + 1] == t[a] && s[b + 1] == t[b];
    }
  }

  lemma FirstEvent(events: seq<Event>, i: nat, j: nat)
    requires i < j <= |events| && DistinctFds(events[i..j])
    ensures events[i..j] == [events[i]] + events[i + 1..j] && DistinctFds(events[i + 1..j])
    ensures forall e <- events[i + 1..j] :: e in events[i..j] && e.fd != events[i].fd
  {
    hide DistinctFds;
    SliceHead(events, i, j);
    DistinctTail(events[i..j], events[i], events[i + 1..j]);
  }

  class EPollRSelector {
    const epoll: Epoll
    const events: EventsList
    var currentReady: nat
    var endOfReady: nat
    ghost var reported: seq<int>
    ghost var last: Option<int>

    /** The events not yet returned by next. */
    ghost function Pending(): seq<Event>
      requires currentReady <= endOfReady <= |events.events|
      reads this, events
    {
      events.events[currentReady..endOfReady]
    }

    ghost predicate Valid()
      reads this, events, epoll
    {
      && |events.events| > 0 && currentReady <= endOfReady <= |events.events|
      && DistinctFds(Pending())
      && (forall e <- Pending() :: e.fd in epoll.interest && e.fd !in reported && !e.flags.Zero())
      && (last.Some? ==> currentReady >= 1 && events.events[currentReady - 1].fd == last.value
                         && last.value in epoll.interest && last.value in reported)
    }

    ghost function Abs(): SelectorSpec.Sel
      requires Valid()
      reads this, events, epoll
    {
      SelectorSpec.Sel(epoll.interest, FdsOf(Pending()), reported, last)
    }

    /** The descriptors this selector may write to: itself, its event array, its epoll instance. */
    ghost function Repr(): set<object> { {this, events, epoll} }

    constructor (sockCount: nat, intact: bool)
      requires sockCount > 0
      ensures Valid() && fresh(Repr())
      ensures Abs() == SelectorSpec.NEW_SEL && Pending() == []
      ensures epoll.intact == intact && epoll.quiet == {} && epoll.calls == [] && |events.events| == sockCount
      ensures epoll.failures == 0
    {
      epoll := new Epoll(intact);
      events := new EventsList(sockCount);
      currentReady, endOfReady := 0, 0;
      reported, last := [], None;
    }

    method AddFd(sockfd: int) returns (ok: bool)
      requires Valid()
      modifies epoll`interest, epoll`failures
      ensures Valid() && SelectorSpec.AddFd(old(Abs()), Abs(), sockfd, ok)
      ensures ok ==> sockfd !in old(Abs().registered)
      ensures epoll.failures == old(epoll.failures) + (if ok then 0 else 1) && Pending() == old(Pending())
    {
      ok := epoll.Add(sockfd);
    }

    method Wait(clock: Clock, timeoutNs: int) returns (ok: bool, ghost made: seq<Call>)
      requires Valid()
      modifies this, events, epoll`quiet, epoll`signals, epoll`calls, epoll`failures, clock
      ensures Valid() && SelectorSpec.Wait(old(Abs()), Abs(), ok)
      ensures epoll.failures == old(epoll.failures) + (if ok then 0 else 1)
      ensures |events.events| == old(|events.events|) && old(clock.now) <= clock.now
      ensures WaitCalls(made, timeoutNs) && made != [] && old(clock.now) <= made[0].at <= clock.now
      ensures epoll.calls == old(epoll.calls) + made
      ensures EventCount(epoll.calls) == old(EventCount(epoll.calls)) + (if ok then |Pending()| else 0)
      ensures ok <==> !made[|made| - 1].outcome.Failed?
      ensures ok ==> Pending() == AnswerOf(made[|made| - 1]) && (Pending() != [] <==> made[|made| - 1].outcome.Ready?)
      ensures ok ==> epoll.quiet == old(epoll.quiet) + FdsOf(Pending())
      ensures ok && epoll.intact ==> forall e <- Pending() :: e.fd !in old(epoll.quiet)
      ensures ok && Pending() == [] ==> timeoutNs != -1 && made[0].at + timeoutNs <= clock.now
      ensures !ok ==> epoll.quiet == old(epoll.quiet)
    {
      hide EventCount, Requests;
      ok, made := EpollWaitEx(epoll, clock, events, timeoutNs);
      EventsOfWait(old(epoll.calls), made);
      if ok {
        currentReady, endOfReady := 0, events.numReady;
        reported, last := [], None;
      }
    }

    method Next() returns (r: Option<Event>)
      requires Valid()
      modifies this
      ensures Valid() && SelectorSpec.Next(old(Abs()), Abs(), if r.Some? then Some(r.value.fd) else None)
      ensures r.Some? ==> !r.value.flags.Zero() && old(Pending()) == [r.value] + Pending()
      ensures r.None? ==> old(Pending()) == [] == Pending()
    {
      if endOfReady == currentReady {
        last := None;
        return None;
      }
      var e := events.events[currentReady];
      FirstEvent(events.events, currentReady, endOfReady);
      assert e in Pending();
      currentReady := currentReady + 1;
      reported, last := reported + [e.fd], Some(e.fd);
      r := Some(e);
    }

    method RemoveCurrentReady()
      requires Valid() && Abs().last.Some?
      modifies this, epoll`interest
      ensures Valid() && SelectorSpec.Remove(old(Abs()), Abs()) && Pending() == old(Pending())
    {
      epoll.Delete(events.events[currentReady - 1].fd);
      last := None;
    }

    method ReadyCount() returns (n: nat)
      requires Valid()
      ensures n == |Pending()|
    {
      n := endOfReady - currentReady;
    }
  }
}

/** The client's event loop, over either implementation of RSelector. */
module ClientLoop {
  import opened Totals
  import opened Kernel
  import opened EpollWait
  import opened SelectorSpec
  import opened PollSelector
  import opened EPollSelector

  /** RSelector, with its two implementations. */
  datatype Selector = Polling(p: PollRSelector) | EPolling(e: EPollRSelector, clock: Clock) {

    ghost function Repr(): set<object> {
      match this
      case Polling(p) => p.Repr()
      case EPolling(e, clock) => e.Repr() + {clock}
    }

    ghost predicate Valid()
      reads Repr()
    {
      match this
      case Polling(p) => p.Valid()
      case EPolling(e, _) => e.Valid()
    }

    ghost function Abs(): Sel
      requires Valid()
      reads Repr()
    {
      match this
      case Polling(p) => p.Abs()
      case EPolling(e, _) => e.Abs()
    }

    /** The events next has yet to return. */
    ghost function Pending(): seq<Event>
      requires Valid()
      reads Repr()
    {
      match this
      case Polling(p) => p.Pending()
      case EPolling(e, _) => e.Pending()
    }

    /** How many calls of add_fd and wait have failed. */
    ghost function Failures(): nat
      reads Repr()
    {
      match this
      case Polling(p) => p.Failures()
      case EPolling(e, _) => e.epoll.failures
    }

    /** How many events the kernel has reported to this selector. */
    ghost function Reported(): nat
      reads Repr()
    {
      match this
      case Polling(p) => FoundInAll(p.poller.answers)
      case EPolling(e, _) => EventCount(e.epoll.calls)
    }

    method AddFd(sockfd: int) returns (ok: bool)
      requires Valid() && sockfd >= 0 && sockfd !in Abs().registered
      modifies Repr()
      ensures Valid() && SelectorSpec.AddFd(old(Abs()), Abs(), sockfd, ok)
      ensures Failures() == old(Failures()) + (if ok then 0 else 1) && Reported() == old(Reported())
    {
      match this
      case Polling(p) => ok := p.AddFd(sockfd);
      case EPolling(e, _) => ok := e.AddFd(sockfd);
    }

    method Wait() returns (ok: bool)
      requires Valid()
      modifies Repr()
      ensures Valid() && SelectorSpec.Wait(old(Abs()), Abs(), ok)
      ensures Failures() == old(Failures()) + (if ok then 0 else 1)
      ensures Reported() == old(Reported()) + (if ok then |Pending()| else 0)
      ensures ok ==> match this
        case Polling(p) =>
          && |p.poller.answers| > 0 && p.poller.answers[|p.poller.answers| - 1].Some?
          && var revents := p.poller.answers[|p.poller.answers| - 1].value;
             |revents| == |p.Descriptors()| && Pending() == Reports(p.Descriptors(), revents)
        case EPolling(e, _) =>
          |e.epoll.calls| > 0 && Pending() == AnswerOf(e.epoll.calls[|e.epoll.calls| - 1])
    {
      match this
      case Polling(p) => ok := p.Wait();
      case EPolling(e, clock) => ghost var made; ok, made := e.Wait(clock, -1);
    }

    method Next() returns (r: Option<Event>)
      requires Valid()
      modifies Repr()
      ensures Valid() && SelectorSpec.Next(old(Abs()), Abs(), if r.Some? then Some(r.value.fd) else None)
      ensures r.Some? ==> !r.value.flags.Zero() && old(Pending()) == [r.value] + Pending()
      ensures r.None? ==> old(Pending()) == [] == Pending()
      ensures Failures() == old(Failures()) && Reported() == old(Reported())
    {
      match this
      case Polling(p) => r := p.Next();
      case EPolling(e, _) => r := e.Next();
    }

    method RemoveCurrentReady()
      requires Valid() && Abs().last.Some?
      modifies Repr()
      ensures Valid() && SelectorSpec.Remove(old(Abs()), Abs()) && Pending() == old(Pending())
      ensures Failures() == old(Failures()) && Reported() == old(Reported())
    {
      match this
      case Polling(p) => p.RemoveCurrentReady();
      case EPolling(e, _) => e.RemoveCurrentReady();
    }
  }

  datatype Status = Running | Finished | Failed

  /** What wait_for_conn gives back. A failed bind returns 1, which its callers read as true. */
  datatype Accepted = Accepted(ok: bool, sockets: seq<int>, bindFailed: bool)

  /** The calls of wait_for_conn that end in the given sockets: socket, bind, and one accept for each. */
  function ListenCalls(sockets: seq<int>): seq<Answer> {
    if sockets == [] then [Answer(Create, -1, true), Answer(Bind(0), -1, true)]
    else ListenCalls(sockets[..|sockets| - 1]) + [Answer(Accept, sockets[|sockets| - 1], true)]
  }

  method WaitForConn(sockCount: int, net: Sockets) returns (a: Accepted)
    modifies net
    ensures a.bindFailed ==> a.ok && a.sockets == []
    ensures a.ok && !a.bindFailed ==> |a.sockets| == if sockCount > 0 then sockCount else 0
    ensures Distinct(a.sockets) && forall fd <- a.sockets :: fd >= 0
    ensures a.bindFailed ==>
      net.answers == old(net.answers) + [Answer(Create, -1, true), Answer(Bind(0), -1, false)]
    ensures a.ok && !a.bindFailed ==> net.answers == old(net.answers) + ListenCalls(a.sockets)
    ensures !a.ok ==>
      && |net.answers| > old(|net.answers|)
      && !net.answers[|net.answers| - 1].ok && !net.answers[|net.answers| - 1].deed.Bind?
  {
    var created := net.Try(Create, -1);
    if !created {
      return Accepted(false, [], false);
    }
    var bound := net.Try(Bind(0), -1);
    if !bound {
      return Accepted(true, [], true);
    }
    var sockets := [];
    var i := 0;
    while i < sockCount
      invariant i == |sockets| && i <= (if sockCount > 0 then sockCount else 0)
      invariant Distinct(sockets) && forall fd <- sockets :: fd >= 0
      invariant net.answers == old(net.answers) + ListenCalls(sockets)
    {
      var fd := net.NewFd(Accept, sockets);
      if fd < 0 {
        return Accepted(false, sockets, false);
      }
      assert (sockets + [fd])[..|sockets|] == sockets;
      sockets := sockets + [fd];
      i := i + 1;
    }
    a := Accepted(true, sockets, false);
  }

  /** process_message: whether a whole message was received and echoed. */
  method ProcessMessage(sockfd: int, net: Sockets) returns (ok: bool, ghost echo: Echo)
    modifies net
    ensures net.answers == old(net.answers) + EchoCalls(sockfd, echo) && (ok <==> echo.Echoed?)
  {
    var received := net.Try(Receive, sockfd);
    if !received {
      return false, NothingReceived;
    }
    ok := net.Try(Send, sockfd);
    echo := if ok then Echoed else NothingWritten;
  }

  /** Hang-up, error and invalid come first; then a message is taken. */
  predicate TakesMessage(e: Event) { !e.flags.hup && !e.flags.err && !e.flags.nval && e.flags.input }

  /** One event and, if a message was taken, how its echo ended. */
  datatype Handling = Handling(e: Event, echo: Option<Echo>) {
    predicate Valid() { echo.Some? <==> TakesMessage(e) }

    /** The socket is closed for a hang-up, an error, an unknown event, or a message that was not echoed. */
    predicate Closes() { if echo.Some? then !echo.value.Echoed? else !e.flags.Zero() }

    function Calls(): seq<Answer> { if echo.Some? then EchoCalls(e.fd, echo.value) else [] }
  }

  /** Whether the branches on the event bits close the socket. */
  method MustClose(e: Event, net: Sockets) returns (closeSock: bool, ghost h: Handling)
    modifies net
    ensures h.e == e && h.Valid() && net.answers == old(net.answers) + h.Calls()
    ensures closeSock <==> h.Closes()
  {
    closeSock := false;
    h := Handling(e, None);
    if e.flags.hup || e.flags.err {
      closeSock := true;
    } else if e.flags.nval {
      closeSock := true;
    } else if e.flags.input {
      ghost var echo;
      var ok;
      ok, echo := ProcessMessage(e.fd, net);
      h := Handling(e, Some(echo));
      closeSock := !ok;
    } else if !e.flags.Zero() {
      closeSock := true;
    }
  }

  /** The events handled, in order. */
  function EventsOf(hs: seq<Handling>): (r: seq<Event>)
    ensures |r| == |hs| && forall i :: 0 <= i < |r| ==> r[i] == hs[i].e
  {
    seq(|hs|, i requires 0 <= i < |hs| => hs[i].e)
  }

  /** The descriptors closed. */
  function ClosedOf(hs: seq<Handling>): (r: set<int>) { set h <- hs | h.Closes() :: h.e.fd }

  /** The calls made for them. */
  function CallsOf(hs: seq<Handling>): seq<Answer> {
    if hs == [] then [] else CallsOf(hs[..|hs| - 1]) + hs[|hs| - 1].Calls()
  }

  /** What the handled events leave: the descriptors closed for them, and no others, are no longer registered. */
  ghost predicate Handled(before: Sel, after: Sel, hs: seq<Handling>) {
    && after.registered == before.registered - ClosedOf(hs) && ClosedOf(hs) <= before.registered
    && after.reported == before.reported + FdSeq(EventsOf(hs))
    && FdsOf(EventsOf(hs)) + after.pending == before.pending && FdsOf(EventsOf(hs)) !! after.pending
    && forall h <- hs :: h.Valid()
  }

  /** One event is taken and its descriptor perhaps closed. */
  ghost predicate TookOne(before: Sel, after: Sel, h: Handling) {
    && h.Valid() && h.e.fd in before.pending && h.e.fd in before.registered
    && after.reported == before.reported + [h.e.fd] && after.pending == before.pending - {h.e.fd}
    && after.registered == before.registered - (if h.Closes() then {h.e.fd} else {})
  }

  lemma HandledOne(before: Sel, mid: Sel, after: Sel, hs: seq<Handling>, h: Handling)
    requires Handled(before, mid, hs) && TookOne(mid, after, h)
    ensures Handled(before, after, hs + [h])
    ensures |ClosedOf(hs + [h])| == |ClosedOf(hs)| + (if h.Closes() then 1 else 0)
    ensures |after.pending| < |mid.pending|
  {
    AppendHandling(hs, h);
    hide FdsOf, FdSeq, EventsOf, ClosedOf;
    assert mid.pending == after.pending + {h.e.fd};
    assert forall x :: x in hs + [h] <==> x in hs || x == h;
  }

  /** The same of the events and the calls. */
  lemma NextHandled(hs: seq<Handling>, h: Handling, was: seq<Event>, rest: seq<Event>, all: seq<Event>,
      calls: seq<Answer>)
    requires EventsOf(hs) + was == all && was == [h.e] + rest
    ensures EventsOf(hs + [h]) + rest == all
    ensures calls + CallsOf(hs + [h]) == calls + CallsOf(hs) + h.Calls()
  {
    AppendHandling(hs, h);
    hide EventsOf, CallsOf;
    assert calls + CallsOf(hs) + h.Calls() == calls + (CallsOf(hs) + h.Calls());
  }

  lemma AppendHandling(hs: seq<Handling>, h: Handling)
    ensures EventsOf(hs + [h]) == EventsOf(hs) + [h.e]
    ensures FdSeq(EventsOf(hs + [h])) == FdSeq(EventsOf(hs)) + [h.e.fd]
    ensures FdsOf(EventsOf(hs + [h])) == FdsOf(EventsOf(hs)) + {h.e.fd}
    ensures ClosedOf(hs + [h]) == ClosedOf(hs) + (if h.Closes() then {h.e.fd} else {})
    ensures CallsOf(hs + [h]) == CallsOf(hs) + h.Calls()
  {
    assert EventsOf(hs + [h]) == EventsOf(hs) + [h.e];
    assert (hs + [h])[..|hs|] == hs;
    assert forall x :: x in hs + [h] <==> x in hs || x == h;
    assert forall x :: x in EventsOf(hs) + [h.e] <==> x in EventsOf(hs) || x == h.e;
  }

  lemma HandledStarts(before: Sel)
    ensures Handled(before, before, []) && EventsOf([]) == [] && CallsOf([]) == [] && ClosedOf([]) == {}
  {
    assert EventsOf([]) == [];
  }

  lemma HandledEnds(before: Sel, mid: Sel, after: Sel, hs: seq<Handling>)
    requires Handled(before, mid, hs) && after == mid.(last := None)
    ensures Handled(before, after, hs)
  {
  }

  /** One turn of the inner loop. */
  method HandleNext(selector: Selector, net: Sockets) returns (r: Option<Event>, closeSock: bool, ghost h: Handling)
    requires selector.Valid() && net !in selector.Repr()
    modifies selector.Repr(), net
    ensures selector.Valid() && selector.Failures() == old(selector.Failures())
    ensures selector.Reported() == old(selector.Reported())
    ensures match r
      case None => (
        && old(selector.Abs().pending) == {} && selector.Abs() == old(selector.Abs()).(last := None)
        && old(selector.Pending()) == [] == selector.Pending() && net.answers == old(net.answers))
      case Some(e) => (
        && h.e == e && (closeSock <==> h.Closes()) && TookOne(old(selector.Abs()), selector.Abs(), h)
        && old(selector.Pending()) == [e] + selector.Pending() && net.answers == old(net.answers) + h.Calls())
  {
    closeSock, h := false, Handling(Event(0, NO_FLAGS), None);
    r := selector.Next();
    if r.Some? {
      closeSock, h := MustClose(r.value, net);
      if closeSock {
        selector.RemoveCurrentReady();
      }
    }
  }

  /** The inner loop: every pending event is handled, in order, and the closed descriptors are removed and counted. */
  method HandleEvents(selector: Selector, fdLeft: int, net: Sockets) returns (left: int, ghost hs: seq<Handling>)
    requires selector.Valid() && net !in selector.Repr()
    modifies selector.Repr(), net
    ensures selector.Valid() && selector.Abs().pending == {} && selector.Failures() == old(selector.Failures())
    ensures Handled(old(selector.Abs()), selector.Abs(), hs) && left == fdLeft - |ClosedOf(hs)|
    ensures selector.Reported() == old(selector.Reported())
    ensures EventsOf(hs) == old(selector.Pending()) && net.answers == old(net.answers) + CallsOf(hs)
  {
    hide Handled, TookOne, FdsOf, EventsOf, CallsOf, ClosedOf;
    left, hs := fdLeft, [];
    ghost var before, all, calls := selector.Abs(), selector.Pending(), net.answers;
    HandledStarts(before);
    while true
      invariant selector.Valid() && Handled(before, selector.Abs(), hs) && left == fdLeft - |ClosedOf(hs)|
      invariant EventsOf(hs) + selector.Pending() == all && net.answers == calls + CallsOf(hs)
      invariant selector.Failures() == old(selector.Failures()) && selector.Reported() == old(selector.Reported())
      decreases |selector.Abs().pending|
    {
      ghost var mid, was := selector.Abs(), selector.Pending();
      ghost var h;
      var r, closeSock;
      r, closeSock, h := HandleNext(selector, net);
      if r.None? {
        HandledEnds(before, mid, selector.Abs(), hs);
        break;
      }
      HandledOne(before, mid, selector.Abs(), hs, h);
      NextHandled(hs, h, was, selector.Pending(), all, calls);
      if closeSock {
        left := left - 1;
      }
      hs := hs + [h];
    }
  }

  /** A socket whose message was echoed stays; a closed one goes. */
  lemma EchoedStays(before: Sel, after: Sel, hs: seq<Handling>, h: Handling)
    requires Handled(before, after, hs) && h in hs && Distinct(FdSeq(EventsOf(hs)))
    ensures h.e.fd in before.registered ==> (h.e.fd in after.registered <==> !h.Closes())
    ensures h.echo == Some(Echoed) ==> !h.Closes()
  {
    var i :| 0 <= i < |hs| && hs[i] == h;
    if h.e.fd in ClosedOf(hs) {
      var g :| g in hs && g.Closes() && g.e.fd == h.e.fd;
      var j :| 0 <= j < |hs| && hs[j] == g;
      assert FdSeq(EventsOf(hs))[i] == FdSeq(EventsOf(hs))[j];
    }
  }

  lemma ClosedCount(before: Sel, after: Sel, hs: seq<Handling>)
    requires Handled(before, after, hs)
    ensures |after.registered| == |before.registered| - |ClosedOf(hs)| && after.registered <= before.registered
  {
    assert before.registered == after.registered + ClosedOf(hs) && after.registered !! ClosedOf(hs);
  }

  lemma NewElement(s: seq<int>, i: nat)
    requires Distinct(s) && i < |s|
    ensures s[i] !in Elements(s[..i])
  {
  }

  /** The loop that registers the accepted sockets. */
  method AddAll(selector: Selector, sockets: seq<int>) returns (ok: bool)
    requires selector.Valid() && selector.Abs() == NEW_SEL
    requires Distinct(sockets) && forall fd <- sockets :: fd >= 0
    modifies selector.Repr()
    ensures selector.Valid() && selector.Failures() == old(selector.Failures()) + (if ok then 0 else 1)
    ensures selector.Reported() == old(selector.Reported())
    ensures ok ==> selector.Abs().registered == Elements(sockets) && |selector.Abs().registered| == |sockets|
  {
    hide Elements;
    NoElements();
    assert sockets[..0] == [];
    for i := 0 to |sockets|
      invariant selector.Valid() && selector.Abs().reported == [] && |selector.Abs().registered| == i
      invariant selector.Abs().registered == Elements(sockets[..i])
      invariant selector.Failures() == old(selector.Failures()) && selector.Reported() == old(selector.Reported())
    {
      assert sockets[i] in sockets && sockets[..i + 1] == sockets[..i] + [sockets[i]];
      AppendElements(sockets[..i], sockets[i]);
      NewElement(sockets, i);
      ok := selector.AddFd(sockets[i]);
      if !ok {
        return;
      }
    }
    assert sockets[..|sockets|] == sockets;
    ok := true;
  }

  /** The body of the outer loop: waits, and handles what is reported. */
  method Turn(selector: Selector, fdLeft: int, net: Sockets) returns (ok: bool, left: int, ghost hs: seq<Handling>)
    requires selector.Valid() && net !in selector.Repr()
    modifies selector.Repr(), net
    ensures selector.Valid() && selector.Failures() == old(selector.Failures()) + (if ok then 0 else 1)
    ensures ok ==>
      && selector.Abs().registered == old(selector.Abs().registered) - ClosedOf(hs)
      && left - |selector.Abs().registered| == fdLeft - old(|selector.Abs().registered|)
      && net.answers == old(net.answers) + CallsOf(hs)
      && selector.Reported() == old(selector.Reported()) + |hs|
  {
    hide Handled, EventsOf, CallsOf, ClosedOf;
    left, hs := fdLeft, [];
    ok := selector.Wait();
    if !ok {
      return;
    }
    ghost var was := selector.Abs();
    left, hs := HandleEvents(selector, fdLeft, net);
    ClosedCount(was, selector.Abs(), hs);
    HandledRegistered(was, selector.Abs(), hs);
    SameSize(hs);
  }

  lemma SameSize(hs: seq<Handling>)
    ensures |EventsOf(hs)| == |hs|
  {
  }

  lemma HandledRegistered(before: Sel, after: Sel, hs: seq<Handling>)
    requires Handled(before, after, hs)
    ensures after.registered == before.registered - ClosedOf(hs)
  {
  }

  /** What was handled before and what is handled next, together. */
  lemma {:induction false} MoreHandled(hs: seq<Handling>, more: seq<Handling>)
    ensures ClosedOf(hs + more) == ClosedOf(hs) + ClosedOf(more) && CallsOf(hs + more) == CallsOf(hs) + CallsOf(more)
  {
    hide *;
    if more == [] {
      assert hs + more == hs;
      NothingHandled();
    } else {
      var n := |more| - 1;
      var h := more[n];
      MoreHandled(hs, more[..n]);
      assert more == more[..n] + [h] && hs + more == hs + more[..n] + [h];
      AppendHandling(hs + more[..n], h);
      AppendHandling(more[..n], h);
      AppendCalls(CallsOf(hs), CallsOf(more[..n]), h.Calls());
    }
  }

  lemma NothingHandled()
    ensures ClosedOf([]) == {} && CallsOf([]) == []
  {
  }

  lemma AppendCalls(a: seq<Answer>, b: seq<Answer>, c: seq<Answer>)
    ensures a + b + c == a + (b + c)
  {
  }

  /** The outer loop of run_test, stopped after the given number of waits. */
  method Serve(selector: Selector, count: int, rounds: nat, net: Sockets)
    returns (status: Status, fdLeft: int, waits: nat, ghost hs: seq<Handling>)
    requires selector.Valid() && net !in selector.Repr()
    modifies selector.Repr(), net
    ensures selector.Valid()
    ensures selector.Failures() == old(selector.Failures()) + (if status.Failed? then 1 else 0)
    ensures status.Finished? ==> fdLeft <= 0
    ensures status.Running? ==> waits == rounds && fdLeft > 0
    ensures !status.Failed? ==>
      && fdLeft - |selector.Abs().registered| == count - old(|selector.Abs().registered|)
      && selector.Abs().registered == old(selector.Abs().registered) - ClosedOf(hs)
      && net.answers == old(net.answers) + CallsOf(hs)
      && |hs| == selector.Reported() - old(selector.Reported())
  {
    hide CallsOf, ClosedOf;
    fdLeft, waits, hs := count, 0, [];
    NothingHandled();
    ghost var registered, answers := selector.Abs().registered, net.answers;
    assert answers + [] == answers;
    while fdLeft > 0 && waits < rounds
      invariant selector.Valid() && waits <= rounds
      invariant selector.Abs().registered == registered - ClosedOf(hs)
      invariant fdLeft - |selector.Abs().registered| == count - |registered|
      invariant selector.Failures() == old(selector.Failures())
      invariant net.answers == answers + CallsOf(hs) && |hs| == selector.Reported() - old(selector.Reported())
      decreases rounds - waits
    {
      ghost var more;
      var ok;
      ok, fdLeft, more := Turn(selector, fdLeft, net);
      if !ok {
        status := Status.Failed;
        return;
      }
      MoreHandled(hs, more);
      AppendCalls(answers, CallsOf(hs), CallsOf(more));
      hs := hs + more;
      waits := waits + 1;
    }
    status := if fdLeft > 0 then Running else Finished;
  }

  /**
   run_test of client.cpp, stopped after the given number of waits if it has not ended by then. The
   missing descriptors are those th_count promises beyond the sockets accepted.
   */
  method RunTest(selector: Selector, thCount: int, rounds: nat, net: Sockets)
    returns (status: Status, fdLeft: int, a: Accepted, waits: nat, ghost hs: seq<Handling>)
    requires selector.Valid() && selector.Abs() == NEW_SEL && net !in selector.Repr()
    modifies selector.Repr(), net
    ensures selector.Valid()
    ensures a.ok && !status.Failed? ==> fdLeft - |selector.Abs().registered| == thCount - |a.sockets|
    ensures status.Finished? ==> fdLeft <= 0
    ensures status.Failed? <==> !a.ok || selector.Failures() > old(selector.Failures())
    ensures status.Running? ==> waits == rounds && fdLeft > 0
    ensures a.ok && !a.bindFailed && !status.Failed? ==>
      && net.answers == old(net.answers) + ListenCalls(a.sockets) + CallsOf(hs)
      && |hs| == selector.Reported() - old(selector.Reported())
      && selector.Abs().registered == Elements(a.sockets) - ClosedOf(hs)
    ensures a.ok && !a.bindFailed && thCount >= 0 && !status.Failed? ==>
      && fdLeft == |selector.Abs().registered|
      && (status.Finished? ==> selector.Abs().registered == {})
      && (status.Running? ==> selector.Abs().registered != {})
    ensures a.bindFailed ==> a.ok
    ensures a.bindFailed && thCount > 0 ==>
      && !status.Finished?
      && (status.Running? ==> fdLeft == thCount && selector.Abs().registered == {})
  {
    hide Elements, ListenCalls, CallsOf, ClosedOf;
    fdLeft, waits, hs := thCount, 0, [];
    a := WaitForConn(thCount, net);
    if !a.ok {
      status := Status.Failed;
      return;
    }
    var added := AddAll(selector, a.sockets);
    if !added {
      status := Status.Failed;
      return;
    }
    status, fdLeft, waits, hs := Serve(selector, thCount, rounds, net);
    if a.bindFailed {
      NoElements();
    }
  }
}
