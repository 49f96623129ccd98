/** worker_thread of server.cpp: one worker's event loop over its selector. */
module Worker {
  import opened Totals
  import opened Kernel
  import opened EpollWait
  import opened EPollSelector
  import opened WaitQueue
  import opened History
  import opened Books

  const IDLE_WAIT_NS := 100 * 1000 * 1000

  /** The cast of the unsigned difference a - b to long int, and zero if that is negative. */
  function PollTimeout(a: nat, b: nat): (r: nat) {
    var d := (a - b) % U64;
    if d >= U64 / 2 then 0 else d
  }

  /** How far ahead the deadline of an entry is. */
  function Ahead(x: FdTimeout, asOf: nat): nat { if x.readyTime > asOf then x.readyTime - asOf else 0 }

  /**
   A wait asked for at the given reading, below 2^63, ends exactly at the earliest deadline, or at once if that has
   passed or is 2^63 nanoseconds ahead. With an empty queue it is a tenth of a second.
   */
  ghost predicate WithinDeadlines(queue: multiset<FdTimeout>, asked: int, asOf: nat) {
    if queue == multiset{} then asked == 100_000_000
    else asOf < U64 / 2 ==>
      && (forall x <- queue :: 0 <= asked <= Ahead(x, asOf))
      && exists x :: IsTop(queue, x) && asked == if Ahead(x, asOf) >= U64 / 2 then 0 else Ahead(x, asOf)
  }

  lemma IdleIsWithin()
    ensures forall asOf: nat :: WithinDeadlines(multiset{}, IDLE_WAIT_NS, asOf)
  {
  }

  lemma PollTimeoutIsShort(a: Account, now: nat, asked: nat, top: FdTimeout, start: nat, tmin: nat, tmax: nat)
    requires InOrder(a, [], 0, start, tmin, tmax) && IsTop(a.queue, top) && asked == PollTimeout(top.readyTime, now)
    ensures WithinDeadlines(a.queue, asked, now)
  {
    assert top.readyTime < U64;
    if now < U64 / 2 {
      TimeoutOfTop(top, now);
      hide PollTimeout;
      forall x | x in a.queue ensures asked <= Ahead(x, now) {
        assert !Less(top, x);
      }
    }
  }

  lemma TimeoutOfTop(top: FdTimeout, now: nat)
    requires top.readyTime < U64 && now < U64 / 2
    ensures PollTimeout(top.readyTime, now) == if Ahead(top, now) >= U64 / 2 then 0 else Ahead(top, now)
  {
  }

  /** The descriptors whose message the worker has not received yet, each as often as it is in one of its lists. */
  ghost function UnreadFds(queue: multiset<FdTimeout>, ready: seq<int>, reported: seq<Event>): multiset<int> {
    FdsIn(queue) + multiset(ready) + multiset(FdSeq(reported))
  }

  /** Epoll keeps quiet about exactly the unread descriptors, and each of them is in one place. */
  ghost predicate OnePlaceEach(quiet: set<int>, unread: multiset<int>) {
    forall fd :: (fd in quiet <==> fd in unread) && unread[fd] <= 1
  }

  /** The calls of epoll_wait made by one wait, the nanoseconds asked for, and the reading they were computed from. */
  datatype WaitMade = WaitMade(calls: seq<Call>, asked: int, asOf: nat) {
    function Answer(): seq<Event> { if calls == [] then [] else AnswerOf(calls[|calls| - 1]) }

    /** The last call of epoll_wait failed. */
    predicate Failed() { calls != [] && calls[|calls| - 1].outcome.Failed? }
  }

  /**
   The record of one pass of the loop: the wait, the clock reading after it, what the drain left in the queue and
   what it took out, the reports looked at, the pings, the readings of done, and what was asked of the sockets.
   */
  datatype Pass = Pass(wait: WaitMade, now: nat, rest: multiset<FdTimeout>, items: seq<FdTimeout>,
                       seen: seq<Ev>, pinged: seq<Ev>, loads: seq<bool>, transfers: seq<Answer>)

  /** The descriptors to ping in a pass: those whose time had come, then the reported ones that need not wait. */
  function ToPing(log: seq<Ev>, p: Pass): seq<int> { Fds(p.items) + DueNow(log, p.seen) }

  /** The wait of a pass keeps to the deadlines and its drain is exact. */
  ghost predicate PassWaits(before: Account, p: Pass) {
    && WaitCalls(p.wait.calls, p.wait.asked) && WithinDeadlines(before.queue, p.wait.asked, p.wait.asOf)
    && Drained(before.queue, p.rest, p.items, p.now) && DistinctFds(p.wait.Answer()) && !p.wait.Failed()
    && forall e <- p.seen :: e.Seen? && e.at == p.now
  }

  /** A whole pass: every reported descriptor is looked at once, and deferred or pinged, in order. */
  ghost predicate CompletePass(before: Account, after: Account, p: Pass) {
    && PassWaits(before, p)
    && EvFds(p.seen) == FdSeq(p.wait.Answer())
    && (forall e <- p.pinged :: e.Pinged?) && EvFds(p.pinged) == ToPing(before.log, p)
    && after.log == before.log + p.seen + p.pinged
    && after.queue == p.rest + Deferred(before.log, p.seen)
    && after.mcount == before.mcount + |p.seen|
  }

  /** Why the loop was left. */
  datatype Why = WaitFailed | DoneAfterWait | DoneInScan | DoneAtPing | NotReceived | NotWritten

  datatype Exit = Returned(why: Why) | Continues

  /** A pass that ends early has done a first part of this, up to where it left. */
  ghost predicate PartOfPass(before: Account, after: Account, p: Pass, why: Why) {
    && WaitCalls(p.wait.calls, p.wait.asked) && WithinDeadlines(before.queue, p.wait.asked, p.wait.asOf)
    && after.log == before.log + p.seen + p.pinged && (forall e <- p.pinged :: e.Pinged?)
    && match why
      case WaitFailed =>
        && p.wait.Failed() && p.seen == [] && p.pinged == []
        && after.queue == before.queue && after.mcount == before.mcount
      case DoneAfterWait =>
        PassWaits(before, p) && p.seen == [] && p.pinged == [] && after.queue == p.rest && after.mcount == before.mcount
      case DoneInScan =>
        && PassWaits(before, p) && p.pinged == [] && p.seen != [] && IsDue(before.log, p.seen[|p.seen| - 1])
        && EvFds(p.seen) <= FdSeq(p.wait.Answer())
        && after.queue == p.rest + Deferred(before.log, p.seen) && after.mcount == before.mcount + |p.wait.Answer()|
      case _ =>
        && PassWaits(before, p) && EvFds(p.seen) == FdSeq(p.wait.Answer())
        && |p.pinged| < |ToPing(before.log, p)| && EvFds(p.pinged) == ToPing(before.log, p)[..|p.pinged|]
        && after.queue == p.rest + Deferred(before.log, p.seen) && after.mcount == before.mcount + |p.wait.Answer()|
  }

  /** What is known of a pass before the reports are looked at. */
  ghost predicate PassBegun(before: Account, p: Pass) {
    && WaitCalls(p.wait.calls, p.wait.asked) && WithinDeadlines(before.queue, p.wait.asked, p.wait.asOf)
    && Drained(before.queue, p.rest, p.items, p.now) && DistinctFds(p.wait.Answer()) && !p.wait.Failed()
  }

  /** done was not set in any of the readings, or in the last one only. */
  predicate Unset(loads: seq<bool>) { forall isSet <- loads :: !isSet }

  predicate FoundSet(loads: seq<bool>) {
    loads != [] && loads[|loads| - 1] && Unset(loads[..|loads| - 1])
  }

  /** The calls of echoes that went well. */
  function Transfers(fds: seq<int>): seq<Answer> {
    if fds == [] then []
    else
      var n := |fds| - 1;
      Transfers(fds[..n]) + EchoCalls(fds[n], Echoed)
  }

  /** The calls of the last ping of a loop over ready_fds that ends like this, and of any before it. */
  function PingTransfers(fd: int, exit: Exit): seq<Answer> {
    match exit
    case Continues => EchoCalls(fd, Echoed)
    case Returned(NotReceived) => EchoCalls(fd, NothingReceived)
    case Returned(NotWritten) => EchoCalls(fd, NothingWritten)
    case _ => []
  }

  /** What the loop over ready_fds does: done is read before each ping, and each but the last one is echoed. */
  ghost predicate PingCalls(exit: Exit, fds: seq<int>, n: nat, loads: seq<bool>, transfers: seq<Answer>) {
    match exit
    case Continues => n == |fds| == |loads| && Unset(loads) && transfers == Transfers(fds)
    case Returned(why) =>
      && (why.DoneAtPing? || why.NotReceived? || why.NotWritten?)
      && n < |fds| && |loads| == n + 1 && (if why.DoneAtPing? then FoundSet(loads) else Unset(loads))
      && transfers == Transfers(fds[..n]) + PingTransfers(fds[n], exit)
  }

  /**
   A pass is left for the reason of its return, and only then: the wait failed, or done was set when it was last read,
   or the last ping was not received or not written.
   */
  ghost predicate CallsOfPass(log: seq<Ev>, p: Pass, exit: Exit) {
    var listed := |DueNow(log, p.seen)|;
    match exit
    case Returned(WaitFailed) => p.wait.Failed() && p.loads == [] && p.transfers == []
    case Returned(DoneAfterWait) => !p.wait.Failed() && p.loads == [true] && p.transfers == []
    case Returned(DoneInScan) =>
      !p.wait.Failed() && FoundSet(p.loads) && |p.loads| == 1 + listed && p.transfers == []
    case _ =>
      && !p.wait.Failed() && |p.loads| >= 1 + listed && Unset(p.loads[..1 + listed])
      && PingCalls(exit, ToPing(log, p), |p.pinged|, p.loads[1 + listed..], p.transfers)
  }

  lemma PassNotBegun(before: Account, after: Account, p: Pass)
    requires after.log == before.log && p.seen == [] && p.pinged == [] && after.mcount == before.mcount
    requires WaitCalls(p.wait.calls, p.wait.asked) && WithinDeadlines(before.queue, p.wait.asked, p.wait.asOf)
    ensures p.wait.Failed() && after.queue == before.queue ==> PartOfPass(before, after, p, WaitFailed)
    ensures PassBegun(before, p) && after.queue == p.rest ==> PartOfPass(before, after, p, DoneAfterWait)
  {
    hide WaitCalls, WithinDeadlines, Drained;
    assert before.log + [] + [] == before.log;
  }

  lemma BegunIsBegun(before: Account, p: Pass, q: Pass)
    requires PassBegun(before, p) && q == p.(seen := q.seen, loads := q.loads)
    ensures PassBegun(before, q)
  {
  }

  /** The account after the reports have been counted. */
  function Counted(before: Account, p: Pass): Account {
    before.(queue := p.rest, mcount := before.mcount + |p.wait.Answer()|)
  }

  lemma PassScanned(before: Account, after: Account, ready: seq<int>, p: Pass)
    requires PassBegun(before, p) && p.pinged == []
    requires Scanned(Counted(before, p), Fds(p.items), after, ready, p.seen, p.now)
    requires EvFds(p.seen) <= FdSeq(p.wait.Answer())
    ensures ready == ToPing(before.log, p)
    ensures p.seen != [] && IsDue(before.log, p.seen[|p.seen| - 1]) ==> PartOfPass(before, after, p, DoneInScan)
  {
    hide WaitCalls, WithinDeadlines, Drained, IsDue, DueNow, Deferred;
    assert before.log + p.seen + [] == before.log + p.seen;
  }

  lemma PassPinged(before: Account, scanned: Account, after: Account, ready: seq<int>, p: Pass, pinged: seq<Ev>,
      why: Why)
    requires PassBegun(before, p) && EvFds(p.seen) == FdSeq(p.wait.Answer())
    requires Scanned(Counted(before, p), Fds(p.items), scanned, ready, p.seen, p.now)
    requires |pinged| <= |ready| && PingedAll(scanned, after, ready[..|pinged|], pinged)
    ensures |pinged| < |ready| && (why.DoneAtPing? || why.NotReceived? || why.NotWritten?) ==>
      forall loads, transfers ::
        PartOfPass(before, after, p.(pinged := pinged, loads := loads, transfers := transfers), why)
    ensures |pinged| == |ready| ==>
      forall loads, transfers ::
        CompletePass(before, after, p.(pinged := pinged, loads := loads, transfers := transfers))
  {
    hide WaitCalls, WithinDeadlines, Drained, IsDue, DueNow, Deferred;
    assert ready[..|ready|] == ready;
    assert |EvFds(p.seen)| == |p.wait.Answer()|;
  }

  lemma UnsetAppend(a: seq<bool>, b: seq<bool>)
    ensures Unset(a) && Unset(b) ==> Unset(a + b)
    ensures Unset(a) && FoundSet(b) ==> FoundSet(a + b)
    ensures Unset([false]) && FoundSet([true]) && Unset([])
  {
    assert forall x :: x in a + b <==> x in a || x in b;
    if b != [] {
      assert (a + b)[..|a + b| - 1] == a + b[..|b| - 1];
      assert forall x :: x in a + b[..|b| - 1] <==> x in a || x in b[..|b| - 1];
    }
  }

  lemma Grouped<T>(a: seq<T>, b: seq<T>, c: seq<T>)
    ensures a + b + c == a + (b + c)
  {
  }

  /** A report is deferred to its due time if that is ahead, and is due otherwise. */
  lemma DueMeans(log: seq<Ev>, e: Ev, due: Option<nat>)
    requires e.Seen?
    requires var t := Add64(LastTime(log, e.fd), e.timeout); due == if t > e.at then Some(t) else None
    ensures due.None? <==> IsDue(log, e)
    ensures due.Some? ==> due.value == DueTime(log, e)
  {
    hide LastTime, Add64;
  }

  lemma IsReported(a: Account, b: Account, e: Ev, due: Option<nat>)
    requires e.Seen? && b.mcount == a.mcount && b.messCount == a.messCount && b.log == a.log + [e]
    requires b.lastTime == TimesAfter(a.lastTime, e.fd, e.bucket) && b.latMap == LatenciesAfter(a.latMap, e.bucket)
    requires b.queue == a.queue + (if due.Some? then multiset{FdTimeout(e.fd, due.value)} else multiset{})
    ensures b == Reported(a, e, due)
  {
    hide TimesAfter, LatenciesAfter;
  }

  /** The pauses drawn for the reports. */
  function Timeouts(seen: seq<Ev>): seq<nat> {
    if seen == [] then []
    else
      var n := |seen| - 1;
      Timeouts(seen[..n]) + (if seen[n].Seen? then [seen[n].timeout] else [])
  }

  /** done is read after each report that is put on the list, and the loop is left when it is found set. */
  ghost predicate ScanCalls(exit: Exit, log: seq<Ev>, seen: seq<Ev>, loads: seq<bool>) {
    |loads| == |DueNow(log, seen)| && if exit.Continues? then Unset(loads) else FoundSet(loads)
  }

  lemma OneMoreLook(log: seq<Ev>, seen: seq<Ev>, e: Ev, loads: seq<bool>)
    requires e.Seen? && ScanCalls(Continues, log, seen, loads)
    ensures Timeouts(seen + [e]) == Timeouts(seen) + [e.timeout]
    ensures !IsDue(log, e) ==> ScanCalls(Continues, log, seen + [e], loads)
    ensures IsDue(log, e) ==> ScanCalls(Continues, log, seen + [e], loads + [false])
    ensures IsDue(log, e) ==> ScanCalls(Returned(DoneInScan), log, seen + [e], loads + [true])
  {
    hide DueNow, IsDue, Deferred, Unset, FoundSet;
    DueNowAppend(log, seen, e);
    UnsetAppend(loads, [false]);
    UnsetAppend(loads, [true]);
    assert (seen + [e])[..|seen|] == seen;
  }

  lemma OneMorePing(fds: seq<int>, i: nat, loads: seq<bool>, transfers: seq<Answer>, exit: Exit)
    requires i < |fds| && Unset(loads) && |loads| == i && transfers == Transfers(fds[..i])
    ensures var l, t := loads + [exit == Returned(DoneAtPing)], transfers + PingTransfers(fds[i], exit);
      match exit
      case Continues => Unset(l) && t == Transfers(fds[..i + 1])
      case Returned(why) => why.DoneAtPing? || why.NotReceived? || why.NotWritten? ==> PingCalls(exit, fds, i, l, t)
  {
    hide Unset, FoundSet, EchoCalls;
    UnsetAppend(loads, [false]);
    UnsetAppend(loads, [true]);
    assert fds[..i + 1][..i] == fds[..i] && fds[..i + 1][i] == fds[i];
  }

  lemma AllPinged(fds: seq<int>, loads: seq<bool>, transfers: seq<Answer>)
    requires Unset(loads) && |loads| == |fds| && transfers == Transfers(fds)
    ensures PingCalls(Continues, fds, |fds|, loads, transfers)
  {
  }

  lemma NothingPinged(fds: seq<int>)
    ensures Unset([]) && fds[0..] == fds && fds[..0] == [] && Transfers([]) == []
  {
  }

  lemma NothingSeen(log: seq<Ev>)
    ensures ScanCalls(Continues, log, [], []) && Timeouts([]) == []
  {
  }

  /** A failed wait, or a set flag after the wait. */
  lemma NoReadings(log: seq<Ev>, p: Pass)
    requires p.loads == [] && p.transfers == []
    ensures p.wait.Failed() ==> CallsOfPass(log, p, Returned(WaitFailed))
    ensures !p.wait.Failed() ==> CallsOfPass(log, p.(loads := [true]), Returned(DoneAfterWait))
  {
  }

  /** The readings of a pass that did not get to its pings. */
  lemma CallsBegun(log: seq<Ev>, p: Pass, exit: Exit, scan: seq<bool>)
    requires !p.wait.Failed() && ScanCalls(exit, log, p.seen, scan) && p.loads == [false] + scan && p.transfers == []
    requires exit.Returned? ==> exit.why == DoneInScan
    ensures if exit.Returned? then CallsOfPass(log, p, exit)
      else Unset(p.loads) && |p.loads| == 1 + |DueNow(log, p.seen)|
  {
    hide DueNow, Unset, FoundSet;
    UnsetAppend([false], scan);
  }

  /** The readings of a pass that got to its pings. */
  lemma CallsTogether(log: seq<Ev>, p: Pass, exit: Exit, scan: seq<bool>, loads: seq<bool>, transfers: seq<Answer>)
    requires !p.wait.Failed() && Unset(scan) && |scan| == 1 + |DueNow(log, p.seen)|
    requires PingCalls(exit, ToPing(log, p), |p.pinged|, loads, transfers)
    ensures CallsOfPass(log, p.(loads := scan + loads, transfers := transfers), exit)
  {
    hide PingCalls, Unset;
    assert (scan + loads)[..|scan|] == scan && (scan + loads)[|scan|..] == loads;
    assert PingCalls(exit, ToPing(log, p), |p.pinged|, loads, transfers) by {
    }
    NoOtherReason(exit, ToPing(log, p), |p.pinged|, loads, transfers);
  }

  lemma NoOtherReason(exit: Exit, fds: seq<int>, n: nat, loads: seq<bool>, transfers: seq<Answer>)
    requires PingCalls(exit, fds, n, loads, transfers)
    ensures exit.Returned? ==> exit.why.DoneAtPing? || exit.why.NotReceived? || exit.why.NotWritten?
  {
  }

  /** What the passes have together. */
  function Gathered<T>(records: seq<Pass>, of: Pass -> seq<T>): seq<T> {
    if records == [] then []
    else
      var n := |records| - 1;
      Gathered(records[..n], of) + of(records[n])
  }

  function CallsIn(p: Pass): seq<Call> { p.wait.calls }

  function LoadsIn(p: Pass): seq<bool> { p.loads }

  function TransfersIn(p: Pass): seq<Answer> { p.transfers }

  function TimeoutsIn(p: Pass): seq<nat> { Timeouts(p.seen) }

  lemma NothingGathered<T>(of: Pass -> seq<T>)
    ensures Gathered([], of) == []
  {
  }

  lemma GatherOne<T>(made: seq<T>, records: seq<Pass>, p: Pass, of: Pass -> seq<T>)
    ensures made + Gathered(records, of) + of(p) == made + Gathered(records + [p], of)
    ensures Gathered(records, of) + of(p) == Gathered(records + [p], of)
  {
    assert (records + [p])[..|records|] == records;
  }

  /** Accounts, each of them the outcome of a whole pass; the last pass may have ended early. */
  ghost predicate Chain(accounts: seq<Account>, records: seq<Pass>, exit: Exit) {
    && |accounts| == |records| + 1
    && (forall i :: 0 <= i < |records| - 1 ==>
      CompletePass(accounts[i], accounts[i + 1], records[i]) && CallsOfPass(accounts[i].log, records[i], Continues))
    && (records != [] ==>
      var n := |records| - 1;
      && CallsOfPass(accounts[n].log, records[n], exit)
      && if exit.Continues? then CompletePass(accounts[n], accounts[n + 1], records[n])
         else PartOfPass(accounts[n], accounts[n + 1], records[n], exit.why))
    && (exit.Returned? ==> records != [])
  }

  lemma FirstAccount(a: Account)
    ensures Chain([a], [], Continues)
  {
  }

  lemma OneMorePass(accounts: seq<Account>, records: seq<Pass>, a: Account, p: Pass, exit: Exit)
    requires Chain(accounts, records, Continues) && CallsOfPass(accounts[|records|].log, p, exit)
    requires exit.Continues? ==> CompletePass(accounts[|records|], a, p)
    requires exit.Returned? ==> PartOfPass(accounts[|records|], a, p, exit.why)
    ensures Chain(accounts + [a], records + [p], exit)
  {
    hide CallsOfPass, CompletePass, PartOfPass;
  }

  /** The books are in order at every loop head, at clock readings that do not go back, and at least at a return. */
  ghost predicate HeadsInOrder(accounts: seq<Account>, nows: seq<nat>, exit: Exit, tmin: nat, tmax: nat) {
    && |accounts| == |nows| + (if exit.Returned? then 1 else 0)
    && (forall i :: 0 <= i < |nows| ==> InOrder(accounts[i], [], 0, nows[i], tmin, tmax))
    && (forall i, j :: 0 <= i < j < |nows| ==> nows[i] <= nows[j])
    && (exit.Returned? ==> AtLeast(accounts[|nows|], tmin, tmax))
  }

  lemma FirstHead(a: Account, now: nat, tmin: nat, tmax: nat)
    requires InOrder(a, [], 0, now, tmin, tmax)
    ensures HeadsInOrder([a], [now], Continues, tmin, tmax)
  {
  }

  lemma OneMoreHead(accounts: seq<Account>, nows: seq<nat>, a: Account, now: nat, tmin: nat, tmax: nat)
    requires HeadsInOrder(accounts, nows, Continues, tmin, tmax) && nows != [] && nows[|nows| - 1] <= now
    requires InOrder(a, [], 0, now, tmin, tmax)
    ensures HeadsInOrder(accounts + [a], nows + [now], Continues, tmin, tmax)
  {
    hide InOrder;
  }

  lemma AfterLastHead(accounts: seq<Account>, nows: seq<nat>, a: Account, why: Why, tmin: nat, tmax: nat)
    requires HeadsInOrder(accounts, nows, Continues, tmin, tmax) && AtLeast(a, tmin, tmax)
    ensures HeadsInOrder(accounts + [a], nows, Returned(why), tmin, tmax)
  {
    hide InOrder, AtLeast;
  }

  lemma SeenNone(all: seq<int>)
    ensures EvFds([]) + all == all
  {
  }

  lemma SeenNext(seen: seq<Ev>, e: Ev, pending: seq<int>, rest: seq<int>)
    requires pending == [e.fd] + rest
    ensures EvFds(seen + [e]) + rest == EvFds(seen) + pending && EvFds(seen + [e]) <= EvFds(seen) + pending
  {
    assert EvFds(seen + [e]) == EvFds(seen) + [e.fd];
  }

  lemma SeenAll(seen: seq<Ev>, pending: seq<Event>)
    requires pending == []
    ensures EvFds(seen) + FdSeq(pending) == EvFds(seen)
  {
  }

  lemma UnreadHead(queue: multiset<FdTimeout>, ready: seq<int>, before: seq<Event>, rest: seq<Event>)
    requires before != [] && before == [before[0]] + rest
    ensures FdSeq(before) == [before[0].fd] + FdSeq(rest)
    ensures UnreadFds(queue, ready, before)[before[0].fd] <= 1 ==> Places(queue, ready, before[0].fd) == 0
  {
    hide FdsIn;
    assert FdSeq(before) == [before[0].fd] + FdSeq(rest);
  }

  /** The head of the reports moves to the queue or to the list: it stays unread. */
  lemma ReportMoves(queue: multiset<FdTimeout>, ready: seq<int>, before: seq<Event>, rest: seq<Event>, due: nat)
    requires before != [] && before == [before[0]] + rest
    ensures var fd := before[0].fd;
      && UnreadFds(queue + multiset{FdTimeout(fd, due)}, ready, rest) == UnreadFds(queue, ready, before)
      && UnreadFds(queue, ready + [fd], rest) == UnreadFds(queue, ready, before)
  {
    hide FdsIn;
    var fd := before[0].fd;
    assert FdSeq(before) == [fd] + FdSeq(rest);
    Pushed(queue, FdTimeout(fd, due));
    ListedOne(ready, fd);
  }

  /** The wait adds its reports to the unread descriptors, and the drain moves some of them. */
  lemma WaitMoves(quiet: set<int>, queue: multiset<FdTimeout>, rest: multiset<FdTimeout>, items: seq<FdTimeout>,
      reported: seq<Event>)
    requires OnePlaceEach(quiet, UnreadFds(queue, [], [])) && queue == rest + multiset(items)
    requires DistinctFds(reported) && forall e <- reported :: e.fd !in quiet
    ensures OnePlaceEach(quiet + FdsOf(reported), UnreadFds(rest, Fds(items), reported))
  {
    FdsInItems(rest, items);
    DistinctReports(reported);
    hide FdsIn, DistinctFds, Fds;
    var unread := UnreadFds(queue, [], []);
    assert UnreadFds(rest, Fds(items), reported) == unread + multiset(FdSeq(reported));
    forall fd
      ensures fd in quiet + FdsOf(reported) <==> fd in unread + multiset(FdSeq(reported))
      ensures (unread + multiset(FdSeq(reported)))[fd] <= 1
    {
      assert (fd in quiet <==> fd in unread) && unread[fd] <= 1;
    }
  }

  lemma ReportsHead(reported: seq<Event>)
    requires reported != [] && DistinctFds(reported)
    ensures var fd, tail := reported[0].fd, reported[1..];
      && DistinctFds(tail) && fd !in FdsOf(tail) && FdsOf(reported) == {fd} + FdsOf(tail)
      && multiset(FdSeq(reported)) == multiset{fd} + multiset(FdSeq(tail))
  {
    var tail := reported[1..];
    assert reported == [reported[0]] + tail;
    DistinctTail(reported, reported[0], tail);
    hide DistinctFds;
    assert FdSeq(reported) == [reported[0].fd] + FdSeq(tail);
    assert forall e :: e in reported <==> e == reported[0] || e in tail;
  }

  lemma {:induction false} DistinctReports(reported: seq<Event>)
    requires DistinctFds(reported)
    ensures forall fd :: multiset(FdSeq(reported))[fd] == if fd in FdsOf(reported) then 1 else 0
  {
    if reported == [] {
      assert FdSeq(reported) == [];
    } else {
      ReportsHead(reported);
      hide FdsOf, FdSeq, DistinctFds;
      DistinctReports(reported[1..]);
    }
  }

  lemma UnreadOnce(quiet: set<int>, unread: multiset<int>, fd: int)
    requires OnePlaceEach(quiet, unread)
    ensures unread[fd] <= 1
  {
  }

  lemma PlacedIn(a: Account, ready: seq<int>, pending: nat, now: nat, tmin: nat, tmax: nat)
    requires InOrder(a, ready, pending, now, tmin, tmax)
    ensures EventsPlaced(a.log, a.queue, ready)
  {
  }

  lemma NothingUnread()
    ensures OnePlaceEach({}, UnreadFds(multiset{}, [], [])) && AllCalm([])
  {
    NoEntries();
  }

  /** What is received is unread no more. */
  lemma PingMoves(quiet: set<int>, queue: multiset<FdTimeout>, ready: seq<int>)
    requires OnePlaceEach(quiet, UnreadFds(queue, ready, [])) && ready != []
    ensures OnePlaceEach(quiet - {ready[0]}, UnreadFds(queue, ready[1..], []))
  {
    hide FdsIn;
    FirstListed(ready);
    var before, after := UnreadFds(queue, ready, []), UnreadFds(queue, ready[1..], []);
    assert before == after + multiset{ready[0]};
    forall fd ensures (fd in quiet - {ready[0]} <==> fd in after) && after[fd] <= 1 {
      assert (fd in quiet <==> fd in before) && before[fd] <= 1;
    }
  }

  class WorkerThread {
    const sel: EPollRSelector
    const clock: Clock
    const done: Flag
    const rand: Random
    const net: Sockets
    const timeoutMin: nat
    const timeoutMax: nat
    var mcount: nat
    var lastTime: map<int, nat>
    var latMap: map<bv64, nat>
    var messCount: map<int, nat>
    var waitQueue: multiset<FdTimeout>
    var readyFds: seq<int>
    ghost var log: seq<Ev>

    ghost function Acc(): Account
      reads this
    {
      Account(mcount, lastTime, latMap, messCount, waitQueue, log)
    }

    ghost predicate BooksInOrder(ready: seq<int>, pending: nat, now: nat)
      reads this
    {
      timeoutMin <= timeoutMax && InOrder(Acc(), ready, pending, now, timeoutMin, timeoutMax)
    }

    /**
     On an intact instance epoll keeps quiet about exactly the unread descriptors, each in one place, and no
     descriptor has been reported too early. Of other instances nothing is asked.
     */
    ghost predicate InStep(ready: seq<int>)
      reads this`waitQueue, this`log, sel, sel.events, sel.epoll
    {
      && sel.Valid()
      && (sel.epoll.intact ==>
        OnePlaceEach(sel.epoll.quiet, UnreadFds(waitQueue, ready, sel.Pending())) && AllCalm(log))
    }

    /** At the head of the loop every reported descriptor has been pinged or waits. */
    ghost predicate AtLoopHead()
      reads this, clock, sel, sel.events, sel.epoll
    {
      BooksInOrder([], 0, clock.now) && InStep([]) && sel.Pending() == []
    }

    ghost predicate AtReturn()
      reads this
    {
      AtLeast(Acc(), timeoutMin, timeoutMax) && (sel.epoll.intact ==> AllCalm(log))
    }

    constructor (sel: EPollRSelector, clock: Clock, done: Flag, rand: Random, net: Sockets, timeoutMin: nat,
        timeoutMax: nat)
      requires timeoutMin <= timeoutMax
      requires sel.Valid() && sel.Pending() == [] && (sel.epoll.intact ==> sel.epoll.quiet == {})
      ensures AtLoopHead() && log == []
      ensures this.sel == sel && this.clock == clock && this.timeoutMin == timeoutMin && this.timeoutMax == timeoutMax
      ensures this.done == done && this.rand == rand && this.net == net
    {
      this.done, this.rand, this.net := done, rand, net;
      this.sel, this.clock, this.timeoutMin, this.timeoutMax := sel, clock, timeoutMin, timeoutMax;
      mcount, lastTime, latMap, messCount := 0, map[], map[], map[];
      waitQueue, readyFds, log := multiset{}, [], [];
      new;
      NewInOrder(clock.now, timeoutMin, timeoutMax);
      assert Acc() == NEW_ACCOUNT;
      NothingUnread();
    }

    /** emplace(fd, 0): the previous write time of a reported descriptor; its latency is counted if it has one. */
    method CountLatency(fd: int, currTime: nat) returns (ltime: nat, bucket: Option<bv64>)
      requires Get(lastTime, fd) <= currTime
      modifies this`lastTime, this`latMap
      ensures ltime == old(Get(lastTime, fd)) && (bucket.None? <==> fd !in old(lastTime))
      ensures bucket.Some? ==> LatencyBucket(currTime - ltime, bucket.value)
      ensures lastTime == TimesAfter(old(lastTime), fd, bucket) && latMap == LatenciesAfter(old(latMap), bucket)
    {
      if fd in lastTime {
        ltime := lastTime[fd];
        var b := BucketOf(currTime - ltime);
        latMap := latMap[b := Get(latMap, b) + 1];
        bucket := Some(b);
      } else {
        lastTime := lastTime[fd := 0];
        ltime, bucket := 0, None;
      }
    }

    /** What is drawn for the given pauses: nothing if the limits leave no choice. */
    ghost function Draws(timeouts: seq<nat>): seq<nat> { if timeoutMin != timeoutMax then timeouts else [] }

    /** The pause before the next ping, drawn between the limits, and the due time if it is still ahead. */
    method DrawTimeout(ltime: nat, currTime: nat) returns (timeout: nat, due: Option<nat>)
      requires timeoutMin <= timeoutMax
      requires ltime <= currTime
      modifies rand
      ensures timeoutMin <= timeout <= timeoutMax
      ensures rand.draws == old(rand.draws) + Draws([timeout])
      ensures due == if Add64(ltime, timeout) > currTime then Some(Add64(ltime, timeout)) else None
    {
      timeout, due := 0, None;
      if 0 != timeoutMin || 0 != timeoutMax {
        if timeoutMax != timeoutMin {
          timeout := rand.Draw(timeoutMin, timeoutMax);
        } else {
          timeout := timeoutMax;
        }
        if Add64(ltime, timeout) > currTime {
          due := Some(Add64(ltime, timeout));
        }
      }
    }

    /** Puts the descriptor into the queue until its due time, or onto the list. */
    method DeferOrList(fd: int, due: Option<nat>)
      modifies this`waitQueue, this`readyFds
      ensures waitQueue == old(waitQueue) + (if due.Some? then multiset{FdTimeout(fd, due.value)} else multiset{})
      ensures readyFds == if due.None? then old(readyFds) + [fd] else old(readyFds)
    {
      if due.Some? {
        waitQueue := waitQueue + multiset{FdTimeout(fd, due.value)};
      } else {
        readyFds := readyFds + [fd];
      }
    }

    /** The body of the loop over sel->next: counts the latency, then defers or lists the descriptor. */
    method LookAt(fd: int, currTime: nat, ghost pending: nat) returns (listed: bool, ghost e: Ev)
      requires BooksInOrder(readyFds, pending + 1, currTime)
      modifies this, rand
      ensures e.Seen? && rand.draws == old(rand.draws) + Draws([e.timeout])
      ensures BooksInOrder(readyFds, pending, currTime)
      ensures e.Seen? && e.fd == fd && e.at == currTime && (listed <==> IsDue(old(log), e))
      ensures Acc() == Reported(old(Acc()), e, if listed then None else Some(DueTime(old(log), e)))
      ensures readyFds == if listed then old(readyFds) + [fd] else old(readyFds)
    {
      hide LatencyBucket, InOrder, TimesAfter, LatenciesAfter, Add64, Get, IsDue, DueTime, LastTime, Draws;
      hide Reported;
      ghost var a, ready := Acc(), readyFds;
      LastTimeRead(a, ready, pending + 1, currTime, timeoutMin, timeoutMax, fd);
      var ltime, bucket := CountLatency(fd, currTime);
      var timeout, due := DrawTimeout(ltime, currTime);
      listed := due.None?;
      DeferOrList(fd, due);
      e := Seen(fd, currTime, timeout, bucket);
      log := log + [e];
      DueMeans(a.log, e, due);
      IsReported(a, Acc(), e, due);
      ReportedInOrder(a, e, due, ready, pending, currTime, timeoutMin, timeoutMax);
    }

    /** Takes the next report, if there is one, and looks at it. */
    method ScanNext(currTime: nat) returns (found: bool, listed: bool, ghost e: Ev)
      requires InStep(readyFds) && BooksInOrder(readyFds, |sel.Pending()|, currTime)
      modifies this, sel, rand
      ensures InStep(readyFds) && BooksInOrder(readyFds, |sel.Pending()|, currTime)
      ensures rand.draws == old(rand.draws) + if found && e.Seen? then Draws([e.timeout]) else []
      ensures !found ==> old(sel.Pending()) == sel.Pending() == [] && Acc() == old(Acc()) && readyFds == old(readyFds)
      ensures found ==>
        && e.Seen? && e.at == currTime && (listed <==> IsDue(old(log), e))
        && old(FdSeq(sel.Pending())) == [e.fd] + FdSeq(sel.Pending())
        && Acc() == Reported(old(Acc()), e, if listed then None else Some(DueTime(old(log), e)))
        && readyFds == if listed then old(readyFds) + [e.fd] else old(readyFds)
    {
      hide InOrder, IsDue, DueTime, UnreadFds, FdsOf, FdSeq, OnePlaceEach, AllCalm;
      ghost var before, queue, ready := sel.Pending(), waitQueue, readyFds;
      var r := sel.Next();
      found := r.Some?;
      if r.None? {
        listed, e := false, Seen(0, 0, 0, None);
        return;
      }
      ghost var a, rest := Acc(), sel.Pending();
      UnreadHead(queue, ready, before, rest);
      listed, e := LookAt(r.value.fd, currTime, |sel.Pending()|);
      ReportMoves(queue, ready, before, rest, DueTime(a.log, e));
      if sel.epoll.intact {
        UnreadOnce(sel.epoll.quiet, UnreadFds(queue, ready, before), r.value.fd);
        PlacedIn(a, ready, |rest| + 1, currTime, timeoutMin, timeoutMax);
        StaysCalm(a.log, e, queue, ready);
      }
    }

    /** The loop over sel->next. */
    method ScanReported(currTime: nat) returns (exit: Exit, ghost seen: seq<Ev>, ghost loads: seq<bool>)
      requires InStep(readyFds) && BooksInOrder(readyFds, |sel.Pending()|, currTime)
      modifies this, sel, done, rand
      ensures exit.Returned? ==> AtReturn() && exit.why == DoneInScan && seen != [] && IsDue(old(log), seen[|seen| - 1])
      ensures exit.Continues? ==> InStep(readyFds) && sel.Pending() == [] && BooksInOrder(readyFds, 0, currTime)
      ensures Scanned(old(Acc()), old(readyFds), Acc(), readyFds, seen, currTime)
      ensures EvFds(seen) <= old(FdSeq(sel.Pending())) && (exit.Continues? ==> EvFds(seen) == old(FdSeq(sel.Pending())))
      ensures done.loads == old(done.loads) + loads && ScanCalls(exit, old(log), seen, loads)
      ensures rand.draws == old(rand.draws) + Draws(Timeouts(seen))
    {
      hide InOrder, AtLeast, Scanned, IsDue, DueTime, Reported, InStep, EvFds, FdSeq, AllCalm, DueNow, Unset, FoundSet;
      hide ScanCalls, Timeouts, Draws;
      InStepIsValid(readyFds);
      ghost var a, ready0, all := Acc(), readyFds, FdSeq(sel.Pending());
      seen, loads := [], [];
      ScannedNothing(a, readyFds, currTime);
      SeenNone(all);
      NothingSeen(a.log);
      DrawsTogether(rand.draws, [], []);
      while true
        invariant InStep(readyFds) && sel.Valid()
        invariant BooksInOrder(readyFds, |sel.Pending()|, currTime)
        invariant Scanned(a, ready0, Acc(), readyFds, seen, currTime)
        invariant EvFds(seen) + FdSeq(sel.Pending()) == all
        invariant done.loads == old(done.loads) + loads && ScanCalls(Continues, a.log, seen, loads)
        invariant rand.draws == old(rand.draws) + Draws(Timeouts(seen))
        decreases |sel.Pending()|
      {
        ghost var mid, ready := Acc(), readyFds;
        ghost var pending := FdSeq(sel.Pending());
        ghost var e;
        var found, listed;
        found, listed, e := ScanNext(currTime);
        InStepIsValid(readyFds);
        if !found {
          SeenAll(seen, sel.Pending());
          return Continues, seen, loads;
        }
        ScannedOne(a, ready0, mid, ready, seen, currTime, e);
        SeenNext(seen, e, pending, FdSeq(sel.Pending()));
        OneMoreLook(a.log, seen, e, loads);
        DrawsTogether(old(rand.draws), Timeouts(seen), [e.timeout]);
        seen := seen + [e];
        if listed {
          var isSet := done.Load();
          Grouped(old(done.loads), loads, [isSet]);
          loads := loads + [isSet];
          if isSet {
            InOrderIsAtLeast(Acc(), readyFds, |sel.Pending()|, currTime, timeoutMin, timeoutMax);
            return Returned(DoneInScan), seen, loads;
          }
        }
      }
    }

    lemma DrawsTogether(before: seq<nat>, timeouts: seq<nat>, more: seq<nat>)
      ensures before + Draws(timeouts) + Draws(more) == before + Draws(timeouts + more)
      ensures Draws([]) == []
    {
    }

    lemma InStepIsValid(ready: seq<int>)
      requires InStep(ready)
      ensures sel.Valid() && (sel.epoll.intact ==> AllCalm(log))
    {
    }

    /** ping: receives the whole message and sends it back, or fails. */
    method Ping(fd: int) returns (echo: Echo)
      modifies sel.epoll`quiet, net
      ensures sel.epoll.quiet == if echo.NothingReceived? then old(sel.epoll.quiet) else old(sel.epoll.quiet) - {fd}
      ensures net.answers == old(net.answers) + EchoCalls(fd, echo)
    {
      var received := net.Try(Receive, fd);
      if !received { return NothingReceived; }
      sel.epoll.Rearm(fd);
      var written := net.Try(Send, fd);
      echo := if written then Echoed else NothingWritten;
    }

    /** What a successful ping of the first descriptor of `ready` leaves in the books. */
    method Answer(fd: int, ghost ready: seq<int>) returns (ghost e: Ev)
      requires ready != [] && fd == ready[0] && BooksInOrder(ready, 0, clock.now)
      modifies this, clock
      ensures old(clock.now) <= clock.now
      ensures BooksInOrder(ready[1..], 0, clock.now) && readyFds == old(readyFds) && waitQueue == old(waitQueue)
      ensures e == Pinged(fd, old(clock.now), clock.now) && Acc() == Answered(old(Acc()), e)
    {
      hide InOrder;
      ghost var a, start := Acc(), clock.now;
      var stamp := clock.Read();
      lastTime := lastTime[fd := stamp];
      messCount := messCount[fd := Get(messCount, fd) + 1];
      e := Pinged(fd, start, stamp);
      log := log + [e];
      AnsweredInOrder(a, e, ready, start, timeoutMin, timeoutMax);
      assert Acc() == Answered(a, e);
    }

    /** The body of the loop over ready_fds: done is read, and the descriptor is pinged. */
    method PingNext(i: nat) returns (exit: Exit, ghost e: Ev)
      requires i < |readyFds| && InStep(readyFds[i..]) && sel.Pending() == []
      requires BooksInOrder(readyFds[i..], 0, clock.now)
      modifies this, clock, sel.epoll`quiet, done, net
      ensures sel.Pending() == [] && readyFds == old(readyFds) && old(clock.now) <= clock.now
      ensures exit.Continues? ==>
        && InStep(readyFds[i + 1..]) && BooksInOrder(readyFds[i + 1..], 0, clock.now)
        && e.Pinged? && e.fd == readyFds[i] && Acc() == Answered(old(Acc()), e)
      ensures exit.Returned? ==>
        && AtReturn() && Acc() == old(Acc())
        && (exit.why.DoneAtPing? || exit.why.NotReceived? || exit.why.NotWritten?)
      ensures done.loads == old(done.loads) + [exit == Returned(DoneAtPing)]
      ensures net.answers == old(net.answers) + PingTransfers(readyFds[i], exit)
    {
      hide InOrder, AtLeast, PingedAll, UnreadFds, OnePlaceEach, AllCalm, EchoCalls;
      var fd := readyFds[i];
      ghost var ready := readyFds[i..];
      e := Seen(0, 0, 0, None);
      InOrderIsAtLeast(Acc(), ready, 0, clock.now, timeoutMin, timeoutMax);
      PlacedIn(Acc(), ready, 0, clock.now, timeoutMin, timeoutMax);
      assert readyFds[i + 1..] == ready[1..];
      var isSet := done.Load();
      if isSet { return Returned(DoneAtPing), e; }
      if sel.epoll.intact {
        PingMoves(sel.epoll.quiet, waitQueue, ready);
      }
      var echo := Ping(fd);
      if !echo.Echoed? { return Returned(if echo.NothingReceived? then NotReceived else NotWritten), e; }
      ghost var mid := Acc();
      e := Answer(fd, ready);
      exit := Continues;
      if sel.epoll.intact {
        StaysCalm(mid.log, e, mid.queue, ready);
      }
    }

    /** The loop over ready_fds. */
    method PingAll()
        returns (exit: Exit, ghost pinged: seq<Ev>, ghost loads: seq<bool>, ghost transfers: seq<Answer>)
      requires InStep(readyFds) && sel.Pending() == [] && BooksInOrder(readyFds, 0, clock.now)
      modifies this, clock, sel.epoll`quiet, done, net
      ensures exit.Returned? ==> AtReturn() && |pinged| < |readyFds|
      ensures exit.Continues? ==> AtLoopHead() && |pinged| == |readyFds|
      ensures |pinged| <= |readyFds| && PingedAll(old(Acc()), Acc(), readyFds[..|pinged|], pinged)
      ensures readyFds == old(readyFds) && sel.epoll.calls == old(sel.epoll.calls) && old(clock.now) <= clock.now
      ensures done.loads == old(done.loads) + loads && net.answers == old(net.answers) + transfers
      ensures PingCalls(exit, readyFds, |pinged|, loads, transfers)
    {
      hide InOrder, AtLeast, PingedAll, InStep, AllCalm, PingTransfers, Transfers, Unset, PingCalls, Answered;
      var i := 0;
      pinged, loads, transfers := [], [], [];
      ghost var a := Acc();
      PingedNothing(a);
      NothingPinged(readyFds);
      InStepIsValid(readyFds);
      while i < |readyFds|
        invariant 0 <= i <= |readyFds| && sel.Valid() && sel.Pending() == []
        invariant InStep(readyFds[i..]) && BooksInOrder(readyFds[i..], 0, clock.now)
        invariant |pinged| == i && PingedAll(a, Acc(), readyFds[..i], pinged)
        invariant readyFds == old(readyFds) && old(clock.now) <= clock.now
        invariant done.loads == old(done.loads) + loads && net.answers == old(net.answers) + transfers
        invariant Unset(loads) && |loads| == i && transfers == Transfers(readyFds[..i])
      {
        InStepIsValid(readyFds[i..]);
        ghost var mid, e := Acc(), Seen(0, 0, 0, None);
        exit, e := PingNext(i);
        OneMorePing(readyFds, i, loads, transfers, exit);
        Grouped(old(done.loads), loads, [exit == Returned(DoneAtPing)]);
        Grouped(old(net.answers), transfers, PingTransfers(readyFds[i], exit));
        loads := loads + [exit == Returned(DoneAtPing)];
        transfers := transfers + PingTransfers(readyFds[i], exit);
        if exit.Returned? { return; }
        InStepIsValid(readyFds[i + 1..]);
        PingedOne(a, mid, readyFds[..i], pinged, e);
        assert readyFds[..i + 1] == readyFds[..i] + [readyFds[i]];
        pinged := pinged + [e];
        i := i + 1;
      }
      assert readyFds[i..] == [] && readyFds[..i] == readyFds;
      exit := Continues;
      AllPinged(readyFds, loads, transfers);
      ListIsDone();
    }

    lemma ListIsDone()
      requires InStep([]) && BooksInOrder([], 0, clock.now) && sel.Pending() == []
      ensures AtLoopHead()
    {
    }

    /** sel->wait, with its record. */
    method AwaitReports(asked: int, ghost asOf: nat) returns (ok: bool, ghost w: WaitMade)
      requires sel.Valid()
      modifies sel, sel.events, sel.epoll`quiet, sel.epoll`signals, sel.epoll`calls, sel.epoll`failures,
        clock
      ensures w.asked == asked && w.asOf == asOf && (ok <==> !w.Failed())
      ensures WaitCalls(w.calls, w.asked) && sel.epoll.calls == old(sel.epoll.calls) + w.calls
      ensures sel.Valid() && old(clock.now) <= clock.now
      ensures ok ==> sel.epoll.quiet == old(sel.epoll.quiet) + FdsOf(sel.Pending())
      ensures ok ==> sel.Pending() == w.Answer()
      ensures ok && sel.epoll.intact ==> forall e <- sel.Pending() :: e.fd !in old(sel.epoll.quiet)
    {
      hide WaitCalls, FdsOf, AnswerOf;
      ghost var made;
      ok, made := sel.Wait(clock, asked);
      w := WaitMade(made, asked, asOf);
    }

    /** sel->wait, for as long as the earliest deadline allows. */
    method Sleep() returns (ok: bool, ghost w: WaitMade)
      requires AtLoopHead()
      modifies sel, sel.events, sel.epoll`quiet, sel.epoll`signals, sel.epoll`calls, sel.epoll`failures,
        clock
      ensures old(clock.now) <= w.asOf && WithinDeadlines(waitQueue, w.asked, w.asOf) && (ok <==> !w.Failed())
      ensures WaitCalls(w.calls, w.asked) && sel.epoll.calls == old(sel.epoll.calls) + w.calls
      ensures sel.Valid() && old(clock.now) <= clock.now
      ensures ok ==> sel.epoll.quiet == old(sel.epoll.quiet) + FdsOf(sel.Pending())
      ensures ok ==> sel.Pending() == w.Answer()
      ensures ok && sel.epoll.intact ==> forall e <- sel.Pending() :: e.fd !in old(sel.epoll.quiet)
    {
      hide InOrder, PollTimeout, WithinDeadlines, WaitCalls, UnreadFds, OnePlaceEach, AllCalm, FdsOf, AnswerOf;
      ghost var start := clock.now;
      IdleIsWithin();
      if waitQueue != multiset{} {
        var currTime := clock.Read();
        var top := Top(waitQueue);
        var pollTimeout := PollTimeout(top.readyTime, currTime);
        PollTimeoutIsShort(Acc(), currTime, pollTimeout, top, start, timeoutMin, timeoutMax);
        ok, w := AwaitReports(pollTimeout, currTime);
      } else {
        ok, w := AwaitReports(IDLE_WAIT_NS, clock.now);
      }
    }

    /** The drain of the expired entries into ready_fds. */
    method DrainQueue(currTime: nat) returns (ghost items: seq<FdTimeout>)
      requires BooksInOrder([], 0, currTime)
      modifies this`waitQueue, this`readyFds
      ensures BooksInOrder(readyFds, 0, currTime)
      ensures Drained(old(waitQueue), waitQueue, items, currTime) && readyFds == Fds(items)
    {
      hide InOrder, Drained;
      ghost var a := Acc();
      waitQueue, readyFds, items := DrainExpired(waitQueue, [], currTime);
      assert [] + Fds(items) == Fds(items);
      DrainedInOrder(a, waitQueue, items, 0, currTime, timeoutMin, timeoutMax);
      assert Acc() == a.(queue := waitQueue);
    }

    /** The wait at the head of the loop, and the drain after it. */
    method WaitForReports() returns (ok: bool, currTime: nat, ghost w: WaitMade, ghost items: seq<FdTimeout>)
      requires AtLoopHead()
      modifies this`waitQueue, this`readyFds, sel, sel.events, sel.epoll`quiet, sel.epoll`signals, sel.epoll`calls,
        sel.epoll`failures, clock
      ensures old(clock.now) <= w.asOf && WithinDeadlines(old(waitQueue), w.asked, w.asOf) && (ok <==> !w.Failed())
      ensures WaitCalls(w.calls, w.asked) && sel.epoll.calls == old(sel.epoll.calls) + w.calls
      ensures old(clock.now) <= clock.now
      ensures !ok ==> AtReturn() && waitQueue == old(waitQueue)
      ensures ok ==> DistinctFds(w.Answer())
      ensures ok ==>
        && currTime == clock.now && InStep(readyFds) && BooksInOrder(readyFds, 0, currTime)
        && Drained(old(waitQueue), waitQueue, items, currTime) && readyFds == Fds(items) && sel.Pending() == w.Answer()
    {
      hide InOrder, AtLeast, WithinDeadlines, WaitCalls, UnreadFds, OnePlaceEach, AllCalm;
      items, currTime := [], 0;
      readyFds := [];
      ghost var start, quiet, queue := clock.now, sel.epoll.quiet, waitQueue;
      InOrderIsAtLeast(Acc(), [], 0, start, timeoutMin, timeoutMax);
      ok, w := Sleep();
      if !ok { return; }
      currTime := clock.Read();
      TimePasses(Acc(), [], 0, start, currTime, timeoutMin, timeoutMax);
      items := DrainQueue(currTime);
      if sel.epoll.intact {
        WaitMoves(quiet, queue, waitQueue, items, sel.Pending());
      }
    }

    /** The rest of a pass, once the reports have been counted. */
    method LookAndPing(currTime: nat, ghost before: Account, ghost begun: Pass) returns (exit: Exit, ghost p: Pass)
      requires InStep(readyFds) && BooksInOrder(readyFds, |sel.Pending()|, currTime) && currTime == clock.now
      requires PassBegun(before, begun) && begun.pinged == [] && begun.now == currTime
      requires begun.loads == [false] && begun.transfers == []
      requires sel.Pending() == begun.wait.Answer() && readyFds == Fds(begun.items) && Acc() == Counted(before, begun)
      modifies this, clock, sel, sel.epoll`quiet, done, rand, net
      ensures exit.Returned? ==> AtReturn() && PartOfPass(before, Acc(), p, exit.why)
      ensures exit.Continues? ==> AtLoopHead() && CompletePass(before, Acc(), p)
      ensures p.wait == begun.wait && sel.epoll.calls == old(sel.epoll.calls) && old(clock.now) <= clock.now
      ensures CallsOfPass(before.log, p, exit) && [false] <= p.loads
      ensures done.loads == old(done.loads) + p.loads[1..] && net.answers == old(net.answers) + p.transfers
      ensures rand.draws == old(rand.draws) + Draws(Timeouts(p.seen))
    {
      hide InOrder, AtLeast, Scanned, PingedAll, CompletePass, PartOfPass, UnreadFds, OnePlaceEach, AllCalm, PassBegun;
      hide CallsOfPass, PingCalls, ScanCalls, Unset, FoundSet, Timeouts, Draws, Transfers, DueNow, AnswerOf, FdSeq;
      hide EvFds, FdsIn, IsDue;
      ghost var seen, pinged, scan, loads, transfers;
      exit, seen, scan := ScanReported(currTime);
      p := begun.(seen := seen, loads := [false] + scan);
      BegunIsBegun(before, begun, p);
      PassScanned(before, Acc(), readyFds, p);
      CallsBegun(before.log, p, exit, scan);
      if exit.Returned? { return; }
      ghost var scanned := Acc();
      exit, pinged, loads, transfers := PingAll();
      PassPinged(before, scanned, Acc(), readyFds, p, pinged, if exit.Returned? then exit.why else DoneAtPing);
      NoOtherReason(exit, readyFds, |pinged|, loads, transfers);
      CallsTogether(before.log, p.(pinged := pinged), exit, p.loads, loads, transfers);
      Grouped(old(done.loads), scan, loads);
      p := p.(pinged := pinged, loads := p.loads + loads, transfers := transfers);
    }

    /** The first part of a pass: the wait, the drain, done, and the count of the reports. */
    method BeginPass() returns (exit: Exit, currTime: nat, ghost p: Pass)
      requires AtLoopHead()
      modifies this, sel, sel.events, sel.epoll`quiet, sel.epoll`signals, sel.epoll`calls, sel.epoll`failures, clock
      modifies done
      ensures exit.Returned? ==>
        AtReturn() && PartOfPass(old(Acc()), Acc(), p, exit.why) && CallsOfPass(old(log), p, exit)
      ensures exit.Continues? ==>
        && InStep(readyFds) && BooksInOrder(readyFds, |sel.Pending()|, currTime) && currTime == clock.now
        && PassBegun(old(Acc()), p) && p.now == currTime && p.loads == [false]
        && sel.Pending() == p.wait.Answer() && readyFds == Fds(p.items) && Acc() == Counted(old(Acc()), p)
      ensures p.seen == [] && p.pinged == [] && p.transfers == [] && old(clock.now) <= clock.now
      ensures sel.epoll.calls == old(sel.epoll.calls) + p.wait.calls && done.loads == old(done.loads) + p.loads
    {
      hide InOrder, AtLeast, Drained, WaitCalls, WithinDeadlines, CompletePass, PartOfPass, UnreadFds, OnePlaceEach;
      hide AllCalm, DistinctFds, CallsOfPass, AnswerOf;
      ghost var before := Acc();
      var ok;
      ghost var w, items;
      ok, currTime, w, items := WaitForReports();
      p := Pass(w, currTime, waitQueue, items, [], [], [], []);
      exit := Returned(WaitFailed);
      PassNotBegun(before, Acc(), p);
      NoReadings(before.log, p);
      if !ok { return; }
      InOrderIsAtLeast(Acc(), readyFds, 0, currTime, timeoutMin, timeoutMax);
      var isSet := done.Load();
      p := p.(loads := [isSet]);
      exit := Returned(DoneAfterWait);
      PassNotBegun(before, Acc(), p);
      if isSet { return; }
      exit := Continues;
      var count := sel.ReadyCount();
      CountReports(Acc(), readyFds, count, currTime, timeoutMin, timeoutMax);
      mcount := mcount + count;
    }

    /** One pass of the outer loop: its record says what it waited for, looked at, deferred and pinged. */
    method Iterate() returns (exit: Exit, ghost p: Pass)
      requires AtLoopHead()
      modifies this, sel, sel.events, sel.epoll`quiet, sel.epoll`signals, sel.epoll`calls, sel.epoll`failures, clock
      modifies done, rand, net
      ensures exit.Returned? ==> AtReturn() && PartOfPass(old(Acc()), Acc(), p, exit.why)
      ensures exit.Continues? ==> AtLoopHead() && CompletePass(old(Acc()), Acc(), p)
      ensures CallsOfPass(old(log), p, exit) && old(clock.now) <= clock.now
      ensures sel.epoll.calls == old(sel.epoll.calls) + p.wait.calls && done.loads == old(done.loads) + p.loads
      ensures net.answers == old(net.answers) + p.transfers
      ensures rand.draws == old(rand.draws) + Draws(Timeouts(p.seen))
    {
      hide InOrder, AtLeast, CompletePass, PartOfPass, PassBegun, CallsOfPass, InStep, Draws, AnswerOf;
      ghost var before := Acc();
      var currTime;
      exit, currTime, p := BeginPass();
      NothingSeen(before.log);
      DrawsTogether(old(rand.draws), [], []);
      if exit.Returned? { return; }
      exit, p := LookAndPing(currTime, before, p);
      assert p.loads == [false] + p.loads[1..];
      Grouped(old(done.loads), [false], p.loads[1..]);
    }

    /** worker_thread after the barrier, stopped at the loop head after the given number of passes. */
    method Run(passes: nat)
        returns (exit: Exit, ghost records: seq<Pass>, ghost accounts: seq<Account>, ghost nows: seq<nat>)
      requires AtLoopHead()
      modifies this, sel, sel.events, sel.epoll`quiet, sel.epoll`signals, sel.epoll`calls, sel.epoll`failures, clock
      modifies done, rand, net
      ensures exit.Returned? ==> AtReturn() && 0 < |records| <= passes
      ensures exit.Continues? ==> AtLoopHead() && |records| == passes
      ensures |accounts| == |records| + 1 && Chain(accounts, records, exit)
      ensures accounts[0] == old(Acc()) && accounts[|records|] == Acc()
      ensures HeadsInOrder(accounts, nows, exit, timeoutMin, timeoutMax)
      ensures sel.epoll.intact ==> forall a <- accounts :: AllCalm(a.log)
      ensures sel.epoll.calls == old(sel.epoll.calls) + Gathered(records, CallsIn)
      ensures done.loads == old(done.loads) + Gathered(records, LoadsIn)
      ensures net.answers == old(net.answers) + Gathered(records, TransfersIn)
      ensures rand.draws == old(rand.draws) + Draws(Gathered(records, TimeoutsIn))
    {
      hide InOrder, AtLeast, InStep, CompletePass, PartOfPass, HeadsInOrder, AllCalm, CallsOfPass, Timeouts, Draws;
      hide Chain, Gathered;
      records, accounts, nows := [], [Acc()], [clock.now];
      FirstHead(Acc(), clock.now, timeoutMin, timeoutMax);
      HeadIsCalm();
      FirstAccount(Acc());
      NothingGathered(CallsIn);
      NothingGathered(LoadsIn);
      NothingGathered(TransfersIn);
      NothingGathered(TimeoutsIn);
      DrawsTogether(rand.draws, [], []);
      for n := 0 to passes
        invariant AtLoopHead() && |records| == n
        invariant |accounts| == n + 1 && Chain(accounts, records, Continues)
        invariant accounts[0] == old(Acc()) && accounts[n] == Acc()
        invariant |nows| == n + 1 && nows[n] == clock.now
        invariant HeadsInOrder(accounts, nows, Continues, timeoutMin, timeoutMax)
        invariant sel.epoll.intact ==> forall a <- accounts :: AllCalm(a.log)
        invariant sel.epoll.calls == old(sel.epoll.calls) + Gathered(records, CallsIn)
        invariant done.loads == old(done.loads) + Gathered(records, LoadsIn)
        invariant net.answers == old(net.answers) + Gathered(records, TransfersIn)
        invariant rand.draws == old(rand.draws) + Draws(Gathered(records, TimeoutsIn))
      {
        ghost var p;
        exit, p := Iterate();
        GatherOne(old(sel.epoll.calls), records, p, CallsIn);
        GatherOne(old(done.loads), records, p, LoadsIn);
        GatherOne(old(net.answers), records, p, TransfersIn);
        GatherOne([], records, p, TimeoutsIn);
        DrawsTogether(old(rand.draws), Gathered(records, TimeoutsIn), Timeouts(p.seen));
        OneMorePass(accounts, records, Acc(), p, exit);
        ghost var heads := accounts;
        records, accounts := records + [p], accounts + [Acc()];
        if exit.Returned? {
          AfterLastHead(heads, nows, Acc(), exit.why, timeoutMin, timeoutMax);
          return;
        }
        HeadIsCalm();
        OneMoreHead(heads, nows, Acc(), clock.now, timeoutMin, timeoutMax);
        nows := nows + [clock.now];
      }
      exit := Continues;
    }

    lemma HeadIsCalm()
      requires AtLoopHead()
      ensures sel.epoll.intact ==> AllCalm(log)
    {
    }
  }
}
