/** The books of a worker thread: how its queue, lists, maps and counters match what has happened. */
module Books {
  import opened Totals
  import opened WaitQueue
  import opened History
  import opened Words64

  /** Unsigned 64-bit addition. */
  function Add64(a: nat, b: nat): (r: nat) { (a + b) % U64 }

  /** last_time_for_socket, lat_map and mess_count_for_sock hold what the history says. */
  ghost predicate MapsMatch(log: seq<Ev>, lastTime: map<int, nat>, latMap: map<bv64, nat>, messCount: map<int, nat>) {
    && (forall fd :: fd in messCount <==> PingCount(log, fd) > 0)
    && (forall fd :: Get(messCount, fd) == PingCount(log, fd))
    && (forall fd :: fd in lastTime <==> SeenCount(log, fd) > 0)
    && (forall fd :: Get(lastTime, fd) == LastTime(log, fd))
    && (forall b :: Get(latMap, b) == BucketCount(log, b))
  }

  /** How often fd is in the queue or in the given list. */
  ghost function Places(queue: multiset<FdTimeout>, ready: seq<int>, fd: int): nat {
    FdsIn(queue)[fd] + multiset(ready)[fd]
  }

  /** Each reported event is answered by a ping, or has a place of its own in the queue or in the given list. */
  ghost predicate EventsPlaced(log: seq<Ev>, queue: multiset<FdTimeout>, ready: seq<int>) {
    forall fd :: SeenCount(log, fd) == PingCount(log, fd) + Places(queue, ready, fd)
  }

  /** The pause drawn last is over, unless its due time wrapped around. */
  predicate MayPing(log: seq<Ev>, fd: int, now: nat) {
    && LastDraw(log, fd).Some?
    && (LastTime(log, fd) + LastDraw(log, fd).value < U64 ==> LastTime(log, fd) + LastDraw(log, fd).value <= now)
  }

  predicate HasDueTime(log: seq<Ev>, x: FdTimeout) {
    LastDraw(log, x.fd).Some? && x.readyTime == Add64(LastTime(log, x.fd), LastDraw(log, x.fd).value)
  }

  /** Due times of a calm descriptor are as drawn, and it may be pinged when it is listed. */
  ghost predicate Paced(log: seq<Ev>, queue: multiset<FdTimeout>, ready: seq<int>, now: nat, fd: int) {
    Calm(log, fd) ==>
      && (forall x :: x in queue && x.fd == fd ==> HasDueTime(log, x))
      && (fd in ready ==> MayPing(log, fd, now))
  }

  /** Nothing is stamped in the future, due times are 64-bit numbers, and the pauses of calm descriptors are kept. */
  ghost predicate Timely(log: seq<Ev>, queue: multiset<FdTimeout>, ready: seq<int>, now: nat) {
    && (forall fd :: LastTime(log, fd) <= now)
    && (forall x :: x in queue ==> x.readyTime < U64)
    && (forall fd :: Paced(log, queue, ready, now, fd))
  }

  // ---------------------------------------------------------------- what each change does

  /** last_time_for_socket and lat_map after a report. */
  function TimesAfter(lastTime: map<int, nat>, fd: int, bucket: Option<bv64>): map<int, nat> {
    if bucket.None? then lastTime[fd := 0] else lastTime
  }

  function LatenciesAfter(latMap: map<bv64, nat>, bucket: Option<bv64>): map<bv64, nat> {
    if bucket.Some? then latMap[bucket.value := Get(latMap, bucket.value) + 1] else latMap
  }

  lemma SeenMaps(log: seq<Ev>, e: Ev, lastTime: map<int, nat>, latMap: map<bv64, nat>, messCount: map<int, nat>)
    requires MapsMatch(log, lastTime, latMap, messCount)
    requires e.Seen? && (e.bucket.None? <==> e.fd !in lastTime)
    ensures MapsMatch(log + [e], TimesAfter(lastTime, e.fd, e.bucket), LatenciesAfter(latMap, e.bucket), messCount)
  {
    AfterSeen(log, e);
    assert Get(lastTime, e.fd) == LastTime(log, e.fd);
  }

  lemma SeenTotals(e: Ev, lastTime: map<int, nat>, latMap: map<bv64, nat>)
    requires e.Seen? && (e.bucket.None? <==> e.fd !in lastTime)
    ensures Total(LatenciesAfter(latMap, e.bucket)) == Total(latMap) + (if e.bucket.Some? then 1 else 0)
    ensures |TimesAfter(lastTime, e.fd, e.bucket)| == |lastTime| + (if e.bucket.None? then 1 else 0)
  {
    hide Total, Get;
    if e.bucket.Some? {
      TotalIncrement(latMap, e.bucket.value);
    }
  }

  lemma PingMaps(log: seq<Ev>, e: Ev, lastTime: map<int, nat>, latMap: map<bv64, nat>, messCount: map<int, nat>)
    requires MapsMatch(log, lastTime, latMap, messCount)
    requires e.Pinged? && e.fd in lastTime
    ensures MapsMatch(log + [e], lastTime[e.fd := e.stamp], latMap, messCount[e.fd := Get(messCount, e.fd) + 1])
  {
    AfterPing(log, e);
  }

  lemma ListedOne(ready: seq<int>, fd: int)
    ensures multiset(ready + [fd]) == multiset(ready) + multiset{fd}
  {
  }

  /** A reported descriptor goes into the queue or onto the list. */
  lemma SeenPlaced(log: seq<Ev>, e: Ev, queue: multiset<FdTimeout>, ready: seq<int>, due: nat)
    requires EventsPlaced(log, queue, ready) && e.Seen?
    ensures EventsPlaced(log + [e], queue + multiset{FdTimeout(e.fd, due)}, ready)
    ensures EventsPlaced(log + [e], queue, ready + [e.fd])
  {
    hide FdsIn;
    AfterSeen(log, e);
    Pushed(queue, FdTimeout(e.fd, due));
    ListedOne(ready, e.fd);
  }

  /** A descriptor that is still calm after a report had no place before it. */
  lemma CalmHadNoPlace(log: seq<Ev>, e: Ev, queue: multiset<FdTimeout>, ready: seq<int>)
    requires EventsPlaced(log, queue, ready) && e.Seen? && Calm(log + [e], e.fd)
    ensures Calm(log, e.fd) && e.fd !in ready && forall x :: x in queue ==> x.fd != e.fd
  {
    AfterSeen(log, e);
    CalmAppend(log, e, e.fd);
    assert Places(queue, ready, e.fd) == 0;
    forall x | x in queue ensures x.fd != e.fd {
      HasEntry(queue, x);
    }
    assert e.fd !in multiset(ready);
  }

  lemma SeenPaced(log: seq<Ev>, e: Ev, queue: multiset<FdTimeout>, ready: seq<int>, now: nat, fd: int)
    requires EventsPlaced(log, queue, ready) && Paced(log, queue, ready, now, fd) && e.Seen?
    ensures var due := Add64(LastTime(log, e.fd), e.timeout);
      && Paced(log + [e], queue + multiset{FdTimeout(e.fd, due)}, ready, now, fd)
      && (due <= now && LastTime(log, e.fd) <= now ==> Paced(log + [e], queue, ready + [e.fd], now, fd))
  {
    AfterSeen(log, e);
    CalmAppend(log, e, fd);
    if Calm(log + [e], fd) && fd == e.fd {
      CalmHadNoPlace(log, e, queue, ready);
    }
    hide EventsPlaced, Calm, LastTime, LastDraw, SeenCount, PingCount;
  }

  lemma SeenTimely(log: seq<Ev>, e: Ev, queue: multiset<FdTimeout>, ready: seq<int>, now: nat)
    requires Timely(log, queue, ready, now) && EventsPlaced(log, queue, ready) && e.Seen?
    ensures var due := Add64(LastTime(log, e.fd), e.timeout);
      && Timely(log + [e], queue + multiset{FdTimeout(e.fd, due)}, ready, now)
      && (due <= now ==> Timely(log + [e], queue, ready + [e.fd], now))
  {
    hide EventsPlaced, Paced;
    AfterSeen(log, e);
    forall fd
      ensures var due := Add64(LastTime(log, e.fd), e.timeout);
        && Paced(log + [e], queue + multiset{FdTimeout(e.fd, due)}, ready, now, fd)
        && (due <= now ==> Paced(log + [e], queue, ready + [e.fd], now, fd))
    {
      SeenPaced(log, e, queue, ready, now, fd);
    }
  }

  lemma FirstListed(ready: seq<int>)
    requires ready != []
    ensures multiset(ready) == multiset{ready[0]} + multiset(ready[1..])
  {
    assert ready == [ready[0]] + ready[1..];
  }

  /** The first listed descriptor is pinged. */
  lemma PingPlaced(log: seq<Ev>, e: Ev, queue: multiset<FdTimeout>, ready: seq<int>)
    requires EventsPlaced(log, queue, ready) && ready != [] && e.Pinged? && e.fd == ready[0]
    ensures EventsPlaced(log + [e], queue, ready[1..])
  {
    AfterPing(log, e);
    FirstListed(ready);
  }

  lemma PingPaced(log: seq<Ev>, e: Ev, queue: multiset<FdTimeout>, ready: seq<int>, now: nat, fd: int)
    requires EventsPlaced(log, queue, ready) && Paced(log, queue, ready, now, fd)
    requires ready != [] && e.Pinged? && e.fd == ready[0] && now <= e.stamp
    ensures Paced(log + [e], queue, ready[1..], e.stamp, fd)
  {
    AfterPing(log, e);
    CalmAppend(log, e, fd);
    FirstListed(ready);
    assert fd in ready[1..] ==> fd in ready;
    if Calm(log + [e], fd) && fd == e.fd {
      CalmOnce(log, queue, ready, fd);
      assert Places(queue, ready[1..], fd) == 0;
      forall x | x in queue ensures x.fd != fd {
        HasEntry(queue, x);
      }
      assert fd !in multiset(ready[1..]);
    }
    hide EventsPlaced, Calm, LastTime, LastDraw, SeenCount, PingCount;
  }

  /** A calm descriptor has at most one place. */
  lemma CalmOnce(log: seq<Ev>, queue: multiset<FdTimeout>, ready: seq<int>, fd: int)
    requires EventsPlaced(log, queue, ready) && Calm(log, fd)
    ensures Places(queue, ready, fd) <= 1
  {
    if log == [] {
      assert SeenCount(log, fd) == 0;
    }
  }

  lemma PingTimely(log: seq<Ev>, e: Ev, queue: multiset<FdTimeout>, ready: seq<int>, now: nat)
    requires Timely(log, queue, ready, now) && EventsPlaced(log, queue, ready)
    requires ready != [] && e.Pinged? && e.fd == ready[0] && now <= e.stamp
    ensures Timely(log + [e], queue, ready[1..], e.stamp)
  {
    hide EventsPlaced, Paced;
    AfterPing(log, e);
    forall fd ensures Paced(log + [e], queue, ready[1..], e.stamp, fd) {
      PingPaced(log, e, queue, ready, now, fd);
    }
  }

  /** Draining moves entries from the queue to the list. */
  lemma DrainPlaced(log: seq<Ev>, queue: multiset<FdTimeout>, items: seq<FdTimeout>)
    requires EventsPlaced(log, queue + multiset(items), [])
    ensures EventsPlaced(log, queue, Fds(items)) && |queue + multiset(items)| == |queue| + |items|
  {
    hide FdsIn;
    FdsInItems(queue, items);
  }

  lemma DrainTimely(log: seq<Ev>, before: multiset<FdTimeout>, queue: multiset<FdTimeout>, items: seq<FdTimeout>,
      now: nat)
    requires Timely(log, before, [], now) && Drained(before, queue, items, now)
    ensures Timely(log, queue, Fds(items), now)
  {
    hide Paced, LastTime;
    forall fd ensures Paced(log, queue, Fds(items), now, fd) {
      DrainPaced(log, before, queue, items, now, fd);
    }
  }

  lemma DrainPaced(log: seq<Ev>, before: multiset<FdTimeout>, queue: multiset<FdTimeout>, items: seq<FdTimeout>,
      now: nat, fd: int)
    requires Paced(log, before, [], now, fd) && Drained(before, queue, items, now)
    ensures Paced(log, queue, Fds(items), now, fd)
  {
    hide Calm, LastTime, LastDraw;
    if Calm(log, fd) && fd in Fds(items) {
      var i :| 0 <= i < |items| && items[i].fd == fd;
      assert items[i] in items && items[i] in multiset(items) && items[i] in before;
      assert HasDueTime(log, items[i]);
    }
  }

  /** For clock values in range, the comparison of due times honours the pause exactly if it cannot wrap. */
  lemma DueTimeIsExact(lastTime: nat, timeout: nat, now: nat)
    requires lastTime <= now < U64 && timeout < U64
    ensures (Add64(lastTime, timeout) <= now ==> lastTime + timeout <= now) <==> lastTime + timeout < U64
  {
    if lastTime + timeout >= U64 {
      assert Add64(lastTime, timeout) == lastTime + timeout - U64;
    }
  }

  // ---------------------------------------------------------------- the whole account

  /** The counters, maps and queue of worker_thread, and what has happened. */
  datatype Account = Account(mcount: nat, lastTime: map<int, nat>, latMap: map<bv64, nat>, messCount: map<int, nat>,
                             queue: multiset<FdTimeout>, log: seq<Ev>)

  /** The books are in order, with the given descriptors still to ping and reports still to look at. */
  ghost predicate InOrder(a: Account, ready: seq<int>, pending: nat, now: nat, tmin: nat, tmax: nat) {
    && Proper(a.log, tmin, tmax) && Latencies(a.log)
    && MapsMatch(a.log, a.lastTime, a.latMap, a.messCount)
    && EventsPlaced(a.log, a.queue, ready)
    && Timely(a.log, a.queue, ready, now)
    && a.mcount == SeenTotal(a.log) + pending
    && a.mcount == Total(a.messCount) + |a.queue| + |ready| + pending
    && a.mcount == Total(a.latMap) + |a.lastTime| + pending
  }

  /** After a return some reported descriptors may have been dropped on the way to their ping. */
  ghost predicate AtLeast(a: Account, tmin: nat, tmax: nat) {
    && Proper(a.log, tmin, tmax) && Latencies(a.log)
    && MapsMatch(a.log, a.lastTime, a.latMap, a.messCount)
    && (forall fd :: SeenCount(a.log, fd) >= PingCount(a.log, fd) + FdsIn(a.queue)[fd])
    && a.mcount >= SeenTotal(a.log)
    && a.mcount >= Total(a.messCount) + |a.queue|
    && a.mcount >= Total(a.latMap) + |a.lastTime|
  }

  lemma InOrderIsAtLeast(a: Account, ready: seq<int>, pending: nat, now: nat, tmin: nat, tmax: nat)
    requires InOrder(a, ready, pending, now, tmin, tmax)
    ensures AtLeast(a, tmin, tmax)
  {
  }

  /** lat_map is the histogram of the latencies measured so far. */
  lemma LatMapIsHistogram(a: Account, tmin: nat, tmax: nat, b: bv64)
    requires AtLeast(a, tmin, tmax) && InClock(a.log)
    ensures Get(a.latMap, b) == if b >= 64 then 0
      else
        LatencyCount(a.log, Pow2(Number(b)), Pow2(Number(b) + 1)) +
        (if b == 63 then LatencyCount(a.log, 0, 1) else 0)
  {
    hide Pow2, Number, Total, Proper, InClock, Latencies, SeenTotal, FdsIn;
    HistogramIsExact(a.log, b);
    assert Get(a.latMap, b) == BucketCount(a.log, b);
  }

  lemma TimePasses(a: Account, ready: seq<int>, pending: nat, now: nat, later: nat, tmin: nat, tmax: nat)
    requires InOrder(a, ready, pending, now, tmin, tmax) && now <= later
    ensures InOrder(a, ready, pending, later, tmin, tmax)
  {
    hide Total, Proper, Latencies, MapsMatch, EventsPlaced;
    forall fd ensures Paced(a.log, a.queue, ready, later, fd) {
      assert Paced(a.log, a.queue, ready, now, fd);
    }
  }

  /** mcount += ready_count(): the reports are counted before they are looked at. */
  lemma CountReports(a: Account, ready: seq<int>, count: nat, now: nat, tmin: nat, tmax: nat)
    requires InOrder(a, ready, 0, now, tmin, tmax)
    ensures InOrder(a.(mcount := a.mcount + count), ready, count, now, tmin, tmax)
  {
  }

  /** What last_time_for_socket says about a descriptor. */
  lemma LastTimeRead(a: Account, ready: seq<int>, pending: nat, now: nat, tmin: nat, tmax: nat, fd: int)
    requires InOrder(a, ready, pending, now, tmin, tmax)
    ensures Get(a.lastTime, fd) == LastTime(a.log, fd) <= now
    ensures fd in a.lastTime <==> SeenCount(a.log, fd) > 0
  {
  }

  /** A report is looked at: its latency is counted, and it is deferred or listed. */
  function Reported(a: Account, e: Ev, due: Option<nat>): Account
    requires e.Seen?
  {
    Account(a.mcount, TimesAfter(a.lastTime, e.fd, e.bucket), LatenciesAfter(a.latMap, e.bucket), a.messCount,
            if due.Some? then a.queue + multiset{FdTimeout(e.fd, due.value)} else a.queue, a.log + [e])
  }

  lemma ReportedInOrder(a: Account, e: Ev, due: Option<nat>, ready: seq<int>, pending: nat, now: nat, tmin: nat,
      tmax: nat)
    requires InOrder(a, ready, pending + 1, now, tmin, tmax)
    requires e.Seen? && e.at == now && tmin <= e.timeout <= tmax && (e.bucket.None? <==> e.fd !in a.lastTime)
    requires e.bucket.Some? ==> now >= Get(a.lastTime, e.fd) && LatencyBucket(now - Get(a.lastTime, e.fd),
      e.bucket.value)
    requires var d := Add64(Get(a.lastTime, e.fd), e.timeout); due == if d > now then Some(d) else None
    ensures InOrder(Reported(a, e, due), if due.Some? then ready else ready + [e.fd], pending, now, tmin, tmax)
  {
    hide LatencyBucket, Total, MapsMatch, EventsPlaced, Timely, Proper, Latencies, Add64, Get;
    hide LastTime, LastStamp, LastDraw, SeenCount, PingCount;
    LastTimeRead(a, ready, pending + 1, now, tmin, tmax, e.fd);
    var d := Add64(LastTime(a.log, e.fd), e.timeout);
    SeenMaps(a.log, e, a.lastTime, a.latMap, a.messCount);
    SeenTotals(e, a.lastTime, a.latMap);
    ProperAppend(a.log, e, tmin, tmax);
    LatenciesAppend(a.log, e);
    SeenPlaced(a.log, e, a.queue, ready, d);
    SeenTimely(a.log, e, a.queue, ready, now);
    AfterSeen(a.log, e);
  }

  /** A ping is answered. */
  function Answered(a: Account, e: Ev): Account
    requires e.Pinged?
  {
    a.(lastTime := a.lastTime[e.fd := e.stamp], messCount := a.messCount[e.fd := Get(a.messCount, e.fd) + 1],
       log := a.log + [e])
  }

  /** The ping of the first listed descriptor may follow. */
  lemma PingFollows(log: seq<Ev>, e: Ev, queue: multiset<FdTimeout>, ready: seq<int>, now: nat, tmin: nat, tmax: nat)
    requires EventsPlaced(log, queue, ready) && Timely(log, queue, ready, now)
    requires ready != [] && e.Pinged? && e.fd == ready[0] && e.start == now <= e.stamp
    ensures Follows(log, e, tmin, tmax) && SeenCount(log, e.fd) > 0
  {
    FirstListed(ready);
    assert e.fd in ready && Paced(log, queue, ready, now, e.fd);
    SeenIsDrawn(log, e.fd);
  }

  lemma AnsweredInOrder(a: Account, e: Ev, ready: seq<int>, now: nat, tmin: nat, tmax: nat)
    requires InOrder(a, ready, 0, now, tmin, tmax) && ready != []
    requires e.Pinged? && e.fd == ready[0] && e.start == now <= e.stamp
    ensures InOrder(Answered(a, e), ready[1..], 0, e.stamp, tmin, tmax)
  {
    hide Total, MapsMatch, Proper, Latencies, Get;
    PingFollows(a.log, e, a.queue, ready, now, tmin, tmax);
    LastTimeRead(a, ready, 0, now, tmin, tmax, e.fd);
    hide EventsPlaced, Timely, Follows;
    PingMaps(a.log, e, a.lastTime, a.latMap, a.messCount);
    TotalIncrement(a.messCount, e.fd);
    ProperAppend(a.log, e, tmin, tmax);
    LatenciesAppend(a.log, e);
    PingPlaced(a.log, e, a.queue, ready);
    PingTimely(a.log, e, a.queue, ready, now);
    AfterPing(a.log, e);
  }

  // ---------------------------------------------------------------- descriptors reported again too early

  /** No descriptor has been reported again before its last report was answered. */
  ghost predicate AllCalm(log: seq<Ev>) { forall fd :: Calm(log, fd) }

  lemma StaysCalm(log: seq<Ev>, e: Ev, queue: multiset<FdTimeout>, ready: seq<int>)
    requires AllCalm(log) && EventsPlaced(log, queue, ready)
    ensures e.Pinged? || Places(queue, ready, e.fd) == 0 ==> AllCalm(log + [e])
  {
    hide Places;
    if e.Pinged? || Places(queue, ready, e.fd) == 0 {
      forall fd ensures Calm(log + [e], fd) {
        CalmAppend(log, e, fd);
        if e.Seen? { AfterSeen(log, e); } else { AfterPing(log, e); }
        BalanceOfCalm(log, fd);
      }
    }
  }

  lemma BalanceOfCalm(log: seq<Ev>, fd: int)
    requires Calm(log, fd)
    ensures SeenCount(log, fd) <= PingCount(log, fd) + 1
  {
  }

  /** At a loop head: reports not answered yet are one for a waiting descriptor and none for any other. */
  ghost predicate ZeroOrOne(a: Account, fd: int) {
    SeenCount(a.log, fd) == PingCount(a.log, fd) + (if fd in FdsIn(a.queue) then 1 else 0)
  }

  /** The balance of a descriptor is zero or one exactly when it has at most one entry, as a calm one has. */
  lemma ZeroOrOneIff(a: Account, now: nat, tmin: nat, tmax: nat, fd: int)
    requires InOrder(a, [], 0, now, tmin, tmax)
    ensures ZeroOrOne(a, fd) <==> FdsIn(a.queue)[fd] <= 1
    ensures Calm(a.log, fd) ==> ZeroOrOne(a, fd)
  {
    assert Places(a.queue, [], fd) == FdsIn(a.queue)[fd];
    if Calm(a.log, fd) {
      CalmOnce(a.log, a.queue, [], fd);
    }
  }

  const NEW_ACCOUNT := Account(0, map[], map[], map[], multiset{}, [])

  lemma NewInOrder(now: nat, tmin: nat, tmax: nat)
    ensures InOrder(NEW_ACCOUNT, [], 0, now, tmin, tmax)
  {
    assert FdsIn(multiset{}) == multiset{};
  }

  /** A deferred report adds an entry, and keeps the books in order, whether or not its descriptor waits already. */
  lemma DeferredInOrder(a: Account, e: Ev, now: nat, tmin: nat, tmax: nat)
    requires InOrder(a, [], 0, now, tmin, tmax)
    requires e.Seen? && e.at == now && tmin <= e.timeout <= tmax && (e.bucket.None? <==> e.fd !in a.lastTime)
    requires e.bucket.Some? ==>
      now >= Get(a.lastTime, e.fd) && LatencyBucket(now - Get(a.lastTime, e.fd), e.bucket.value)
    requires Add64(Get(a.lastTime, e.fd), e.timeout) > now
    ensures var b := Reported(a.(mcount := a.mcount + 1), e, Some(Add64(Get(a.lastTime, e.fd), e.timeout)));
      && InOrder(b, [], 0, now, tmin, tmax) && b.mcount == a.mcount + 1
      && FdsIn(b.queue) == FdsIn(a.queue) + multiset{e.fd}
      && (e.fd in FdsIn(a.queue) ==> !ZeroOrOne(b, e.fd) && !Calm(b.log, e.fd))
  {
    hide InOrder, LatencyBucket, ZeroOrOne, Calm, Get, Add64, FdsIn;
    var due := Add64(Get(a.lastTime, e.fd), e.timeout);
    CountReports(a, [], 1, now, tmin, tmax);
    var counted := a.(mcount := a.mcount + 1);
    ReportedInOrder(counted, e, Some(due), [], 0, now, tmin, tmax);
    Pushed(a.queue, FdTimeout(e.fd, due));
    ZeroOrOneIff(Reported(counted, e, Some(due)), now, tmin, tmax, e.fd);
  }

  /** The books after a first report of fd, and after a second one, both deferred. */
  function ReportedOnce(fd: int, first: nat, draw: nat): Account {
    Reported(NEW_ACCOUNT.(mcount := 1), Seen(fd, first, draw, None), Some(Add64(0, draw)))
  }

  function ReportedTwice(fd: int, first: nat, second: nat, draw1: nat, draw2: nat, b: bv64): Account {
    Reported(ReportedOnce(fd, first, draw1).(mcount := 2), Seen(fd, second, draw2, Some(b)), Some(Add64(0, draw2)))
  }

  lemma OnceQueued(fd: int, first: nat, draw: nat, tmin: nat, tmax: nat)
    requires first < draw < U64 && tmin <= draw <= tmax
    ensures var a := ReportedOnce(fd, first, draw);
      && InOrder(a, [], 0, first, tmin, tmax) && a.mcount == 1 && a.lastTime == map[fd := 0] && FdsIn(a.queue)[fd] == 1
  {
    hide InOrder, FdsIn;
    NewInOrder(first, tmin, tmax);
    NoEntries();
    assert NEW_ACCOUNT.(mcount := NEW_ACCOUNT.mcount + 1) == NEW_ACCOUNT.(mcount := 1);
    DeferredInOrder(NEW_ACCOUNT, Seen(fd, first, draw, None), first, tmin, tmax);
  }

  lemma NoEntries()
    ensures FdsIn(multiset{}) == multiset{}
  {
  }

  /**
   The failing input: a descriptor that is reported again while it waits, as after a hang-up of its peer, has two
   entries. The books stay in order, both sums included, but its balance is two.
   */
  lemma TwiceQueued(fd: int, first: nat, second: nat, draw1: nat, draw2: nat, b: bv64, tmin: nat, tmax: nat)
    requires first <= second < draw1 < U64 && second < draw2 < U64
    requires tmin <= draw1 <= tmax && tmin <= draw2 <= tmax && LatencyBucket(second, b)
    ensures var a := ReportedTwice(fd, first, second, draw1, draw2, b);
      && InOrder(a, [], 0, second, tmin, tmax) && a.mcount == 2 && FdsIn(a.queue)[fd] == 2
      && !ZeroOrOne(a, fd) && !Calm(a.log, fd)
  {
    hide InOrder, LatencyBucket, ZeroOrOne, Calm, FdsIn, ReportedOnce;
    OnceQueued(fd, first, draw1, tmin, tmax);
    var once := ReportedOnce(fd, first, draw1);
    TimePasses(once, [], 0, first, second, tmin, tmax);
    assert once.(mcount := once.mcount + 1) == once.(mcount := 2);
    DeferredInOrder(once, Seen(fd, second, draw2, Some(b)), second, tmin, tmax);
  }

  // ---------------------------------------------------------------- what one pass of the loop does

  /** The descriptors of the events. */
  function EvFds(evs: seq<Ev>): (r: seq<int>)
    ensures |r| == |evs| && forall i :: 0 <= i < |r| ==> r[i] == evs[i].fd
  {
    seq(|evs|, i requires 0 <= i < |evs| => evs[i].fd)
  }

  /** When the descriptor of a report may be pinged again. */
  function DueTime(log: seq<Ev>, e: Ev): nat
    requires e.Seen?
  {
    Add64(LastTime(log, e.fd), e.timeout)
  }

  predicate IsDue(log: seq<Ev>, e: Ev) { e.Seen? && DueTime(log, e) <= e.at }

  /** The descriptors listed at once when the reports are looked at, in order. */
  function DueNow(log: seq<Ev>, seen: seq<Ev>): seq<int> {
    if seen == [] then []
    else
      var n := |seen| - 1;
      DueNow(log, seen[..n]) + (if IsDue(log, seen[n]) then [seen[n].fd] else [])
  }

  /** The entries put into the queue. */
  function Deferred(log: seq<Ev>, seen: seq<Ev>): multiset<FdTimeout> {
    if seen == [] then multiset{}
    else
      var n := |seen| - 1;
      Deferred(log, seen[..n]) +
      (if seen[n].Seen? && !IsDue(log, seen[n]) then multiset{FdTimeout(seen[n].fd, DueTime(log, seen[n]))}
       else multiset{})
  }

  /** What the loop over the reports has done so far, all at the same clock reading. */
  ghost predicate Scanned(before: Account, ready0: seq<int>, after: Account, ready: seq<int>, seen: seq<Ev>, now: nat) {
    && (forall e <- seen :: e.Seen? && e.at == now)
    && after.log == before.log + seen && (forall fd :: LastTime(after.log, fd) == LastTime(before.log, fd))
    && ready == ready0 + DueNow(before.log, seen) && after.queue == before.queue + Deferred(before.log, seen)
    && after.mcount == before.mcount && after.messCount == before.messCount
  }

  lemma ScannedNothing(a: Account, ready: seq<int>, now: nat)
    ensures Scanned(a, ready, a, ready, [], now)
  {
  }

  lemma DueNowAppend(log: seq<Ev>, seen: seq<Ev>, e: Ev)
    requires e.Seen?
    ensures if IsDue(log, e) then
        DueNow(log, seen + [e]) == DueNow(log, seen) + [e.fd] && Deferred(log, seen + [e]) == Deferred(log, seen)
      else
        && DueNow(log, seen + [e]) == DueNow(log, seen)
        && Deferred(log, seen + [e]) == Deferred(log, seen) + multiset{FdTimeout(e.fd, DueTime(log, e))}
  {
    hide IsDue, DueTime;
    assert (seen + [e])[..|seen|] == seen && (seen + [e])[|seen|] == e;
  }

  lemma ScannedOne(before: Account, ready0: seq<int>, mid: Account, ready: seq<int>, seen: seq<Ev>, now: nat, e: Ev)
    requires Scanned(before, ready0, mid, ready, seen, now) && e.Seen? && e.at == now
    ensures var due := if IsDue(mid.log, e) then None else Some(DueTime(mid.log, e));
      Scanned(before, ready0, Reported(mid, e, due), if due.None? then ready + [e.fd] else ready, seen + [e], now)
    ensures IsDue(mid.log, e) <==> IsDue(before.log, e)
  {
    hide *;
    SameDue(before, ready0, mid, ready, seen, now, e);
    DueNowAppend(before.log, seen, e);
    if IsDue(before.log, e) {
      ScannedListed(before, ready0, mid, ready, seen, now, e);
    } else {
      ScannedDeferred(before, ready0, mid, ready, seen, now, e);
    }
  }

  /** The reports looked at before do not change when e is due, nor does e itself change a time of a write. */
  lemma SameDue(before: Account, ready0: seq<int>, mid: Account, ready: seq<int>, seen: seq<Ev>, now: nat, e: Ev)
    requires Scanned(before, ready0, mid, ready, seen, now) && e.Seen?
    ensures DueTime(mid.log, e) == DueTime(before.log, e) && (IsDue(mid.log, e) <==> IsDue(before.log, e))
    ensures forall fd :: LastTime(mid.log + [e], fd) == LastTime(before.log, fd)
  {
    hide LastTime, DueNow, Deferred, SeenCount, PingCount, LastDraw, BucketCount, SeenTotal, Add64;
    AfterSeen(mid.log, e);
  }

  lemma ScannedListed(before: Account, ready0: seq<int>, mid: Account, ready: seq<int>, seen: seq<Ev>, now: nat, e: Ev)
    requires Scanned(before, ready0, mid, ready, seen, now) && e.Seen? && e.at == now
    requires DueNow(before.log, seen + [e]) == DueNow(before.log, seen) + [e.fd]
    requires Deferred(before.log, seen + [e]) == Deferred(before.log, seen)
    requires forall fd :: LastTime(mid.log + [e], fd) == LastTime(before.log, fd)
    ensures Scanned(before, ready0, Reported(mid, e, None), ready + [e.fd], seen + [e], now)
  {
    hide DueNow, Deferred, LastTime, TimesAfter, LatenciesAfter;
    assert before.log + seen + [e] == before.log + (seen + [e]);
    assert ready0 + DueNow(before.log, seen) + [e.fd] == ready0 + (DueNow(before.log, seen) + [e.fd]);
  }

  lemma ScannedDeferred(before: Account, ready0: seq<int>, mid: Account, ready: seq<int>, seen: seq<Ev>, now: nat,
      e: Ev)
    requires Scanned(before, ready0, mid, ready, seen, now) && e.Seen? && e.at == now
    requires DueNow(before.log, seen + [e]) == DueNow(before.log, seen)
    requires var x := FdTimeout(e.fd, DueTime(mid.log, e));
      Deferred(before.log, seen + [e]) == Deferred(before.log, seen) + multiset{x}
    requires forall fd :: LastTime(mid.log + [e], fd) == LastTime(before.log, fd)
    ensures Scanned(before, ready0, Reported(mid, e, Some(DueTime(mid.log, e))), ready, seen + [e], now)
  {
    hide DueNow, Deferred, DueTime, LastTime, TimesAfter, LatenciesAfter;
    assert before.log + seen + [e] == before.log + (seen + [e]);
    Assoc(before.queue, Deferred(before.log, seen), multiset{FdTimeout(e.fd, DueTime(mid.log, e))});
  }

  /** What the loop over the listed descriptors has done so far. */
  ghost predicate PingedAll(before: Account, after: Account, fds: seq<int>, pinged: seq<Ev>) {
    && (forall e <- pinged :: e.Pinged?) && EvFds(pinged) == fds
    && after.log == before.log + pinged && after.queue == before.queue && after.mcount == before.mcount
  }

  lemma PingedNothing(a: Account)
    ensures PingedAll(a, a, [], [])
  {
  }

  lemma PingedOne(before: Account, mid: Account, fds: seq<int>, pinged: seq<Ev>, e: Ev)
    requires PingedAll(before, mid, fds, pinged) && e.Pinged?
    ensures PingedAll(before, Answered(mid, e), fds + [e.fd], pinged + [e])
  {
    assert before.log + pinged + [e] == before.log + (pinged + [e]);
    assert EvFds(pinged + [e]) == EvFds(pinged) + [e.fd];
  }

  lemma DrainedInOrder(a: Account, rest: multiset<FdTimeout>, items: seq<FdTimeout>, pending: nat, now: nat,
      tmin: nat, tmax: nat)
    requires InOrder(a, [], pending, now, tmin, tmax) && Drained(a.queue, rest, items, now)
    ensures InOrder(a.(queue := rest), Fds(items), pending, now, tmin, tmax)
  {
    hide Total, Proper, Latencies, MapsMatch;
    DrainPlaced(a.log, rest, items);
    DrainTimely(a.log, a.queue, rest, items, now);
  }
}
