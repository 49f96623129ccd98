/** connect_all of server.cpp: opens the connections in a window of at most conn_q_size attempts. */
module ConnectAll {
  import opened Totals
  import opened Kernel
  import opened EpollWait
  import opened SelectorSpec
  import opened EPollSelector
  import opened Rotation

  /**
   The sockets opened, the source address each was bound to, those known to be connected, how many
   are waiting to connect, and the cursor into the source addresses.
   */
  datatype Progress = Progress(sockets: seq<int>, sources: seq<nat>, confirmed: set<int>, waiting: int, cursor: nat)

  /** Each socket is bound to the address whose turn it is. */
  ghost predicate InTurn(p: Progress, addresses: nat) {
    if addresses == 0 then p.sources == [] else
      && |p.sources| == |p.sockets|
      && (forall i :: 0 <= i < |p.sources| ==> p.sources[i] == Turn(i, addresses))
      && (if p.cursor == addresses then 0 else p.cursor) == Turn(|p.sockets|, addresses)
  }

  /** What holds whenever connect_all waits for its selector. */
  ghost predicate Window(p: Progress, sockCount: int, queue: int, addresses: nat, registered: set<int>) {
    && 0 <= p.waiting <= queue && p.waiting == |registered|
    && (|p.sockets| <= sockCount || p.sockets == []) && Distinct(p.sockets)
    && registered !! p.confirmed && registered + p.confirmed == Elements(p.sockets)
    && InTurn(p, addresses)
  }

  /** What is asked of the system for a new socket: to create it, to bind it to its source address, to connect it. */
  function OpenCalls(fd: int, source: Option<nat>): seq<Answer> {
    [Answer(Create, fd, true)]
    + (if source.Some? then [Answer(Bind(source.value), fd, true)] else [])
    + [Answer(Connect, fd, true)]
  }

  /** Every socket was created, bound to its source address and connected, and every confirmed one was checked. */
  ghost predicate Backed(p: Progress, addresses: nat, answers: seq<Answer>) {
    && (addresses > 0 ==> |p.sources| == |p.sockets|)
    && (forall i :: 0 <= i < |p.sockets| ==>
      && Answer(Create, p.sockets[i], true) in answers && Answer(Connect, p.sockets[i], true) in answers
      && (addresses > 0 ==> Answer(Bind(p.sources[i]), p.sockets[i], true) in answers))
    && forall fd <- p.confirmed :: Answer(Check, fd, true) in answers
  }

  lemma NothingToBack(addresses: nat)
    ensures Backed(Progress([], [], {}, 0, 0), addresses, [])
  {
  }

  /** One more socket is opened. */
  lemma OpenedIsBacked(p: Progress, q: Progress, fd: int, addresses: nat, answers: seq<Answer>)
    requires Backed(p, addresses, answers) && q.confirmed == p.confirmed && q.sockets == p.sockets + [fd]
    requires if addresses > 0 then |q.sources| == |p.sources| + 1 && q.sources[..|p.sources|] == p.sources
      else q.sources == p.sources
    ensures var source := if addresses > 0 then Some(q.sources[|p.sources|]) else None;
      Backed(q, addresses, answers + OpenCalls(fd, source))
  {
    var source := if addresses > 0 then Some(q.sources[|p.sources|]) else None;
    var made := OpenCalls(fd, source);
    assert Answer(Create, fd, true) in made && Answer(Connect, fd, true) in made by {
      assert made[0] == Answer(Create, fd, true) && made[|made| - 1] == Answer(Connect, fd, true);
    }
    assert addresses > 0 ==> made[1] == Answer(Bind(source.value), fd, true);
    forall i | 0 <= i < |q.sockets|
      ensures Answer(Create, q.sockets[i], true) in answers + made
      ensures Answer(Connect, q.sockets[i], true) in answers + made
      ensures addresses > 0 ==> Answer(Bind(q.sources[i]), q.sockets[i], true) in answers + made
    {
      if i < |p.sockets| {
        assert q.sockets[i] == p.sockets[i] && (addresses > 0 ==> q.sources[i] == q.sources[..|p.sources|][i]);
      }
    }
  }

  /** One more socket is confirmed. */
  lemma CheckedIsBacked(p: Progress, fd: int, addresses: nat, answers: seq<Answer>)
    requires Backed(p, addresses, answers)
    ensures Backed(p.(waiting := p.waiting - 1, confirmed := p.confirmed + {fd}), addresses,
      answers + [Answer(Check, fd, true)])
  {
    assert forall a :: a in answers ==> a in answers + [Answer(Check, fd, true)];
  }

  lemma AllOkAppend(a: seq<Answer>, b: seq<Answer>)
    ensures AllOk(a + b) <==> AllOk(a) && AllOk(b)
  {
    assert forall x :: x in a + b <==> x in a || x in b;
  }

  /** check_socket_ready. */
  method CheckSocketReady(fd: int, net: Sockets) returns (ok: bool)
    modifies net
    ensures net.answers == old(net.answers) + [Answer(Check, fd, ok)]
  {
    ok := net.Try(Check, fd);
  }

  /** bind, for the socket pushed last: the cursor starts again at the end of the list. */
  function BindNext(p: Progress, addresses: nat): Progress {
    if addresses == 0 then p else
    var c := if p.cursor == addresses then 0 else p.cursor;
    p.(sources := p.sources + [c], cursor := c + 1)
  }

  lemma Opened(p: Progress, fd: int, sockCount: int, queue: int, addresses: nat, registered: set<int>)
    requires Window(p, sockCount, queue, addresses, registered)
    requires |p.sockets| < sockCount && p.waiting < queue && fd !in p.sockets
    ensures var q := BindNext(p.(sockets := p.sockets + [fd]), addresses);
      Window(q.(waiting := q.waiting + 1), sockCount, queue, addresses, registered + {fd})
  {
    hide InTurn, BindNext;
    BindShape(p.(sockets := p.sockets + [fd]), addresses);
    BindInTurn(p, fd, addresses);
    AppendElements(p.sockets, fd);
    NotAnElement(p.sockets, fd);
    DistinctAppend(p.sockets, fd);
    hide Elements, Distinct;
    AddFresh(registered, p.confirmed, Elements(p.sockets), fd);
  }

  lemma AddFresh(a: set<int>, b: set<int>, all: set<int>, x: int)
    requires a !! b && a + b == all && x !in all
    ensures a + {x} !! b && a + {x} + b == all + {x} && |a + {x}| == |a| + 1
  {
  }

  lemma NotAnElement(s: seq<int>, x: int)
    requires x !in s
    ensures x !in Elements(s)
  {
  }

  lemma DistinctAppend(s: seq<int>, x: int)
    requires Distinct(s) && x !in s
    ensures Distinct(s + [x])
  {
  }

  lemma BindShape(p: Progress, addresses: nat)
    ensures var q := BindNext(p, addresses);
      q.sockets == p.sockets && q.confirmed == p.confirmed && q.waiting == p.waiting
  {
  }

  lemma BindInTurn(p: Progress, fd: int, addresses: nat)
    requires InTurn(p, addresses)
    ensures var q := BindNext(p.(sockets := p.sockets + [fd]), addresses);
      InTurn(q.(waiting := q.waiting + 1), addresses)
  {
  }

  lemma Confirmed(p: Progress, fd: int, sockCount: int, queue: int, addresses: nat, registered: set<int>)
    requires Window(p, sockCount, queue, addresses, registered) && fd in registered
    ensures Window(p.(waiting := p.waiting - 1, confirmed := p.confirmed + {fd}), sockCount, queue, addresses,
      registered - {fd})
  {
  }

  /** Creates a socket, binds it to the next source address, and starts to connect it. */
  method NewSocket(net: Sockets, p0: Progress, addresses: nat)
    returns (ok: bool, p: Progress, fd: int, ghost made: seq<Answer>)
    modifies net
    ensures net.answers == old(net.answers) + made && (ok <==> AllOk(made))
    ensures ok ==> fd !in p0.sockets && p == BindNext(p0.(sockets := p0.sockets + [fd]), addresses)
    ensures ok ==>
      if addresses > 0 then |p.sources| == |p0.sources| + 1 && made == OpenCalls(fd, Some(p.sources[|p0.sources|]))
      else made == OpenCalls(fd, None)
  {
    p, made := p0, [];
    fd := net.NewFd(Create, p.sockets);
    made := [Answer(Create, fd, fd >= 0)];
    if fd < 0 { return false, p, fd, made; }
    p := p.(sockets := p.sockets + [fd]);
    if addresses > 0 {
      var address := if p.cursor == addresses then 0 else p.cursor;
      var bound := net.Try(Bind(address), fd);
      made := made + [Answer(Bind(address), fd, bound)];
      if !bound { return false, p, fd, made; }
      p := BindNext(p, addresses);
    }
    ok := net.Try(Connect, fd);
    made := made + [Answer(Connect, fd, ok)];
  }

  /** Whether a new socket was opened and registered. */
  method OpenOne(sel: EPollRSelector, net: Sockets, p0: Progress, ghost sockCount: int, ghost queue: int,
      addresses: nat, ghost done: seq<Answer>)
    returns (ok: bool, p: Progress, ghost made: seq<Answer>)
    requires sel.Valid() && Window(p0, sockCount, queue, addresses, sel.epoll.interest)
    requires |p0.sockets| < sockCount && p0.waiting < queue && Backed(p0, addresses, done)
    modifies sel.epoll`interest, sel.epoll`failures, net
    ensures sel.Valid() && net.answers == old(net.answers) + made
    ensures ok <==> AllOk(made) && sel.epoll.failures == old(sel.epoll.failures)
    ensures ok ==>
      && Window(p, sockCount, queue, addresses, sel.epoll.interest) && Backed(p, addresses, done + made)
      && |p.sockets| == |p0.sockets| + 1 && p.waiting == p0.waiting + 1 && p.confirmed == p0.confirmed
  {
    hide Backed, Window, AllOk, OpenCalls, BindNext;
    var fd;
    ok, p, fd, made := NewSocket(net, p0, addresses);
    if !ok { return; }
    Opened(p0, fd, sockCount, queue, addresses, sel.epoll.interest);
    BindShape(p0.(sockets := p0.sockets + [fd]), addresses);
    BindSources(p0.(sockets := p0.sockets + [fd]), addresses);
    OpenedIsBacked(p0, p, fd, addresses, done);
    SameBacked(p.(waiting := p.waiting + 1), addresses, done + made);
    ok := sel.AddFd(fd);
    if ok { p := p.(waiting := p.waiting + 1); }
  }

  lemma BindSources(p: Progress, addresses: nat)
    ensures var q := BindNext(p, addresses);
      if addresses > 0 then |q.sources| == |p.sources| + 1 && q.sources[..|p.sources|] == p.sources
      else q.sources == p.sources
  {
  }

  /** The for loop: opens as many sockets as the window has room for. */
  method OpenMore(sel: EPollRSelector, net: Sockets, p0: Progress, sockCount: int, queue: int, addresses: nat,
      ghost done: seq<Answer>)
    returns (ok: bool, p: Progress, ghost made: seq<Answer>)
    requires sel.Valid() && Window(p0, sockCount, queue, addresses, sel.epoll.interest) && Backed(p0, addresses, done)
    modifies sel.epoll`interest, sel.epoll`failures, net
    ensures sel.Valid() && net.answers == old(net.answers) + made
    ensures ok <==> AllOk(made) && sel.epoll.failures == old(sel.epoll.failures)
    ensures ok ==>
      && Window(p, sockCount, queue, addresses, sel.epoll.interest) && Backed(p, addresses, done + made)
      && p.confirmed == p0.confirmed && p.waiting - |p.sockets| == p0.waiting - |p0.sockets|
      && |p0.sockets| <= |p.sockets| && WindowIsFull(p, sockCount, queue)
  {
    hide Backed, AllOk, InTurn, Distinct, Elements;
    ok, p, made := true, p0, [];
    assert done + [] == done;
    NoAnswers();
    var room, space := sockCount - |p.sockets|, queue - p.waiting;
    var maxConnect := if space < room then space else room;
    var i := 0;
    while i < maxConnect
      invariant 0 <= i && (i <= maxConnect || maxConnect < 0)
      invariant sel.Valid() && Window(p, sockCount, queue, addresses, sel.epoll.interest)
      invariant |p.sockets| == |p0.sockets| + i && p.waiting == p0.waiting + i && p.confirmed == p0.confirmed
      invariant net.answers == old(net.answers) + made && AllOk(made) && Backed(p, addresses, done + made)
      invariant sel.epoll.failures == old(sel.epoll.failures)
    {
      ghost var more;
      ok, p, more := OpenOne(sel, net, p, sockCount, queue, addresses, done + made);
      AllOkAppend(made, more);
      AppendAnswers(done, made, more);
      AppendAnswers(old(net.answers), made, more);
      made := made + more;
      if !ok { return; }
      i := i + 1;
    }
    ok := true;
  }

  lemma NoAnswers()
    ensures AllOk([])
  {
  }

  lemma AppendAnswers(a: seq<Answer>, b: seq<Answer>, c: seq<Answer>)
    ensures a + b + c == a + (b + c)
  {
  }

  lemma SameBacked(p: Progress, addresses: nat, answers: seq<Answer>)
    ensures Backed(p, addresses, answers) ==> Backed(p.(waiting := p.waiting - 1), addresses, answers)
    ensures Backed(p.(waiting := p.waiting - 1), addresses, answers) ==> Backed(p, addresses, answers)
  {
  }

  /** Every place in the window is taken, or all sockets are open. */
  predicate WindowIsFull(p: Progress, sockCount: int, queue: int) {
    p.waiting == queue || |p.sockets| == sockCount || sockCount < 0
  }

  /** The inner while loop: checks the sockets that have come up and takes them out of the window. */
  method ConfirmReady(sel: EPollRSelector, net: Sockets, p0: Progress, ghost sockCount: int, ghost queue: int,
      ghost addresses: nat, ghost done: seq<Answer>)
    returns (ok: bool, p: Progress, ghost made: seq<Answer>)
    requires sel.Valid() && Window(p0, sockCount, queue, addresses, sel.epoll.interest) && Backed(p0, addresses, done)
    modifies sel, sel.epoll`interest, net
    ensures sel.Valid() && net.answers == old(net.answers) + made && (ok <==> AllOk(made))
    ensures ok ==>
      && Window(p, sockCount, queue, addresses, sel.epoll.interest) && p.sockets == p0.sockets
      && Backed(p, addresses, done + made) && p.waiting == p0.waiting - old(|sel.Pending()|)
  {
    hide InTurn, Distinct, Elements, Backed, AllOk;
    p, made := p0, [];
    assert done + [] == done;
    NoAnswers();
    while true
      invariant sel.Valid() && Window(p, sockCount, queue, addresses, sel.epoll.interest)
      invariant p.sockets == p0.sockets && p.waiting - |sel.Pending()| == p0.waiting - old(|sel.Pending()|)
      invariant net.answers == old(net.answers) + made && AllOk(made) && Backed(p, addresses, done + made)
      decreases |sel.Pending()|
    {
      var r := sel.Next();
      if r.None? {
        return true, p, made;
      }
      var fd := r.value.fd;
      var ready := CheckSocketReady(fd, net);
      ghost var more := [Answer(Check, fd, ready)];
      OneAnswer(more[0]);
      AllOkAppend(made, more);
      AppendAnswers(done, made, more);
      CheckedIsBacked(p, fd, addresses, done + made);
      made := made + more;
      if !ready { return false, p, made; }
      Confirmed(p, fd, sockCount, queue, addresses, sel.epoll.interest);
      sel.RemoveCurrentReady();
      p := p.(waiting := p.waiting - 1, confirmed := p.confirmed + {fd});
    }
  }

  lemma OneAnswer(a: Answer)
    ensures AllOk([a]) <==> a.ok
  {
    assert a in [a];
  }

  /** The calls of epoll_wait made by a sequence of waits. */
  ghost function CallsOf(waits: seq<seq<Call>>): seq<Call> {
    if waits == [] then [] else CallsOf(waits[..|waits| - 1]) + waits[|waits| - 1]
  }

  /** The last call of a wait. */
  ghost function LastCall(wait: seq<Call>): Call
    requires wait != []
  {
    wait[|wait| - 1]
  }

  /** The waits of connect_all: each passes the milliseconds as nanoseconds, and only the last may be in vain. */
  ghost predicate ConnectWaits(waits: seq<seq<Call>>, connTimeoutMs: int) {
    && (forall i :: 0 <= i < |waits| ==> WaitCalls(waits[i], connTimeoutMs))
    && (forall i :: 0 <= i < |waits| - 1 ==> LastCall(waits[i]).outcome.Ready?)
  }

  /** All waits so far have been answered. */
  ghost predicate AllAnswered(waits: seq<seq<Call>>, connTimeoutMs: int) {
    ConnectWaits(waits, connTimeoutMs) && (waits != [] ==> LastCall(waits[|waits| - 1]).outcome.Ready?)
  }

  lemma OneMoreWait(waits: seq<seq<Call>>, wait: seq<Call>, connTimeoutMs: int)
    requires AllAnswered(waits, connTimeoutMs) && WaitCalls(wait, connTimeoutMs)
    ensures ConnectWaits(waits + [wait], connTimeoutMs) && CallsOf(waits + [wait]) == CallsOf(waits) + wait
    ensures LastCall(wait).outcome.Ready? <==> AllAnswered(waits + [wait], connTimeoutMs)
  {
    hide WaitCalls;
    assert (waits + [wait])[..|waits|] == waits;
  }

  /** What is left to do. */
  function Left(p: Progress, sockCount: int): int { 2 * (sockCount - |p.sockets|) + p.waiting }

  /** The wait in the loop of connect_all, and the check of its outcome. */
  method AwaitSome(sel: EPollRSelector, clock: Clock, connTimeoutMs: int) returns (ok: bool, ghost made: seq<Call>)
    requires sel.Valid()
    modifies sel, sel.events, sel.epoll`quiet, sel.epoll`signals, sel.epoll`calls, sel.epoll`failures, clock
    ensures sel.Valid() && WaitCalls(made, connTimeoutMs) && sel.epoll.calls == old(sel.epoll.calls) + made
    ensures ok ==> sel.Pending() != []
    ensures ok <==> LastCall(made).outcome.Ready?
    ensures ok ==> sel.epoll.failures == old(sel.epoll.failures)
    ensures Unanswered(LastCall(made)) ==> made[0].at + connTimeoutMs <= clock.now
  {
    hide WaitCalls;
    ok, made := sel.Wait(clock, connTimeoutMs);
    MadeSome(made, connTimeoutMs);
    if ok {
      var count := sel.ReadyCount();
      ok := count != 0;
    }
  }

  lemma MadeSome(made: seq<Call>, timeoutNs: int)
    requires WaitCalls(made, timeoutNs)
    ensures made != []
  {
  }

  /** The body of the loop of connect_all after new sockets have been opened: waits, and confirms those that are up. */
  method AwaitAndConfirm(sel: EPollRSelector, net: Sockets, clock: Clock, p0: Progress, ghost sockCount: int,
      ghost queue: int, ghost addresses: nat, connTimeoutMs: int, ghost done: seq<Answer>)
    returns (ok: bool, p: Progress, ghost wait: seq<Call>, ghost made: seq<Answer>)
    requires sel.Valid() && Window(p0, sockCount, queue, addresses, sel.epoll.interest) && Backed(p0, addresses, done)
    modifies sel, sel.events, sel.epoll`quiet, sel.epoll`signals, sel.epoll`calls, sel.epoll`interest,
      sel.epoll`failures, clock, net
    ensures sel.Valid() && WaitCalls(wait, connTimeoutMs) && sel.epoll.calls == old(sel.epoll.calls) + wait
    ensures net.answers == old(net.answers) + made
    ensures ok <==> AllOk(made) && LastCall(wait).outcome.Ready?
    ensures ok ==>
      && Window(p, sockCount, queue, addresses, sel.epoll.interest) && Left(p, sockCount) < Left(p0, sockCount)
      && Backed(p, addresses, done + made) && sel.epoll.failures == old(sel.epoll.failures)
    ensures Unanswered(LastCall(wait)) ==> wait[0].at + connTimeoutMs <= clock.now
  {
    hide WaitCalls, Window, Backed, AllOk;
    p, made := p0, [];
    NoAnswers();
    ok, wait := AwaitSome(sel, clock, connTimeoutMs);
    MadeSome(wait, connTimeoutMs);
    if !ok { return; }
    ok, p, made := ConfirmReady(sel, net, p, sockCount, queue, addresses, done);
  }

  /**
   connect_all, given a host address. The wait passes connTimeoutMs where nanoseconds are expected: the waits made
   are returned, with the selector that made them, what was open at each, and what was asked of the sockets.
   */
  method ConnectAll(sockCount: int, addresses: nat, clock: Clock, net: Sockets, queue: int := 32,
      connTimeoutMs: CInt := 1000)
    returns (ok: bool, p: Progress, ghost waits: seq<seq<Call>>, ghost sel0: EPollRSelector, ghost at: seq<Progress>,
      ghost made: seq<Answer>)
    requires queue > 0
    modifies clock, net
    ensures ok ==>
      && |p.sockets| == sockCount && Distinct(p.sockets)
      && p.confirmed == Elements(p.sockets) && p.waiting == 0
      && InTurn(p, addresses) && Backed(p, addresses, made)
    ensures fresh(sel0.Repr()) && sel0.epoll.calls == CallsOf(waits) && ConnectWaits(waits, connTimeoutMs)
    ensures net.answers == old(net.answers) + made
    ensures ok <==> AllOk(made) && sel0.epoll.failures == 0 && AllAnswered(waits, connTimeoutMs)
    ensures |at| == |waits| && forall i :: 0 <= i < |at| ==> WindowIsFull(at[i], sockCount, queue)
    ensures waits != [] && Unanswered(LastCall(waits[|waits| - 1])) ==>
      !ok && waits[|waits| - 1][0].at + connTimeoutMs <= clock.now
  {
    hide Elements, WaitCalls, ConnectWaits, AllAnswered, CallsOf, InTurn, Distinct, Window, Backed, AllOk, WindowIsFull;
    EmptyWindow(sockCount, queue, addresses);
    NoWaits(connTimeoutMs);
    NothingToBack(addresses);
    p, waits, at, made := Progress([], [], {}, 0, 0), [], [], [];
    var sel := new EPollRSelector(queue, false);
    sel0 := sel;
    NoAnswers();
    while sockCount - |p.sockets| != 0 || p.waiting != 0
      invariant sel.Valid() && fresh(sel.Repr()) && sel0 == sel
      invariant Window(p, sockCount, queue, addresses, sel.epoll.interest) && Backed(p, addresses, made)
      invariant sel.epoll.calls == CallsOf(waits) && AllAnswered(waits, connTimeoutMs) && sel.epoll.failures == 0
      invariant net.answers == old(net.answers) + made && AllOk(made)
      invariant |at| == |waits| && forall i :: 0 <= i < |at| ==> WindowIsFull(at[i], sockCount, queue)
      decreases if sockCount < 0 then 0 else Left(p, sockCount)
    {
      AnsweredIsNotInVain(waits, connTimeoutMs);
      WindowBounds(p, sockCount, queue, addresses, sel.epoll.interest);
      ghost var more, checks, wait;
      ok, p, more := OpenMore(sel, net, p, sockCount, queue, addresses, made);
      AllOkAppend(made, more);
      AppendAnswers(old(net.answers), made, more);
      made := made + more;
      if !ok { return; }
      WindowBounds(p, sockCount, queue, addresses, sel.epoll.interest);
      at := at + [p];
      ok, p, wait, checks := AwaitAndConfirm(sel, net, clock, p, sockCount, queue, addresses, connTimeoutMs, made);
      OneMoreWait(waits, wait, connTimeoutMs);
      waits := waits + [wait];
      AllOkAppend(made, checks);
      AppendAnswers(old(net.answers), made, checks);
      made := made + checks;
      if !ok { return; }
      WindowBounds(p, sockCount, queue, addresses, sel.epoll.interest);
    }
    AnsweredIsNotInVain(waits, connTimeoutMs);
    WindowEnds(p, sockCount, queue, addresses, sel.epoll.interest);
    ok := true;
  }

  lemma WindowBounds(p: Progress, sockCount: int, queue: int, addresses: nat, registered: set<int>)
    requires Window(p, sockCount, queue, addresses, registered)
    ensures |p.sockets| <= sockCount || p.sockets == []
    ensures 0 <= p.waiting
    ensures sockCount < 0 ==> p.waiting == 0
  {
    if p.sockets == [] {
      assert Elements(p.sockets) == {};
      assert registered == {};
    }
  }

  lemma WindowEnds(p: Progress, sockCount: int, queue: int, addresses: nat, registered: set<int>)
    requires Window(p, sockCount, queue, addresses, registered) && p.waiting == 0
    ensures Distinct(p.sockets) && p.confirmed == Elements(p.sockets) && InTurn(p, addresses)
  {
    assert registered == {};
  }

  lemma EmptyWindow(sockCount: int, queue: nat, addresses: nat)
    ensures Window(Progress([], [], {}, 0, 0), sockCount, queue, addresses, {})
  {
    NoElements();
  }

  lemma NoWaits(connTimeoutMs: int)
    ensures CallsOf([]) == [] && AllAnswered([], connTimeoutMs)
  {
  }

  lemma AnsweredIsNotInVain(waits: seq<seq<Call>>, connTimeoutMs: int)
    requires AllAnswered(waits, connTimeoutMs)
    ensures ConnectWaits(waits, connTimeoutMs)
    ensures waits != [] ==> waits[|waits| - 1] != [] && !Unanswered(LastCall(waits[|waits| - 1]))
  {
  }

  /**
   A connect_all that waits never sleeps in the kernel exactly when its milliseconds are fewer than a million, and not
   -1, which means no limit.
   */
  lemma ConnectingNeverSleepsIff(waits: seq<seq<Call>>, connTimeoutMs: CInt)
    requires ConnectWaits(waits, connTimeoutMs) && waits != []
    ensures (forall i :: 0 <= i < |waits| ==> NeverSleeps(waits[i])) <==>
      connTimeoutMs != -1 && connTimeoutMs < 1_000_000
  {
    hide NeverSleeps, WaitCalls;
    forall i | 0 <= i < |waits|
      ensures NeverSleeps(waits[i]) <==> connTimeoutMs != -1 && connTimeoutMs < NS_PER_MS
    {
      NeverSleepsIff(waits[i], connTimeoutMs);
    }
    if forall i :: 0 <= i < |waits| ==> NeverSleeps(waits[i]) {
      assert NeverSleeps(waits[0]);
    }
  }

  /** With the default of 1000 no wait sleeps, where a wait for that many milliseconds would begin by sleeping them. */
  lemma DefaultTimeoutNeverSleeps(waits: seq<seq<Call>>, meant: seq<Call>)
    requires ConnectWaits(waits, 1000) && WaitCalls(meant, 1000 * NS_PER_MS)
    ensures forall i :: 0 <= i < |waits| ==> NeverSleeps(waits[i])
    ensures meant[0].timeoutMs == 1000
  {
    hide NeverSleeps;
    if waits != [] {
      ConnectingNeverSleepsIff(waits, 1000);
    }
    assert meant[0].timeoutMs == Request(meant[0].at, 1000 * NS_PER_MS, meant[0].at + 1000 * NS_PER_MS);
  }

  /** Addresses are used equally often, up to one. */
  lemma SourcesAreFair(p: Progress, addresses: nat, a: nat)
    requires addresses > 0 && InTurn(p, addresses) && a < addresses
    ensures multiset(p.sources)[a] ==
      |p.sockets| / addresses + (if a < |p.sockets| % addresses then 1 else 0)
  {
    CountTurns(p.sources, addresses, a);
    Fair(|p.sources|, addresses, a);
    Division(|p.sources|, addresses);
  }

  lemma {:induction false} CountTurns(sources: seq<nat>, m: nat, a: nat)
    requires m > 0 && forall i :: 0 <= i < |sources| ==> sources[i] == Turn(i, m)
    ensures multiset(sources)[a] == Uses(|sources|, m, a)
  {
    if sources != [] {
      var n := |sources| - 1;
      CountTurns(sources[..n], m, a);
      CountLast(sources, a);
    }
  }

  lemma CountLast(s: seq<nat>, a: nat)
    requires s != []
    ensures multiset(s)[a] == multiset(s[..|s| - 1])[a] + (if s[|s| - 1] == a then 1 else 0)
  {
    assert s == s[..|s| - 1] + [s[|s| - 1]];
  }
}
