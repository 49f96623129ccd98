/**
 The world outside the programs: the clock, sockets, poll, an epoll instance, random numbers, and the flag the threads
 share. The methods choose their answers freely within the contracts stated here, and the answers are recorded, so that
 contracts elsewhere can say what a program makes of them.
 */
module Kernel {

  import opened Totals

  /** The bits of a poll or epoll event that the programs test. */
  datatype Flags = Flags(hup: bool, err: bool, nval: bool, input: bool, other: bool) {
    predicate Zero() { !hup && !err && !nval && !input && !other }
  }

  datatype Event = Event(fd: int, flags: Flags)

  const NO_FLAGS := Flags(false, false, false, false, false)

  predicate DistinctFds(s: seq<Event>) { forall i, j :: 0 <= i < j < |s| ==> s[i].fd != s[j].fd }

  const INT_LIMIT := 0x8000_0000

  /** The type int. */
  type CInt = x: int | -INT_LIMIT <= x < INT_LIMIT

  /** The conversion of a long to int. */
  function ToInt(x: int): CInt { (x + INT_LIMIT) % (2 * INT_LIMIT) - INT_LIMIT }

  /** get_fast_time: a clock that never goes back and repeats a reading only finitely often. */
  class Clock {
    var now: nat
    var repeats: nat  // how often the present reading may still be repeated

    constructor () { now, repeats := 0, 0; }

    method Read() returns (t: nat)
      modifies this
      ensures t == now && old(now) <= now
      ensures now == old(now) ==> repeats < old(repeats)
    {
      var step: int :| 0 <= step;
      if step == 0 && repeats > 0 {
        repeats := repeats - 1;
      } else {
        now := now + step + 1;
        var again: int :| 0 <= again;
        repeats := again;
      }
      t := now;
    }
  }

  /** The flag done of the threads, as one of them reads it. */
  class Flag {
    ghost var loads: seq<bool>

    constructor ()
      ensures loads == []
    {
      loads := [];
    }

    method Load() returns (isSet: bool)
      modifies this
      ensures loads == old(loads) + [isSet]
    {
      isSet := *;
      loads := loads + [isSet];
    }
  }

  /** std::uniform_int_distribution over a generator. */
  class Random {
    ghost var draws: seq<nat>

    constructor ()
      ensures draws == []
    {
      draws := [];
    }

    method Draw(low: nat, high: nat) returns (t: nat)
      requires low <= high
      modifies this
      ensures low <= t <= high && draws == old(draws) + [t]
    {
      var drawn: int :| low <= drawn <= high;
      t := drawn;
      draws := draws + [t];
    }
  }

  /** What is asked of a socket, or for one. */
  datatype Deed = Create | Bind(source: nat) | Connect | Accept | Check | Register | Receive | Send

  /** One call and whether it succeeded; for Receive and Send, whether a whole message went through. */
  datatype Answer = Answer(deed: Deed, fd: int, ok: bool)

  predicate AllOk(answers: seq<Answer>) { forall a <- answers :: a.ok }

  /** The sockets of the operating system and the network behind them. */
  class Sockets {
    ghost var answers: seq<Answer>

    constructor ()
      ensures answers == []
    {
      answers := [];
    }

    method Try(deed: Deed, fd: int) returns (ok: bool)
      modifies this
      ensures answers == old(answers) + [Answer(deed, fd, ok)]
    {
      ok := *;
      answers := answers + [Answer(deed, fd, ok)];
    }

    /** socket or accept: a descriptor not in use, or a negative number. */
    method NewFd(deed: Deed, used: seq<int>) returns (fd: int)
      modifies this
      ensures fd >= 0 ==> fd !in used
      ensures answers == old(answers) + [Answer(deed, fd, fd >= 0)]
    {
      fd := *;
      if fd in used {
        fd := -1;
      }
      answers := answers + [Answer(deed, fd, fd >= 0)];
    }
  }

  /** How an echo of one message ends. */
  datatype Echo = Echoed | NothingReceived | NothingWritten

  /** The calls an echo makes. */
  function EchoCalls(fd: int, echo: Echo): seq<Answer> {
    match echo
    case Echoed => [Answer(Receive, fd, true), Answer(Send, fd, true)]
    case NothingReceived => [Answer(Receive, fd, false)]
    case NothingWritten => [Answer(Receive, fd, true), Answer(Send, fd, false)]
  }

  /** How many entries have events, and how many had in all answers. */
  function Found(revents: seq<Flags>): nat {
    if revents == [] then 0 else (if revents[0].Zero() then 0 else 1) + Found(revents[1..])
  }

  function FoundInAll(answers: seq<Option<seq<Flags>>>): nat {
    if answers == [] then 0
    else
      var last := answers[|answers| - 1];
      FoundInAll(answers[..|answers| - 1]) + (if last.None? then 0 else Found(last.value))
  }

  /** poll without a time limit, for an array of descriptors. */
  class Poller {
    ghost var answers: seq<Option<seq<Flags>>>
    ghost var failures: nat

    constructor ()
      ensures answers == [] && failures == 0
    {
      answers, failures := [], 0;
    }

    /** The events of each entry, none for entries of -1; None when the call fails. */
    method Poll(fds: seq<int>) returns (revents: Option<seq<Flags>>)
      modifies this
      ensures answers == old(answers) + [revents] && failures == old(failures) + (if revents.None? then 1 else 0)
      ensures revents.Some? ==>
        |revents.value| == |fds| && forall i :: 0 <= i < |fds| && fds[i] == -1 ==> revents.value[i].Zero()
    {
      var found: seq<Flags> := *;
      var failed: bool := *;
      revents := if failed || |found| != |fds| then None
        else Some(seq(|fds|, i requires 0 <= i < |fds| => if fds[i] == -1 then NO_FLAGS else found[i]));
      answers := answers + [revents];
      failures := failures + (if revents.None? then 1 else 0);
    }
  }

  datatype Outcome = Ready(events: seq<Event>) | TimedOut | Interrupted | Failed

  /** One call of epoll_wait: the caller's last clock reading, the timeout asked for, the answer. */
  datatype Call = Call(at: nat, timeoutMs: int, outcome: Outcome)

  /**
   An epoll instance. An edge-triggered descriptor is quiet from the report of its event until its
   message has been received; on an intact instance no other events come up, so quiet descriptors
   are not reported. Pacing.SystemStaysCalm needs no such instance: it has this from the tokens.
   */
  class Epoll {
    const intact: bool
    var interest: set<int>
    var quiet: set<int>
    var signals: nat  // how many more signals can interrupt an unlimited wait
    ghost var calls: seq<Call>
    ghost var failures: nat  // how many calls have failed

    constructor (intact: bool)
      ensures this.intact == intact && interest == {} && quiet == {} && calls == [] && failures == 0
    {
      this.intact := intact;
      interest, quiet, signals, calls, failures := {}, {}, 0, [], 0;
    }

    /** EPOLL_CTL_ADD. */
    method Add(fd: int) returns (ok: bool)
      modifies this`interest, this`failures
      ensures interest == if ok then old(interest) + {fd} else old(interest)
      ensures ok ==> fd !in old(interest)
      ensures failures == old(failures) + (if ok then 0 else 1)
    {
      var error: bool := *;
      ok := !error && fd !in interest;
      if ok { interest := interest + {fd}; } else { failures := failures + 1; }
    }

    /** EPOLL_CTL_DEL. */
    method Delete(fd: int)
      modifies this`interest
      ensures interest == old(interest) - {fd}
    {
      interest := interest - {fd};
    }

    predicate Reportable(events: seq<Event>, maxEvents: nat)
      reads this
    {
      && 0 < |events| <= maxEvents && DistinctFds(events)
      && (forall e <- events :: e.fd in interest && !e.flags.Zero())
      && (intact ==> forall e <- events :: e.fd !in quiet)
    }

    /** epoll_wait. A wait for a negative time has no limit: it does not time out, and is interrupted finitely often. */
    method Wait(ghost at: nat, maxEvents: nat, timeoutMs: CInt) returns (outcome: Outcome)
      modifies this`quiet, this`signals, this`calls, this`failures
      ensures failures == old(failures) + (if outcome.Failed? then 1 else 0)
      ensures outcome.Ready? ==> old(Reportable(outcome.events, maxEvents))
      ensures quiet == if outcome.Ready? then old(quiet) + FdsOf(outcome.events) else old(quiet)
      ensures timeoutMs < 0 ==> !outcome.TimedOut? && (outcome.Interrupted? ==> signals < old(signals))
      ensures calls == old(calls) + [Call(at, timeoutMs, outcome)]
    {
      var events: seq<Event> := *;
      var interrupted: bool := *;
      if Reportable(events, maxEvents) {
        outcome := Ready(events);
        quiet := quiet + FdsOf(events);
      } else if timeoutMs < 0 {
        if signals > 0 {
          signals := signals - 1;
          outcome := Interrupted;
        } else {
          outcome := Failed;
        }
      } else {
        var error: bool := *;
        outcome := if interrupted then Interrupted else if error then Failed else TimedOut;
      }
      calls := calls + [Call(at, timeoutMs, outcome)];
      failures := failures + (if outcome.Failed? then 1 else 0);
    }

    /** The message of fd has been received: its next arrival will be reported again. */
    method Rearm(fd: int)
      modifies this`quiet
      ensures quiet == old(quiet) - {fd}
    {
      quiet := quiet - {fd};
    }
  }

  function FdsOf(events: seq<Event>): (r: set<int>) { set e <- events :: e.fd }

  function FdSeq(events: seq<Event>): (r: seq<int>)
    ensures |r| == |events| && forall i :: 0 <= i < |r| ==> r[i] == events[i].fd
  {
    seq(|events|, i requires 0 <= i < |events| => events[i].fd)
  }
}

/** epoll_wait_ex: a wait with a deadline in nanoseconds on a kernel call that counts milliseconds. */
module EpollWait {
  import opened Kernel

  /** EventsList of common.h: the first numReady events are those of the last call. */
  class EventsList {
    var events: seq<Event>
    var numReady: int
    var recvTime: nat

    constructor (capacity: nat)
      ensures |events| == capacity && numReady == 0
    {
      events := seq(capacity, _ => Event(0, NO_FLAGS));
      numReady, recvTime := 0, 0;
    }

    ghost predicate Valid() reads this { -1 <= numReady <= |events| }

    ghost function Reported(): seq<Event>
      requires Valid()
      reads this
    {
      if numReady <= 0 then [] else events[..numReady]
    }
  }

  const NS_PER_MS := 1_000_000

  /** The events of an answer. */
  function AnswerOf(c: Call): seq<Event> {
    match c.outcome
    case Ready(events) => events
    case _ => []
  }

  /** The whole milliseconds left until the deadline, none when it has passed, or -1 for no limit. */
  function WholeMs(at: int, timeoutNs: int, deadline: int): (ms: int)
    ensures ms >= -1
  {
    if timeoutNs == -1 then -1 else if at >= deadline then 0 else (deadline - at) / NS_PER_MS
  }

  /** The milliseconds asked for: epoll_wait takes an int. */
  function Request(at: int, timeoutNs: int, deadline: int): CInt { ToInt(WholeMs(at, timeoutNs, deadline)) }

  /**
   A limited call does not ask to sleep beyond the deadline, and asks for all whole milliseconds before it, exactly
   when their number is an int. Some larger numbers become negative, and the call has no limit.
   */
  lemma RequestIsTight(at: int, timeoutNs: int, deadline: int)
    requires timeoutNs != -1
    ensures var ms, whole := Request(at, timeoutNs, deadline), WholeMs(at, timeoutNs, deadline);
      if at >= deadline then ms == 0
      else
        && (at + ms * 1_000_000 <= deadline < at + (ms + 1) * 1_000_000 <==> whole < 0x8000_0000)
        && (ms < 0 <==> whole % 0x1_0000_0000 >= 0x8000_0000)
  {
    var ms, whole := Request(at, timeoutNs, deadline), WholeMs(at, timeoutNs, deadline);
    Converted(whole);
    if at < deadline && whole >= INT_LIMIT {
      assert (ms + 1) * NS_PER_MS <= INT_LIMIT * NS_PER_MS <= whole * NS_PER_MS <= deadline - at;
    }
  }

  /** The conversion to int keeps what fits, and what is left has the same remainder. */
  lemma Converted(x: nat)
    ensures x < INT_LIMIT ==> ToInt(x) == x
    ensures ToInt(x) < 0 <==> x % (2 * INT_LIMIT) >= INT_LIMIT
    ensures ToInt(x) == 0 <==> x % (2 * INT_LIMIT) == 0
  {
  }

  /** How many events the calls have reported. */
  function EventCount(calls: seq<Call>): nat {
    if calls == [] then 0 else EventCount(calls[..|calls| - 1]) + |AnswerOf(calls[|calls| - 1])|
  }

  lemma {:induction false} EventsOfWait(before: seq<Call>, made: seq<Call>)
    requires made != [] && forall i :: 0 <= i < |made| - 1 ==> Unanswered(made[i])
    ensures EventCount(before + made) == EventCount(before) + |AnswerOf(made[|made| - 1])|
  {
    var n := |made| - 1;
    assert (before + made)[..|before| + n] == before + made[..n];
    if n == 0 {
      assert before + made[..n] == before;
    } else {
      EventsOfWait(before, made[..n]);
      assert Unanswered(made[n - 1]);
    }
  }

  predicate Unanswered(c: Call) { c.outcome.TimedOut? || c.outcome.Interrupted? }

  /** Every call asks as Request says for the deadline set at start, and only the first may be made after it. */
  ghost predicate Requests(calls: seq<Call>, timeoutNs: int, start: int) {
    && (calls != [] ==> calls[0].at == start)
    && (forall i :: 0 <= i < |calls| ==>
      start <= calls[i].at && calls[i].timeoutMs == Request(calls[i].at, timeoutNs, start + timeoutNs))
    && (forall i :: 0 < i < |calls| && timeoutNs != -1 ==> calls[i].at < start + timeoutNs)
  }

  /** The calls made by one wait: at least one, as above, and all but the last without an answer. */
  ghost predicate WaitCalls(calls: seq<Call>, timeoutNs: int) {
    && calls != [] && Requests(calls, timeoutNs, calls[0].at)
    && (forall i :: 0 <= i < |calls| - 1 ==> Unanswered(calls[i]))
  }

  /** The calls so far have all gone unanswered. */
  ghost predicate StillWaiting(calls: seq<Call>, timeoutNs: int, start: nat) {
    Requests(calls, timeoutNs, start) && forall i :: 0 <= i < |calls| ==> Unanswered(calls[i])
  }

  lemma OneMoreCall(calls: seq<Call>, c: Call, timeoutNs: int, start: nat)
    requires StillWaiting(calls, timeoutNs, start) && start <= c.at && (calls == [] ==> c.at == start)
    requires c.timeoutMs == Request(c.at, timeoutNs, start + timeoutNs)
    requires calls != [] && timeoutNs != -1 ==> c.at < start + timeoutNs
    ensures WaitCalls(calls + [c], timeoutNs) && (calls + [c])[0].at == start
    ensures Unanswered(c) ==> StillWaiting(calls + [c], timeoutNs, start)
  {
  }

  /** The loop of epoll_wait_ex. Times are unbounded integers here. */
  method EpollWaitEx(epoll: Epoll, clock: Clock, ready: EventsList, timeoutNs: int)
      returns (ok: bool, ghost made: seq<Call>)
    requires |ready.events| > 0
    modifies epoll`quiet, epoll`signals, epoll`calls, epoll`failures, clock, ready
    ensures ready.Valid() && |ready.events| == old(|ready.events|)
    ensures epoll.calls == old(epoll.calls) + made && WaitCalls(made, timeoutNs)
    ensures !made[|made| - 1].outcome.Ready? ==> ready.events == old(ready.events)
    ensures epoll.failures == old(epoll.failures) + (if ok then 0 else 1)
    ensures old(clock.now) <= made[0].at <= clock.now
    ensures match made[|made| - 1].outcome
      case Ready(events) => (
        && ok && ready.Reported() == events && ready.recvTime == clock.now
        && old(epoll.Reportable(events, |ready.events|)) && epoll.quiet == old(epoll.quiet) + FdsOf(events))
      case Failed => !ok && epoll.quiet == old(epoll.quiet) && ready.numReady == -1
      case _ => (
        && ok && ready.numReady == 0 && epoll.quiet == old(epoll.quiet)
        && timeoutNs != -1 && made[0].at + timeoutNs <= clock.now)
  {
    var alreadyPolled := false;
    made := [];
    ready.numReady := 0;
    var currTime := clock.Read();
    var returnTime := currTime + timeoutNs;
    ghost var start := currTime;
    while true
      invariant ready.numReady == 0 && ready.events == old(ready.events)
      invariant old(clock.now) <= start <= currTime == clock.now && returnTime == start + timeoutNs
      invariant epoll.calls == old(epoll.calls) + made && epoll.quiet == old(epoll.quiet)
      invariant epoll.failures == old(epoll.failures)
      invariant alreadyPolled <==> made != []
      invariant !alreadyPolled ==> currTime == start
      invariant StillWaiting(made, timeoutNs, start)
      invariant alreadyPolled ==> WaitCalls(made, timeoutNs) && made[0].at == start
      decreases if timeoutNs == -1 then epoll.signals else 0,
                !alreadyPolled, if returnTime > currTime then returnTime - currTime else 0, clock.repeats
    {
      var timeLeft := returnTime - currTime;
      if timeLeft <= 0 && timeoutNs != -1 {
        if alreadyPolled {
          return true, made;
        } else {
          timeLeft := 0;
        }
      }
      var pollTimeout := ToInt(if timeoutNs == -1 then -1 else timeLeft / NS_PER_MS);
      assert pollTimeout == Request(currTime, timeoutNs, returnTime);
      var outcome := epoll.Wait(currTime, |ready.events|, pollTimeout);
      OneMoreCall(made, Call(currTime, pollTimeout, outcome), timeoutNs, start);
      made := made + [Call(currTime, pollTimeout, outcome)];
      alreadyPolled := true;
      currTime := clock.Read();
      match outcome {
        case TimedOut =>
          if currTime >= returnTime { return true, made; }
        case Interrupted =>
        case Failed =>
          ready.numReady := -1;
          return false, made;
        case Ready(events) =>
          ready.events := events + ready.events[|events|..];
          ready.numReady := |events|;
          ready.recvTime := currTime;
          assert ready.Reported() == events;
          return true, made;
      }
    }
  }

  ghost predicate NeverSleeps(calls: seq<Call>) { forall i :: 0 <= i < |calls| ==> calls[i].timeoutMs == 0 }

  /**
   A wait for no more milliseconds than an int holds never sleeps in the kernel exactly when it is asked for less than
   one. Of any wait the first call does not sleep exactly when its milliseconds are a multiple of 2^32.
   */
  lemma NeverSleepsIff(calls: seq<Call>, timeoutNs: int)
    requires WaitCalls(calls, timeoutNs)
    ensures timeoutNs < INT_LIMIT * NS_PER_MS ==>
      (NeverSleeps(calls) <==> timeoutNs != -1 && timeoutNs < NS_PER_MS)
    ensures calls[0].timeoutMs == 0 <==>
      timeoutNs != -1 && (timeoutNs < NS_PER_MS || timeoutNs / NS_PER_MS % (2 * INT_LIMIT) == 0)
  {
    var start := calls[0].at;
    assert calls[0].timeoutMs == Request(start, timeoutNs, start + timeoutNs);
    if timeoutNs != -1 {
      Converted(WholeMs(start, timeoutNs, start + timeoutNs));
      if timeoutNs < NS_PER_MS {
        forall i | 0 <= i < |calls| ensures calls[i].timeoutMs == 0 {
          assert calls[i].timeoutMs == Request(calls[i].at, timeoutNs, start + timeoutNs);
          assert WholeMs(calls[i].at, timeoutNs, start + timeoutNs) == 0;
        }
      }
    }
  }
}
