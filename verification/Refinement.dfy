/** Every run of the worker's loop is a run of the transition system's worker. */
module Refinement {
  import opened Totals
  import opened Kernel
  import opened WaitQueue
  import opened History
  import opened Books
  import W = Worker
  import P = Protocol

  // ---------------------------------------------------------------- paths of one worker

  /** A step while the test is running. */
  ghost function Next(k: P.Worker, st: P.WorkerStep): P.Worker
    requires P.LocalEnabled(k, st)
  {
    P.WorkerNext(k, false, st)
  }

  ghost predicate IsPath(k: P.Worker, steps: seq<P.WorkerStep>)
    decreases |steps|
  {
    steps == [] || (P.LocalEnabled(k, steps[0]) && IsPath(Next(k, steps[0]), steps[1..]))
  }

  ghost function Follow(k: P.Worker, steps: seq<P.WorkerStep>): P.Worker
    requires IsPath(k, steps)
    decreases |steps|
  {
    if steps == [] then k else Follow(Next(k, steps[0]), steps[1..])
  }

  /** The steps are a path from k to t. */
  ghost predicate Leads(k: P.Worker, steps: seq<P.WorkerStep>, t: P.Worker) {
    IsPath(k, steps) && Follow(k, steps) == t
  }

  lemma {:induction false} PathsJoin(k: P.Worker, s: seq<P.WorkerStep>, t: seq<P.WorkerStep>)
    requires IsPath(k, s) && IsPath(Follow(k, s), t)
    ensures IsPath(k, s + t) && Follow(k, s + t) == Follow(Follow(k, s), t)
    decreases |s|
  {
    hide Next, P.LocalEnabled;
    if s == [] {
      assert s + t == t;
    } else {
      PathsJoin(Next(k, s[0]), s[1..], t);
      assert (s + t)[0] == s[0] && (s + t)[1..] == s[1..] + t;
    }
  }

  lemma LeadsOn(k: P.Worker, s: seq<P.WorkerStep>, m: P.Worker, t: seq<P.WorkerStep>, n: P.Worker)
    requires Leads(k, s, m) && Leads(m, t, n)
    ensures Leads(k, s + t, n)
  {
    PathsJoin(k, s, t);
  }

  lemma OneStep(k: P.Worker, st: P.WorkerStep)
    requires P.LocalEnabled(k, st)
    ensures Leads(k, [st], Next(k, st))
  {
    hide Next, P.LocalEnabled;
    assert [st][0] == st && [st][1..] == [];
    assert IsPath(Next(k, st), []) && Follow(Next(k, st), []) == Next(k, st);
    assert IsPath(k, [st]) && Follow(k, [st]) == Next(k, st);
  }

  lemma NoStep(k: P.Worker)
    ensures Leads(k, [], k)
  {
    assert IsPath(k, []) && Follow(k, []) == k;
  }

  // ---------------------------------------------------------------- from descriptors to connections

  /** Which connection a descriptor belongs to. */
  type Numbering = int -> nat

  ghost predicate Injective(id: Numbering) { forall x, y :: id(x) == id(y) ==> x == y }

  function Conns(fds: seq<int>, id: Numbering): (r: seq<nat>)
    ensures |r| == |fds| && forall i :: 0 <= i < |r| ==> r[i] == id(fds[i])
  {
    seq(|fds|, i requires 0 <= i < |fds| => id(fds[i]))
  }

  lemma ConnsAppend(fds: seq<int>, fd: int, id: Numbering)
    ensures Conns(fds + [fd], id) == Conns(fds, id) + [id(fd)]
  {
  }

  lemma DistinctConns(fds: seq<int>, id: Numbering)
    requires Injective(id) && Distinct(fds)
    ensures Distinct(Conns(fds, id))
  {
  }

  /** The connections of the queue's entries. */
  ghost function Waiting(q: multiset<FdTimeout>, id: Numbering): multiset<nat> {
    Image((x: FdTimeout) => id(x.fd), q)
  }

  lemma WaitingAdd(q: multiset<FdTimeout>, x: FdTimeout, id: Numbering)
    ensures Waiting(q + multiset{x}, id) == Waiting(q, id) + multiset{id(x.fd)}
  {
    ImageAdd((y: FdTimeout) => id(y.fd), q, x);
  }

  lemma ConnsOfLast(items: seq<FdTimeout>, id: Numbering)
    requires items != []
    ensures var n := |items| - 1;
      multiset(Conns(Fds(items), id)) == multiset(Conns(Fds(items[..n]), id)) + multiset{id(items[n].fd)}
  {
    SplitLast(items);
    ConnsAppend(Fds(items[..|items| - 1]), items[|items| - 1].fd, id);
  }

  lemma {:induction false} WaitingItems(q: multiset<FdTimeout>, items: seq<FdTimeout>, id: Numbering)
    ensures Waiting(q + multiset(items), id) == Waiting(q, id) + multiset(Conns(Fds(items), id))
    decreases |items|
  {
    hide Waiting;
    if items == [] {
      assert q + multiset(items) == q && Conns(Fds(items), id) == [];
    } else {
      var n := |items| - 1;
      SplitLast(items);
      ConnsOfLast(items, id);
      hide Conns, Fds;
      WaitingItems(q, items[..n], id);
      WaitingAdd(q + multiset(items[..n]), items[n], id);
      Assoc(q, multiset(items[..n]), multiset{items[n]});
      Assoc(Waiting(q, id), multiset(Conns(Fds(items[..n]), id)), multiset{id(items[n].fd)});
    }
  }

  // ---------------------------------------------------------------- the places of a pass

  /** The worker at the head of its loop. */
  ghost function AtHead(a: Account, id: Numbering): P.Worker {
    P.Worker(P.Polling, [], Waiting(a.queue, id), [], None, a.mcount, None)
  }

  function Batch(p: W.Pass, id: Numbering): seq<nat> { Conns(FdSeq(p.wait.Answer()), id) }

  /** After the wait and the drain. */
  ghost function AfterPoll(a: Account, p: W.Pass, id: Numbering): P.Worker {
    P.Worker(P.Polled, Batch(p, id), Waiting(p.rest, id), Conns(Fds(p.items), id), None, a.mcount, None)
  }

  /** In the loop over sel->next, after the first i reports. */
  ghost function InScan(a: Account, p: W.Pass, i: nat, id: Numbering): P.Worker
    requires i <= |p.seen| <= |p.wait.Answer()|
  {
    P.Worker(P.Scanning, Batch(p, id)[i..], Waiting(p.rest + Deferred(a.log, p.seen[..i]), id),
             Conns(Fds(p.items) + DueNow(a.log, p.seen[..i]), id), None, a.mcount + |p.wait.Answer()|, None)
  }

  /** In the loop over ready_fds, after n pings. */
  ghost function InPings(a: Account, p: W.Pass, n: nat, id: Numbering): P.Worker
    requires n <= |W.ToPing(a.log, p)|
  {
    P.Worker(P.Pinging, [], Waiting(p.rest + Deferred(a.log, p.seen), id),
             Conns(W.ToPing(a.log, p), id)[n..], None, a.mcount + |p.wait.Answer()|, None)
  }

  // ---------------------------------------------------------------- the steps of a pass

  function PollOf(p: W.Pass, id: Numbering): P.WorkerStep { P.Poll(Batch(p, id), Conns(Fds(p.items), id)) }

  function ScanSteps(log: seq<Ev>, seen: seq<Ev>): (r: seq<P.WorkerStep>)
    ensures |r| == |seen| && forall i :: 0 <= i < |r| ==> r[i] == P.Scan(!IsDue(log, seen[i]))
  {
    seq(|seen|, i requires 0 <= i < |seen| => P.Scan(!IsDue(log, seen[i])))
  }

  function PingSteps(n: nat): seq<P.WorkerStep> { if n == 0 then [] else PingSteps(n - 1) + [P.Recv, P.Write] }

  /** From the poll to the loop over ready_fds, and n pings. */
  function StepsTo(log: seq<Ev>, p: W.Pass, n: nat, id: Numbering): seq<P.WorkerStep> {
    [PollOf(p, id), P.TestDone] + ScanSteps(log, p.seen) + [P.ScansDone] + PingSteps(n)
  }

  function PassSteps(log: seq<Ev>, p: W.Pass, id: Numbering): seq<P.WorkerStep> {
    StepsTo(log, p, |p.pinged|, id) + [P.PingsDone]
  }

  lemma PollStep(before: Account, p: W.Pass, id: Numbering)
    requires Injective(id) && DistinctFds(p.wait.Answer()) && before.queue == p.rest + multiset(p.items)
    ensures Leads(AtHead(before, id), [PollOf(p, id)], AfterPoll(before, p, id))
  {
    PollEnabled(before, p, id);
    OneStep(AtHead(before, id), PollOf(p, id));
  }

  /** What a poll does to a worker at the head of its loop. */
  lemma PollAtHead(batch: seq<nat>, expired: seq<nat>, rest: multiset<nat>, mcount: nat)
    requires Distinct(batch)
    ensures var k := P.Worker(P.Polling, [], rest + multiset(expired), [], None, mcount, None);
      && P.LocalEnabled(k, P.Poll(batch, expired))
      && Next(k, P.Poll(batch, expired)) == P.Worker(P.Polled, batch, rest, expired, None, mcount, None)
  {
    hide Distinct;
    assert rest + multiset(expired) - multiset(expired) == rest;
  }

  lemma PollEnabled(before: Account, p: W.Pass, id: Numbering)
    requires Injective(id) && DistinctFds(p.wait.Answer()) && before.queue == p.rest + multiset(p.items)
    ensures P.LocalEnabled(AtHead(before, id), PollOf(p, id))
    ensures Next(AtHead(before, id), PollOf(p, id)) == AfterPoll(before, p, id)
  {
    DistinctBatch(p, id);
    WaitingItems(p.rest, p.items, id);
    PollAtHead(Batch(p, id), Conns(Fds(p.items), id), Waiting(p.rest, id), before.mcount);
    hide Next, P.LocalEnabled, Waiting, Batch, Conns, Fds, Injective, DistinctFds, Distinct;
  }

  lemma DistinctBatch(p: W.Pass, id: Numbering)
    requires Injective(id) && DistinctFds(p.wait.Answer())
    ensures Distinct(Batch(p, id))
  {
    assert Distinct(FdSeq(p.wait.Answer()));
    hide DistinctFds, FdSeq;
    DistinctConns(FdSeq(p.wait.Answer()), id);
  }

  lemma ScanStarts(a: Account, p: W.Pass, id: Numbering)
    requires |p.seen| <= |p.wait.Answer()|
    ensures Leads(AfterPoll(a, p, id), [P.TestDone], InScan(a, p, 0, id))
  {
    OneStep(AfterPoll(a, p, id), P.TestDone);
    hide Waiting, Leads;
    assert p.seen[..0] == [] && p.rest + Deferred(a.log, []) == p.rest;
    assert Fds(p.items) + DueNow(a.log, []) == Fds(p.items);
    assert Batch(p, id)[0..] == Batch(p, id);
  }

  lemma DueNowStep(log: seq<Ev>, seen: seq<Ev>, i: nat)
    requires i < |seen| && seen[i].Seen?
    ensures var e, due, deferred := seen[i], DueNow(log, seen[..i]), Deferred(log, seen[..i]);
      if IsDue(log, e) then DueNow(log, seen[..i + 1]) == due + [e.fd] && Deferred(log, seen[..i + 1]) == deferred
      else DueNow(log, seen[..i + 1]) == due &&
           Deferred(log, seen[..i + 1]) == deferred + multiset{FdTimeout(e.fd, DueTime(log, e))}
  {
    assert seen[..i + 1] == seen[..i] + [seen[i]];
    DueNowAppend(log, seen[..i], seen[i]);
  }

  /** What a turn of the loop over sel->next does to the worker. */
  lemma ScanTurn(c: nat, batch: seq<nat>, waiting: multiset<nat>, ready: seq<nat>, mcount: nat, defer: bool)
    ensures var k := P.Worker(P.Scanning, [c] + batch, waiting, ready, None, mcount, None);
      && P.LocalEnabled(k, P.Scan(defer))
      && Next(k, P.Scan(defer)) ==
         (if defer then P.Worker(P.Scanning, batch, waiting + multiset{c}, ready, None, mcount, None)
          else P.Worker(P.Scanning, batch, waiting, ready + [c], None, mcount, None))
  {
    assert ([c] + batch)[1..] == batch;
  }

  /** The queue and the list after one more report. */
  lemma ScanLists(a: Account, p: W.Pass, i: nat, id: Numbering)
    requires i < |p.seen| && p.seen[i].Seen?
    ensures var e := p.seen[i];
      var waiting := Waiting(p.rest + Deferred(a.log, p.seen[..i]), id);
      var ready := Conns(Fds(p.items) + DueNow(a.log, p.seen[..i]), id);
      && Waiting(p.rest + Deferred(a.log, p.seen[..i + 1]), id) ==
         (if IsDue(a.log, e) then waiting else waiting + multiset{id(e.fd)})
      && Conns(Fds(p.items) + DueNow(a.log, p.seen[..i + 1]), id) ==
         (if IsDue(a.log, e) then ready + [id(e.fd)] else ready)
  {
    var e := p.seen[i];
    var listed, queue := Fds(p.items) + DueNow(a.log, p.seen[..i]), p.rest + Deferred(a.log, p.seen[..i]);
    DueNowStep(a.log, p.seen, i);
    hide IsDue, DueTime, DueNow, Deferred, Waiting, Fds;
    if IsDue(a.log, e) {
      ConnsAppend(listed, e.fd, id);
      hide Conns;
      assert listed + [e.fd] == Fds(p.items) + DueNow(a.log, p.seen[..i + 1]);
    } else {
      hide Conns;
      var x := FdTimeout(e.fd, DueTime(a.log, e));
      WaitingAdd(queue, x, id);
      Assoc(p.rest, Deferred(a.log, p.seen[..i]), multiset{x});
    }
  }

  lemma ScanOne(a: Account, p: W.Pass, i: nat, id: Numbering)
    requires i < |p.seen| <= |p.wait.Answer()| && p.seen[i].Seen? && p.seen[i].fd == p.wait.Answer()[i].fd
    ensures P.LocalEnabled(InScan(a, p, i, id), P.Scan(!IsDue(a.log, p.seen[i])))
    ensures Next(InScan(a, p, i, id), P.Scan(!IsDue(a.log, p.seen[i]))) == InScan(a, p, i + 1, id)
  {
    var e, batch := p.seen[i], Batch(p, id);
    assert batch[i] == id(e.fd);
    hide Batch, IsDue, DueNow, Deferred, Waiting, Conns, Fds, P.LocalEnabled, Next;
    assert batch[i..] == [id(e.fd)] + batch[i + 1..];
    ScanLists(a, p, i, id);
    var k := InScan(a, p, i, id);
    ScanTurn(id(e.fd), batch[i + 1..], k.waiting, k.ready, k.mcount, !IsDue(a.log, e));
  }

  /** The reports are those of the answer, as far as they have been looked at. */
  ghost predicate SeenInOrder(p: W.Pass) {
    EvFds(p.seen) <= FdSeq(p.wait.Answer()) && forall e <- p.seen :: e.Seen?
  }

  lemma SeenAt(p: W.Pass, i: nat)
    requires SeenInOrder(p) && i < |p.seen|
    ensures i < |p.wait.Answer()| && p.seen[i].Seen? && p.seen[i].fd == p.wait.Answer()[i].fd
    ensures |p.seen| <= |p.wait.Answer()|
  {
    assert p.seen[i] in p.seen;
    assert EvFds(p.seen)[i] == FdSeq(p.wait.Answer())[i];
  }

  lemma {:induction false} ScanPath(a: Account, p: W.Pass, n: nat, id: Numbering)
    requires SeenInOrder(p) && n <= |p.seen| <= |p.wait.Answer()|
    ensures Leads(InScan(a, p, 0, id), ScanSteps(a.log, p.seen)[..n], InScan(a, p, n, id))
  {
    hide InScan, P.LocalEnabled, Next, IsDue, Leads, SeenInOrder;
    var steps := ScanSteps(a.log, p.seen);
    if n == 0 {
      assert steps[..0] == [];
      NoStep(InScan(a, p, 0, id));
    } else {
      ScanPath(a, p, n - 1, id);
      SeenAt(p, n - 1);
      ScanOne(a, p, n - 1, id);
      OneStep(InScan(a, p, n - 1, id), steps[n - 1]);
      LeadsOn(InScan(a, p, 0, id), steps[..n - 1], InScan(a, p, n - 1, id), [steps[n - 1]], InScan(a, p, n, id));
      assert steps[..n] == steps[..n - 1] + [steps[n - 1]];
    }
  }

  lemma PingsStart(a: Account, p: W.Pass, id: Numbering)
    requires |p.seen| == |p.wait.Answer()|
    ensures Leads(InScan(a, p, |p.seen|, id), [P.ScansDone], InPings(a, p, 0, id))
  {
    assert p.seen[..|p.seen|] == p.seen;
    hide Waiting, DueNow, Deferred;
    var k := InScan(a, p, |p.seen|, id);
    OneStep(k, P.ScansDone);
    hide Leads;
    assert Conns(W.ToPing(a.log, p), id)[0..] == Conns(W.ToPing(a.log, p), id);
  }

  lemma PingOne(a: Account, p: W.Pass, n: nat, id: Numbering)
    requires n < |W.ToPing(a.log, p)|
    ensures Leads(InPings(a, p, n, id), [P.Recv, P.Write], InPings(a, p, n + 1, id))
  {
    hide Waiting, W.ToPing, Deferred;
    var k := InPings(a, p, n, id);
    var all := Conns(W.ToPing(a.log, p), id);
    assert all[n..][1..] == all[n + 1..];
    var received := Next(k, P.Recv);
    assert Next(received, P.Write) == InPings(a, p, n + 1, id);
    OneStep(k, P.Recv);
    OneStep(received, P.Write);
    hide Leads, Next, P.LocalEnabled, InPings;
    LeadsOn(k, [P.Recv], received, [P.Write], InPings(a, p, n + 1, id));
    assert [P.Recv] + [P.Write] == [P.Recv, P.Write];
  }

  lemma {:induction false} PingPath(a: Account, p: W.Pass, n: nat, id: Numbering)
    requires n <= |W.ToPing(a.log, p)|
    ensures Leads(InPings(a, p, 0, id), PingSteps(n), InPings(a, p, n, id))
  {
    hide Leads, InPings, W.ToPing;
    if n == 0 {
      NoStep(InPings(a, p, 0, id));
    } else {
      PingPath(a, p, n - 1, id);
      PingOne(a, p, n - 1, id);
      var mid := InPings(a, p, n - 1, id);
      LeadsOn(InPings(a, p, 0, id), PingSteps(n - 1), mid, [P.Recv, P.Write], InPings(a, p, n, id));
    }
  }

  /** To the first n reports. */
  lemma PathToScan(before: Account, p: W.Pass, n: nat, id: Numbering)
    requires Injective(id) && W.PassWaits(before, p) && SeenInOrder(p) && n <= |p.seen| <= |p.wait.Answer()|
    ensures Leads(AtHead(before, id), [PollOf(p, id), P.TestDone] + ScanSteps(before.log, p.seen)[..n],
                  InScan(before, p, n, id))
  {
    PollStep(before, p, id);
    ScanStarts(before, p, id);
    ScanPath(before, p, n, id);
    hide Leads, AtHead, AfterPoll, InScan, PollOf, SeenInOrder, W.PassWaits, Injective;
    LeadsOn(AtHead(before, id), [PollOf(p, id)], AfterPoll(before, p, id), [P.TestDone], InScan(before, p, 0, id));
    assert [PollOf(p, id)] + [P.TestDone] == [PollOf(p, id), P.TestDone];
    LeadsOn(AtHead(before, id), [PollOf(p, id), P.TestDone], InScan(before, p, 0, id),
            ScanSteps(before.log, p.seen)[..n], InScan(before, p, n, id));
  }

  /** To the first n pings. */
  lemma PathToPings(before: Account, p: W.Pass, n: nat, id: Numbering)
    requires Injective(id) && W.PassWaits(before, p) && EvFds(p.seen) == FdSeq(p.wait.Answer())
    requires n <= |W.ToPing(before.log, p)|
    ensures Leads(AtHead(before, id), StepsTo(before.log, p, n, id), InPings(before, p, n, id))
  {
    assert |p.seen| == |EvFds(p.seen)| == |p.wait.Answer()|;
    assert SeenInOrder(p);
    PathToScan(before, p, |p.seen|, id);
    PingsStart(before, p, id);
    PingPath(before, p, n, id);
    var scans := ScanSteps(before.log, p.seen);
    assert scans[..|p.seen|] == scans;
    hide Leads, AtHead, InScan, InPings, PollOf, W.PassWaits, Injective, ScanSteps, PingSteps, W.ToPing;
    var start := [PollOf(p, id), P.TestDone] + scans;
    var head, scanned := AtHead(before, id), InPings(before, p, 0, id);
    LeadsOn(head, start, InScan(before, p, |p.seen|, id), [P.ScansDone], scanned);
    LeadsOn(head, start + [P.ScansDone], scanned, PingSteps(n), InPings(before, p, n, id));
  }

  /** A whole pass takes the worker of the transition system from the head of its loop to the head of its loop. */
  lemma PassIsPath(before: Account, after: Account, p: W.Pass, id: Numbering)
    requires W.CompletePass(before, after, p) && Injective(id)
    ensures Leads(AtHead(before, id), PassSteps(before.log, p, id), AtHead(after, id))
  {
    var n := |p.pinged|;
    assert n == |EvFds(p.pinged)| == |W.ToPing(before.log, p)|;
    PathToPings(before, p, n, id);
    PassEnds(before, after, p, id);
    hide Leads, AtHead, InPings, StepsTo, W.CompletePass;
    var pinged := InPings(before, p, n, id);
    LeadsOn(AtHead(before, id), StepsTo(before.log, p, n, id), pinged, [P.PingsDone], AtHead(after, id));
  }

  lemma PassEnds(before: Account, after: Account, p: W.Pass, id: Numbering)
    requires W.CompletePass(before, after, p) && |p.pinged| == |W.ToPing(before.log, p)|
    ensures Leads(InPings(before, p, |p.pinged|, id), [P.PingsDone], AtHead(after, id))
  {
    assert |p.seen| == |EvFds(p.seen)| == |p.wait.Answer()|;
    hide Waiting, Deferred, DueNow, W.PassWaits;
    OneStep(InPings(before, p, |p.pinged|, id), P.PingsDone);
  }

  // ---------------------------------------------------------------- passes that return

  /** The steps of a pass that returns, but for the last one. */
  function PartSteps(log: seq<Ev>, p: W.Pass, why: W.Why, id: Numbering): seq<P.WorkerStep> {
    match why
    case WaitFailed => []
    case DoneAfterWait => [PollOf(p, id)]
    case DoneInScan =>
      [PollOf(p, id), P.TestDone] + (if p.seen == [] then [] else ScanSteps(log, p.seen)[..|p.seen| - 1])
    case NotWritten => StepsTo(log, p, |p.pinged|, id) + [P.Recv]
    case _ => StepsTo(log, p, |p.pinged|, id)
  }

  /** The step that leaves the loop. */
  function LastStep(why: W.Why): P.WorkerStep {
    match why
    case WaitFailed => P.PollFails
    case DoneAfterWait => P.TestDone
    case DoneInScan => P.Scan(false)
    case DoneAtPing => P.StopPinging
    case NotReceived => P.RecvFails
    case NotWritten => P.WriteBreaks
  }

  /** Whether done is seen to be set. */
  function SeesDone(why: W.Why): bool { why.DoneAfterWait? || why.DoneInScan? || why.DoneAtPing? }

  /** The reason the worker leaves for. */
  function ReasonOf(log: seq<Ev>, p: W.Pass, why: W.Why, id: Numbering): P.Reason {
    if why.WaitFailed? then P.PollError
    else if SeesDone(why) || |p.pinged| >= |W.ToPing(log, p)| then P.SawDone
    else P.PingFailed(id(W.ToPing(log, p)[|p.pinged|]))
  }

  /** The last step leaves the loop for its reason, with the counter and the queue of the account. */
  ghost predicate LeavesFrom(k: P.Worker, why: W.Why, reason: P.Reason, after: Account, id: Numbering) {
    && P.LocalEnabled(k, LastStep(why))
    && var t := P.WorkerNext(k, SeesDone(why), LastStep(why));
       t.pc.Leaving? && t.reason == Some(reason) && t.mcount == after.mcount && t.waiting == Waiting(after.queue, id)
  }

  /** A pass that returns is a path of the worker, and its last step leaves the loop for the reason of the return. */
  lemma ReturnIsPath(before: Account, after: Account, p: W.Pass, why: W.Why, id: Numbering) returns (k: P.Worker)
    requires W.PartOfPass(before, after, p, why) && Injective(id)
    ensures Leads(AtHead(before, id), PartSteps(before.log, p, why, id), k)
    ensures LeavesFrom(k, why, ReasonOf(before.log, p, why, id), after, id)
  {
    hide Leads, LeavesFrom;
    match why {
      case WaitFailed =>
        k := AtHead(before, id);
        NoStep(k);
        LeavesAtHead(before, after, p, id);
      case DoneAfterWait =>
        k := AfterPoll(before, p, id);
        PollStep(before, p, id);
        LeavesAfterPoll(before, after, p, id);
      case DoneInScan =>
        var n := |p.seen| - 1;
        assert |p.seen| == |EvFds(p.seen)| <= |p.wait.Answer()|;
        k := InScan(before, p, n, id);
        PathToScan(before, p, n, id);
        LeavesInScan(before, after, p, id);
      case _ =>
        k := LeavesInPings(before, after, p, why, id);
    }
  }

  lemma LeavesAtHead(before: Account, after: Account, p: W.Pass, id: Numbering)
    requires W.PartOfPass(before, after, p, W.WaitFailed)
    ensures LeavesFrom(AtHead(before, id), W.WaitFailed, P.PollError, after, id)
  {
  }

  lemma LeavesAfterPoll(before: Account, after: Account, p: W.Pass, id: Numbering)
    requires W.PartOfPass(before, after, p, W.DoneAfterWait)
    ensures LeavesFrom(AfterPoll(before, p, id), W.DoneAfterWait, P.SawDone, after, id)
  {
    hide W.PassWaits, Waiting;
  }

  /** Leaving the loops: the reason is noted, the queue and the counter stay. */
  lemma LeaveTurn(k: P.Worker, why: W.Why)
    requires P.LocalEnabled(k, LastStep(why)) && !why.DoneAfterWait? && !why.WaitFailed?
    ensures var t := P.WorkerNext(k, SeesDone(why), LastStep(why));
      && t.pc.Leaving? && t.mcount == k.mcount && t.waiting == k.waiting
      && t.reason == Some(if SeesDone(why) then P.SawDone
                          else P.PingFailed(if why.NotWritten? then k.echo.value else k.ready[0]))
  {
  }

  lemma LeavesInScan(before: Account, after: Account, p: W.Pass, id: Numbering)
    requires W.PartOfPass(before, after, p, W.DoneInScan) && |p.seen| <= |p.wait.Answer()|
    ensures LeavesFrom(InScan(before, p, |p.seen| - 1, id), W.DoneInScan, P.SawDone, after, id)
  {
    var n := |p.seen| - 1;
    assert p.seen[n] in p.seen && EvFds(p.seen)[n] == FdSeq(p.wait.Answer())[n];
    ScanOne(before, p, n, id);
    ScanLists(before, p, n, id);
    assert p.seen[..n + 1] == p.seen;
    hide W.PassWaits, Waiting, Deferred, DueNow, IsDue, Conns, Fds, P.LocalEnabled, Next, P.WorkerNext, EvFds, FdSeq;
    hide Batch;
    LeaveTurn(InScan(before, p, n, id), W.DoneInScan);
  }

  /** Whether a worker in the loop over ready_fds may leave it. */
  lemma MayLeavePings(k: P.Worker)
    requires P.NextPing(k).Some?
    ensures P.LocalEnabled(k, P.StopPinging) && P.LocalEnabled(k, P.RecvFails) && P.LocalEnabled(k, P.Recv)
    ensures var received := Next(k, P.Recv);
      && received.mcount == k.mcount && received.waiting == k.waiting
      && received.echo == P.NextPing(k) && P.LocalEnabled(received, P.WriteBreaks)
  {
  }

  /** The place where the loop over ready_fds is left. */
  lemma LeavesInPings(before: Account, after: Account, p: W.Pass, why: W.Why, id: Numbering) returns (k: P.Worker)
    requires W.PartOfPass(before, after, p, why) && Injective(id)
    requires why.DoneAtPing? || why.NotReceived? || why.NotWritten?
    ensures Leads(AtHead(before, id), PartSteps(before.log, p, why, id), k)
    ensures LeavesFrom(k, why, ReasonOf(before.log, p, why, id), after, id)
  {
    var n := |p.pinged|;
    k := InPings(before, p, n, id);
    NextToPing(before, p, n, id);
    PathToPings(before, p, n, id);
    hide Leads, AtHead, StepsTo, W.PassWaits, W.ToPing, Waiting, Deferred, Conns, P.LocalEnabled, P.WorkerNext, Next;
    MayLeavePings(k);
    if why.NotWritten? {
      var received := Next(k, P.Recv);
      OneStep(k, P.Recv);
      LeadsOn(AtHead(before, id), StepsTo(before.log, p, n, id), k, [P.Recv], received);
      k := received;
    }
    LeaveTurn(k, why);
  }

  lemma NextToPing(a: Account, p: W.Pass, n: nat, id: Numbering)
    requires n < |W.ToPing(a.log, p)|
    ensures P.NextPing(InPings(a, p, n, id)) == Some(id(W.ToPing(a.log, p)[n]))
  {
    hide Waiting, Deferred, W.ToPing;
    assert Conns(W.ToPing(a.log, p), id)[n..][0] == id(W.ToPing(a.log, p)[n]);
  }
}
