/** The pauses of a run of the system: on a connection that stays intact no ping goes early. */
module Pacing {
  import opened Totals
  import opened Protocol
  import opened ProtocolInvariant
  import opened Kernel
  import opened WaitQueue
  import opened History
  import opened Books
  import opened Execution
  import W = Worker
  import R = Refinement

  // ---------------------------------------------------------------- broken connections stay broken

  lemma WorkerLeavesBroken(cfg: Config, s: State, w: nat, st: WorkerStep, c: nat)
    requires Sized(cfg, s) && WorkerEnabled(cfg, s, w, st) && c < cfg.conns && s.conns[c].broken
    ensures WorkerApply(cfg, s, w, st).conns[c].broken
  {
    BrokenStays(cfg, s, w, st);
    hide LocalEnabled, SharedEnabled, WorkerNext, WorkerConns;
  }

  lemma ClientLeavesBroken(cfg: Config, s: State, l: ClientStep, c: nat)
    requires Sized(cfg, s) && ClientEnabled(cfg, s, l) && c < cfg.conns && s.conns[c].broken
    ensures ClientApply(cfg, s, l).conns[c].broken
  {
  }

  lemma StepLeavesBroken(cfg: Config, s: State, st: Step, c: nat)
    requires Sized(cfg, s) && Enabled(cfg, s, st) && c < cfg.conns && s.conns[c].broken
    ensures Apply(cfg, s, st).conns[c].broken
  {
    hide WorkerEnabled, WorkerApply, ClientEnabled, ClientApply;
    match st
    case ByMain(m) =>
    case ByWorker(w, k) => WorkerLeavesBroken(cfg, s, w, k, c);
    case ByClient(l) => ClientLeavesBroken(cfg, s, l, c);
    case ByNetwork(d, n) =>
  }

  lemma {:induction false} RunLeavesBroken(cfg: Config, s: State, steps: seq<Step>, c: nat)
    requires Sized(cfg, s) && Executable(cfg, s, steps) && c < cfg.conns && s.conns[c].broken
    ensures Run(cfg, s, steps).conns[c].broken
    decreases |steps|
  {
    hide Enabled, Apply;
    if steps != [] {
      StepLeavesBroken(cfg, s, steps[0], c);
      RunLeavesBroken(cfg, Apply(cfg, s, steps[0]), steps[1..], c);
    }
  }

  /** What is intact after a run was intact before it. */
  lemma IntactBefore(cfg: Config, s: State, steps: seq<Step>, c: nat)
    requires Sized(cfg, s) && Executable(cfg, s, steps)
    requires c < cfg.conns ==> !Run(cfg, s, steps).conns[c].broken
    ensures c < cfg.conns ==> !s.conns[c].broken
  {
    if c < cfg.conns && s.conns[c].broken {
      RunLeavesBroken(cfg, s, steps, c);
    }
  }

  // ---------------------------------------------------------------- nothing reported has a place

  lemma {:induction false} EntryOf(q: multiset<FdTimeout>, fd: int) returns (x: FdTimeout)
    requires fd in FdsIn(q)
    ensures x in q && x.fd == fd
  {
    x := ImageOrigin((y: FdTimeout) => y.fd, q, fd);
  }

  /** epoll does not report a descriptor of an intact connection that waits in the queue. */
  lemma ReportedHasNoEntry(cfg: Config, s: State, w: nat, a: Account, p: W.Pass, id: R.Numbering, fd: int)
    requires Inv(cfg, s) && w < cfg.workers && s.workers[w] == R.AtHead(a, id) && HasEdges(cfg, s, w, R.Batch(p, id))
    requires fd in FdSeq(p.wait.Answer()) && (id(fd) < cfg.conns ==> !s.conns[id(fd)].broken)
    ensures FdsIn(a.queue)[fd] == 0
  {
    var c := id(fd);
    var i :| 0 <= i < |FdSeq(p.wait.Answer())| && FdSeq(p.wait.Answer())[i] == fd;
    assert R.Batch(p, id)[i] == c && c in R.Batch(p, id);
    assert TokenInv(cfg, s, c) && R.Waiting(a.queue, id)[c] == 0;
    WaitsIn(a.queue, fd, id);
  }

  lemma WaitsIn(q: multiset<FdTimeout>, fd: int, id: R.Numbering)
    ensures fd in FdsIn(q) ==> id(fd) in R.Waiting(q, id)
  {
    if fd in FdsIn(q) {
      var x := EntryOf(q, fd);
      ImageMember((y: FdTimeout) => id(y.fd), q, x);
    }
  }

  // ---------------------------------------------------------------- what a pass does to a calm history

  lemma {:induction false} ReportsStayCalm(log: seq<Ev>, seen: seq<Ev>, fd: int)
    requires Calm(log, fd) && (forall e <- seen :: e.Seen?) && Distinct(EvFds(seen))
    requires fd in EvFds(seen) ==> SeenCount(log, fd) == PingCount(log, fd)
    ensures Calm(log + seen, fd) && PingCount(log + seen, fd) == PingCount(log, fd)
    ensures SeenCount(log + seen, fd) == SeenCount(log, fd) + (if fd in EvFds(seen) then 1 else 0)
  {
    if seen == [] {
      assert log + seen == log;
    } else {
      var n := |seen| - 1;
      var e := seen[n];
      assert seen == seen[..n] + [e] && EvFds(seen) == EvFds(seen[..n]) + [e.fd];
      assert e.fd !in EvFds(seen[..n]);
      DistinctFront(EvFds(seen), n);
      BalanceOfCalm(log, fd);
      hide Calm, SeenCount, PingCount, EvFds, Distinct;
      ReportsStayCalm(log, seen[..n], fd);
      assert log + seen == log + seen[..n] + [e];
      AfterSeen(log + seen[..n], e);
      CalmAppend(log + seen[..n], e, fd);
    }
  }

  lemma DistinctFront(s: seq<int>, n: nat)
    requires Distinct(s) && n <= |s|
    ensures Distinct(s[..n])
  {
  }

  lemma {:induction false} PingsStayCalm(log: seq<Ev>, pinged: seq<Ev>, fd: int)
    requires Calm(log, fd) && (forall e <- pinged :: e.Pinged?)
    ensures Calm(log + pinged, fd)
  {
    if pinged == [] {
      assert log + pinged == log;
    } else {
      var n := |pinged| - 1;
      var e := pinged[n];
      assert pinged == pinged[..n] + [e];
      hide Calm, SeenCount, PingCount;
      PingsStayCalm(log, pinged[..n], fd);
      assert log + pinged == log + pinged[..n] + [e];
      BalanceOfCalm(log + pinged[..n], fd);
      AfterPing(log + pinged[..n], e);
      CalmAppend(log + pinged[..n], e, fd);
    }
  }

  /** The events of a pass, complete or not: a first part of the reports, each looked at once, and pings. */
  ghost predicate EventsOfPass(before: Account, after: Account, p: W.Pass) {
    && after.log == before.log + p.seen + p.pinged
    && (forall e <- p.seen :: e.Seen?) && (forall e <- p.pinged :: e.Pinged?)
    && EvFds(p.seen) <= FdSeq(p.wait.Answer()) && Distinct(EvFds(p.seen))
  }

  lemma DistinctPrefix(s: seq<int>, t: seq<int>)
    requires s <= t && Distinct(t)
    ensures Distinct(s)
  {
    assert s == t[..|s|];
  }

  lemma CompleteEvents(before: Account, after: Account, p: W.Pass)
    requires W.CompletePass(before, after, p)
    ensures EventsOfPass(before, after, p)
  {
    assert Distinct(FdSeq(p.wait.Answer()));
    DistinctPrefix(EvFds(p.seen), FdSeq(p.wait.Answer()));
  }

  lemma PartEvents(before: Account, after: Account, p: W.Pass, why: W.Why)
    requires W.PartOfPass(before, after, p, why) && !why.WaitFailed?
    ensures EventsOfPass(before, after, p)
  {
    assert Distinct(FdSeq(p.wait.Answer()));
    DistinctPrefix(EvFds(p.seen), FdSeq(p.wait.Answer()));
  }

  /** A pass keeps calm what it finds without an open report, or does not report. */
  lemma PassStaysCalm(before: Account, after: Account, p: W.Pass, fd: int)
    requires EventsOfPass(before, after, p) && Calm(before.log, fd)
    requires fd in EvFds(p.seen) ==> SeenCount(before.log, fd) == PingCount(before.log, fd)
    ensures Calm(after.log, fd)
  {
    hide Calm, SeenCount, PingCount, EvFds, Distinct;
    ReportsStayCalm(before.log, p.seen, fd);
    PingsStayCalm(before.log + p.seen, p.pinged, fd);
  }

  /** In the system a pass keeps a descriptor calm whose connection is intact at the end. */
  lemma PassKeepsCalm(cfg: Config, s: State, w: nat, before: Account, after: Account, p: W.Pass,
      steps: seq<WorkerStep>, between: seq<seq<Step>>, id: R.Numbering, fd: int)
    requires Inv(cfg, s) && w < cfg.workers && s.workers[w] == R.AtHead(before, id)
    requires steps != [] && steps[0] == R.PollOf(p, id) && R.IsPath(s.workers[w], steps)
    requires Woven(cfg, s, w, steps, between) && Executable(cfg, s, Weave(w, steps, between))
    requires id(fd) < cfg.conns ==> !Run(cfg, s, Weave(w, steps, between)).conns[id(fd)].broken
    requires EventsOfPass(before, after, p) && EventsPlaced(before.log, before.queue, []) && Calm(before.log, fd)
    ensures Calm(after.log, fd)
  {
    PollNeedsEdges(cfg, s, w, p, id);
    assert between != [];
    hide *;
    if fd in EvFds(p.seen) {
      var t := WovenHead(cfg, s, w, steps, between);
      IntactEarlier(cfg, s, w, steps, between, t, id(fd));
      PollNeedsEdges(cfg, t, w, p, id);
      SeenIsReported(before, after, p, fd);
      ReportedHasNoEntry(cfg, t, w, before, p, id, fd);
      NoOpenReport(before, fd);
    }
    PassStaysCalm(before, after, p, fd);
  }

  lemma PollNeedsEdges(cfg: Config, s: State, w: nat, p: W.Pass, id: R.Numbering)
    requires Sized(cfg, s) && w < cfg.workers
    ensures InLoop(R.PollOf(p, id))
    ensures Lets(cfg, s, w, R.PollOf(p, id)) ==> HasEdges(cfg, s, w, R.Batch(p, id))
  {
    hide HasEdges, R.Batch;
  }

  lemma SeenIsReported(before: Account, after: Account, p: W.Pass, fd: int)
    requires EventsOfPass(before, after, p) && fd in EvFds(p.seen)
    ensures fd in FdSeq(p.wait.Answer())
  {
    hide EvFds, FdSeq, Distinct;
    var i :| 0 <= i < |EvFds(p.seen)| && EvFds(p.seen)[i] == fd;
    assert FdSeq(p.wait.Answer())[i] == fd;
  }

  lemma NoOpenReport(a: Account, fd: int)
    requires EventsPlaced(a.log, a.queue, []) && FdsIn(a.queue)[fd] == 0
    ensures SeenCount(a.log, fd) == PingCount(a.log, fd)
  {
    hide SeenCount, PingCount, FdsIn;
  }

  /** What is intact at the end of a path was intact before its first step. */
  lemma IntactEarlier(cfg: Config, s: State, w: nat, steps: seq<WorkerStep>, between: seq<seq<Step>>, t: State, c: nat)
    requires Sized(cfg, s) && steps != [] && between != [] && Executable(cfg, s, Weave(w, steps, between))
    requires Executable(cfg, s, between[0]) && t == Run(cfg, s, between[0])
    requires c < cfg.conns ==> !Run(cfg, s, Weave(w, steps, between)).conns[c].broken
    ensures c < cfg.conns ==> !t.conns[c].broken
  {
    var rest := [ByWorker(w, steps[0])] + Weave(w, steps[1..], between[1..]);
    RunsJoin(cfg, s, between[0], rest);
    IntactBefore(cfg, t, rest, c);
  }

  // ---------------------------------------------------------------- whole runs

  /** Every report has its place in the queue at the loop heads. */
  ghost predicate PlacedAtHeads(accounts: seq<Account>, records: seq<W.Pass>)
    requires |accounts| == |records| + 1
  {
    forall i :: 0 <= i < |records| ==> EventsPlaced(accounts[i].log, accounts[i].queue, [])
  }

  /** The first pass of a run keeps calm what is intact after it. */
  lemma HeadKeepsCalm(cfg: Config, s: State, w: nat, accounts: seq<Account>, records: seq<W.Pass>, exit: W.Exit,
      between: seq<seq<Step>>, id: R.Numbering, fd: int)
    requires Inv(cfg, s) && w < cfg.workers && W.Chain(accounts, records, exit) && R.Injective(id) && records != []
    requires s.workers[w] == R.AtHead(accounts[0], id)
    requires Woven(cfg, s, w, HeadSteps(accounts, records, exit, id), between)
    requires Executable(cfg, s, Weave(w, HeadSteps(accounts, records, exit, id), between))
    requires id(fd) < cfg.conns ==>
      !Run(cfg, s, Weave(w, HeadSteps(accounts, records, exit, id), between)).conns[id(fd)].broken
    requires EventsPlaced(accounts[0].log, accounts[0].queue, []) && Calm(accounts[0].log, fd)
    ensures Calm(accounts[1].log, fd)
  {
    var before, after, p := accounts[0], accounts[1], records[0];
    var steps := HeadSteps(accounts, records, exit, id);
    ChainHead(accounts, records, exit);
    if exit.Returned? && |records| == 1 {
      if exit.why.WaitFailed? {
        NothingHappened(before, after, p);
      } else {
        PartEvents(before, after, p, exit.why);
        PartStepsInLoop(before.log, p, exit.why, id);
        var k := R.ReturnIsPath(before, after, p, exit.why, id);
        hide *;
        PassKeepsCalm(cfg, s, w, before, after, p, steps, between, id, fd);
      }
    } else {
      CompleteEvents(before, after, p);
      PassStepsInLoop(before.log, p, id);
      R.PassIsPath(before, after, p, id);
      hide *;
      PassKeepsCalm(cfg, s, w, before, after, p, steps, between, id, fd);
    }
  }

  lemma NothingHappened(before: Account, after: Account, p: W.Pass)
    requires W.PartOfPass(before, after, p, W.WaitFailed)
    ensures after.log == before.log
  {
  }

  lemma {:induction false} RunStaysCalm(cfg: Config, s: State, w: nat, accounts: seq<Account>, records: seq<W.Pass>,
      exit: W.Exit, between: seq<seq<seq<Step>>>, id: R.Numbering, fd: int)
    requires Inv(cfg, s) && w < cfg.workers && W.Chain(accounts, records, exit) && R.Injective(id)
    requires s.workers[w] == R.AtHead(accounts[0], id)
    requires Interleaved(cfg, s, w, accounts, records, exit, between, id)
    requires Executable(cfg, s, AllSteps(w, accounts, records, exit, between, id))
    requires id(fd) < cfg.conns ==>
      !Run(cfg, s, AllSteps(w, accounts, records, exit, between, id)).conns[id(fd)].broken
    requires PlacedAtHeads(accounts, records) && Calm(accounts[0].log, fd)
    ensures forall i :: 0 <= i < |accounts| ==> Calm(accounts[i].log, fd)
    decreases |records|
  {
    assert Sized(cfg, s) && |accounts| == |records| + 1;
    assert records != [] ==> EventsPlaced(accounts[0].log, accounts[0].queue, []);
    TailIsPlaced(accounts, records);
    hide *;
    if records != [] {
      InterleavedHead(cfg, s, w, accounts, records, exit, between, id);
      var pass := Weave(w, HeadSteps(accounts, records, exit, id), between[0]);
      var t := HeadExecutes(cfg, s, w, accounts, records, exit, between[0], id);
      var rest := AllSteps(w, accounts[1..], records[1..], exit, between[1..], id);
      RunsJoin(cfg, s, pass, rest);
      IntactBefore(cfg, t, rest, id(fd));
      HeadKeepsCalm(cfg, s, w, accounts, records, exit, between[0], id, fd);
      if !(exit.Returned? && |records| == 1) {
        InvIsSized(cfg, t);
        RunStaysCalm(cfg, t, w, accounts[1..], records[1..], exit, between[1..], id, fd);
      }
      forall i | 0 <= i < |accounts| ensures Calm(accounts[i].log, fd) {
        assert i > 0 ==> accounts[i] == accounts[1..][i - 1];
      }
    }
  }

  lemma TailIsPlaced(accounts: seq<Account>, records: seq<W.Pass>)
    requires |accounts| == |records| + 1 && PlacedAtHeads(accounts, records)
    ensures records != [] ==> PlacedAtHeads(accounts[1..], records[1..])
  {
    hide EventsPlaced;
  }

  lemma OrderPlaces(accounts: seq<Account>, records: seq<W.Pass>, nows: seq<nat>, exit: W.Exit, tmin: nat, tmax: nat)
    requires W.Chain(accounts, records, exit) && W.HeadsInOrder(accounts, nows, exit, tmin, tmax)
    ensures PlacedAtHeads(accounts, records) && Proper(accounts[|records|].log, tmin, tmax)
  {
    hide Proper, Latencies, MapsMatch, EventsPlaced, Timely, Total, SeenTotal, W.CompletePass, W.PartOfPass;
  }

  /**
   A run of the class as its contract describes it, on whatever epoll instance, and the steps of the others between its
   steps, from a reachable state in which worker w is where the run begins.
   */
  ghost predicate SystemRun(cfg: Config, s: State, w: nat, accounts: seq<Account>, records: seq<W.Pass>,
      nows: seq<nat>, exit: W.Exit, between: seq<seq<seq<Step>>>, id: R.Numbering, tmin: nat, tmax: nat) {
    && |accounts| == |records| + 1 && W.Chain(accounts, records, exit)
    && W.HeadsInOrder(accounts, nows, exit, tmin, tmax)
    && cfg.Valid() && Reachable(cfg, s) && Sized(cfg, s) && w < cfg.workers
    && R.Injective(id) && s.workers[w] == R.AtHead(accounts[0], id)
    && Interleaved(cfg, s, w, accounts, records, exit, between, id)
  }

  /** Connection c is intact after the steps. */
  ghost predicate IntactAfter(cfg: Config, s: State, steps: seq<Step>, c: nat) {
    Sized(cfg, s) && Executable(cfg, s, steps) && (c < cfg.conns ==> !Run(cfg, s, steps).conns[c].broken)
  }

  /** What a run of the system gives to the proofs below. */
  lemma SystemRunFacts(cfg: Config, s: State, w: nat, accounts: seq<Account>, records: seq<W.Pass>, nows: seq<nat>,
      exit: W.Exit, between: seq<seq<seq<Step>>>, id: R.Numbering, tmin: nat, tmax: nat)
    requires SystemRun(cfg, s, w, accounts, records, nows, exit, between, id, tmin, tmax)
    ensures |accounts| == |records| + 1 && Inv(cfg, s) && Sized(cfg, s) && w < cfg.workers
    ensures W.Chain(accounts, records, exit) && R.Injective(id) && s.workers[w] == R.AtHead(accounts[0], id)
    ensures Interleaved(cfg, s, w, accounts, records, exit, between, id)
    ensures PlacedAtHeads(accounts, records) && Proper(accounts[|records|].log, tmin, tmax)
    ensures |nows| <= |accounts| && forall i :: 0 <= i < |nows| ==> InOrder(accounts[i], [], 0, nows[i], tmin, tmax)
  {
    hide W.Chain, Inv, Interleaved, R.AtHead, R.Injective, PlacedAtHeads, Proper, InOrder, AtLeast;
    ReachableInv(cfg, s);
    OrderPlaces(accounts, records, nows, exit, tmin, tmax);
  }

  /**
   In a run of the system no descriptor whose connection is intact at the end has been reported again before its last
   report was answered, and at every loop head its open reports are one if it waits and none otherwise.
   */
  lemma SystemStaysCalm(cfg: Config, s: State, w: nat, accounts: seq<Account>, records: seq<W.Pass>, nows: seq<nat>,
      exit: W.Exit, between: seq<seq<seq<Step>>>, id: R.Numbering, tmin: nat, tmax: nat, fd: int)
    requires SystemRun(cfg, s, w, accounts, records, nows, exit, between, id, tmin, tmax)
    requires Calm(accounts[0].log, fd) && IntactAfter(cfg, s, AllSteps(w, accounts, records, exit, between, id), id(fd))
    ensures forall i :: 0 <= i < |accounts| ==> Calm(accounts[i].log, fd)
    ensures |nows| <= |accounts| && forall i :: 0 <= i < |nows| ==> ZeroOrOne(accounts[i], fd)
  {
    SystemRunFacts(cfg, s, w, accounts, records, nows, exit, between, id, tmin, tmax);
    var steps := AllSteps(w, accounts, records, exit, between, id);
    assert Executable(cfg, s, steps) && (id(fd) < cfg.conns ==> !Run(cfg, s, steps).conns[id(fd)].broken);
    hide *;
    RunStaysCalm(cfg, s, w, accounts, records, exit, between, id, fd);
    forall i | 0 <= i < |nows| ensures ZeroOrOne(accounts[i], fd) {
      ZeroOrOneIff(accounts[i], nows[i], tmin, tmax, fd);
    }
  }

  /**
   Pacing in the system: in everything a worker has done, until a loop head or until its return, the m-th and the n-th
   ping of a socket whose connection is intact are at least n - m times the minimal timeout apart.
   */
  lemma SystemPingsAreSpaced(cfg: Config, s: State, w: nat, accounts: seq<Account>, records: seq<W.Pass>,
      nows: seq<nat>, exit: W.Exit, between: seq<seq<seq<Step>>>, id: R.Numbering, tmin: nat, tmax: nat, fd: int,
      m: nat, n: nat)
    requires SystemRun(cfg, s, w, accounts, records, nows, exit, between, id, tmin, tmax)
    requires Calm(accounts[0].log, fd) && IntactAfter(cfg, s, AllSteps(w, accounts, records, exit, between, id), id(fd))
    requires NoOverflow(accounts[|records|].log, fd, tmax) && m < n < |Pings(accounts[|records|].log, fd)|
    ensures var pings := Pings(accounts[|records|].log, fd);
      && pings[m].Pinged? && pings[n].Pinged?
      && pings[m].stamp + Pauses(n - m, tmin) <= pings[n].start
  {
    hide *;
    SystemRunFacts(cfg, s, w, accounts, records, nows, exit, between, id, tmin, tmax);
    SystemStaysCalm(cfg, s, w, accounts, records, nows, exit, between, id, tmin, tmax, fd);
    PingsAreSpaced(accounts[|records|].log, fd, tmin, tmax, m, n);
  }

  /** The steps of such a run can be taken, and lead to a reachable state. */
  lemma SystemRunExecutes(cfg: Config, s: State, w: nat, accounts: seq<Account>, records: seq<W.Pass>,
      nows: seq<nat>, exit: W.Exit, between: seq<seq<seq<Step>>>, id: R.Numbering, tmin: nat, tmax: nat)
    requires SystemRun(cfg, s, w, accounts, records, nows, exit, between, id, tmin, tmax)
    ensures Executable(cfg, s, AllSteps(w, accounts, records, exit, between, id))
    ensures Reachable(cfg, Run(cfg, s, AllSteps(w, accounts, records, exit, between, id)))
  {
    assert cfg.Valid() && Reachable(cfg, s);
    SystemRunFacts(cfg, s, w, accounts, records, nows, exit, between, id, tmin, tmax);
    hide *;
    RunExecutes(cfg, s, w, accounts, records, exit, between, id);
    ReachableOn(cfg, s, AllSteps(w, accounts, records, exit, between, id));
  }

  lemma ReachableOn(cfg: Config, s: State, steps: seq<Step>)
    requires cfg.Valid() && Reachable(cfg, s) && Sized(cfg, s) && Executable(cfg, s, steps)
    ensures Reachable(cfg, Run(cfg, s, steps))
  {
    hide Executable, Run;
    var start :| Executable(cfg, Init(cfg), start) && Run(cfg, Init(cfg), start) == s;
    RunsJoin(cfg, Init(cfg), start, steps);
  }
}
