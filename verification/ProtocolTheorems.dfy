/** The guarantees of the load test, as statements about every reachable state and every run. */
module ProtocolTheorems {
  import opened Totals
  import opened Protocol
  import opened ProtocolInvariant

  // ---------------------------------------------------------------- one message per connection

  /** Once its initial write is done, an intact connection holds exactly one message. */
  lemma OneMessagePerConnection(cfg: Config, s: State, c: nat)
    requires cfg.Valid() && Reachable(cfg, s) && c < cfg.conns && !s.conns[c].broken
    ensures Sized(cfg, s) && Tokens(cfg, s, c) == if Started(s, c) then 1 else 0
  {
    ReachableInv(cfg, s);
    assert TokenInv(cfg, s, c);
  }

  /**
   No wake-up is lost and none is doubled: an unread message has exactly one notification, which is
   either still pending in epoll or sits once in exactly one of the worker's three lists; without
   an unread message the descriptor is nowhere.
   */
  lemma UnreadMessageHasOneNotification(cfg: Config, s: State, c: nat)
    requires cfg.Valid() && Reachable(cfg, s) && c < cfg.conns && !s.conns[c].broken
    ensures Sized(cfg, s)
    ensures var k := s.workers[cfg.owner[c]];
      && s.conns[c].serverBuf <= 1
      && B(s.conns[c].serverEdge) + multiset(k.batch)[c] + k.waiting[c] + multiset(k.ready)[c] == s.conns[c].serverBuf
  {
    ReachableInv(cfg, s);
    assert TokenInv(cfg, s, c);
  }

  /** The client's half: an unread echo is pending in the client's selector, or once in what is left of its batch. */
  lemma UnreadEchoHasOneNotification(cfg: Config, s: State, c: nat)
    requires cfg.Valid() && Reachable(cfg, s) && c < cfg.conns && !s.conns[c].broken
    ensures Sized(cfg, s)
    ensures s.conns[c].clientBuf <= 1
    ensures B(s.conns[c].clientEdge) + multiset(s.client.batch)[c] == s.conns[c].clientBuf
  {
    ReachableInv(cfg, s);
    assert TokenInv(cfg, s, c);
  }

  /** epoll_wait never reports a descriptor that the worker already has in a list or is echoing. */
  lemma NeverReportedTwice(cfg: Config, s: State, w: nat, batch: seq<nat>, expired: seq<nat>, c: nat)
    requires cfg.Valid() && Reachable(cfg, s) && Sized(cfg, s) && WorkerEnabled(cfg, s, w, Poll(batch, expired))
    requires c in batch && !s.conns[c].broken
    ensures var k := s.workers[w];
      && c !in k.batch && c !in k.waiting && c !in k.ready && k.echo != Some(c)
      && multiset(WorkerNext(k, s.done, Poll(batch, expired)).batch)[c] == 1
  {
    ReachableInv(cfg, s);
    assert TokenInv(cfg, s, c) && WorkerInv(cfg, s, w);
    DistinctCounts(batch, c);
    var k := s.workers[w];
    assert c !in multiset(k.batch) && c !in multiset(k.ready);
  }

  /**
   A ping on an intact connection always finds its whole message: before each ping the worker can stop exactly when
   done is set, otherwise fails to receive only over a broken connection, and on an intact one can receive. An echo can
   always be written, and fails only over a broken connection.
   */
  lemma PingFindsItsMessage(cfg: Config, s: State, w: nat)
    requires cfg.Valid() && Reachable(cfg, s) && Sized(cfg, s) && w < cfg.workers
    ensures NextPing(s.workers[w]).Some? ==>
      var c := NextPing(s.workers[w]).value;
      && c < cfg.conns && (!s.conns[c].broken ==> s.conns[c].serverBuf == 1)
      && (WorkerEnabled(cfg, s, w, StopPinging) <==> s.done)
      && (WorkerEnabled(cfg, s, w, RecvFails) <==> !s.done && s.conns[c].broken)
      && (!s.done && !s.conns[c].broken ==> WorkerEnabled(cfg, s, w, Recv))
    ensures s.workers[w].pc.Pinging? && s.workers[w].echo.Some? ==>
      var c := s.workers[w].echo.value;
      && c < cfg.conns && WorkerEnabled(cfg, s, w, Write)
      && (WorkerEnabled(cfg, s, w, WriteBreaks) <==> s.conns[c].broken)
  {
    MessageIsThere(cfg, s, w);
    hide Reachable;
  }

  lemma MessageIsThere(cfg: Config, s: State, w: nat)
    requires cfg.Valid() && Reachable(cfg, s) && Sized(cfg, s) && w < cfg.workers
    ensures NextPing(s.workers[w]).Some? ==>
      var c := NextPing(s.workers[w]).value;
      c < cfg.conns && (!s.conns[c].broken ==> s.conns[c].serverBuf == 1)
    ensures s.workers[w].echo.Some? ==> s.workers[w].echo.value < cfg.conns
  {
    ReachableInv(cfg, s);
    var k := s.workers[w];
    assert WorkerInv(cfg, s, w);
    if NextPing(k).Some? {
      assert k.ready[0] in multiset(k.ready);
      assert TokenInv(cfg, s, k.ready[0]);
    }
  }

  /**
   The client drops a connection exactly when it is broken: of an intact one it receives the message it was told of.
   An echo can always be written, and fails only over a broken connection. So the client is never stuck.
   */
  lemma ClientDropsOnlyBroken(cfg: Config, s: State)
    requires cfg.Valid() && Reachable(cfg, s) && Sized(cfg, s)
    ensures s.client.echo.None? && s.client.batch != [] ==>
      var c := s.client.batch[0];
      && c < cfg.conns && (ClientEnabled(cfg, s, ClientDrop) <==> s.conns[c].broken)
      && (!s.conns[c].broken ==> ClientEnabled(cfg, s, ClientRecv))
    ensures s.client.echo.Some? ==>
      var c := s.client.echo.value;
      && c < cfg.conns && ClientEnabled(cfg, s, ClientWrite)
      && (ClientEnabled(cfg, s, ClientWriteBreaks) <==> s.conns[c].broken)
  {
    ReachableInv(cfg, s);
    if s.client.echo.None? && s.client.batch != [] {
      HeadOfMultiset(s.client.batch);
      assert s.client.batch[0] in multiset(s.client.batch);
      assert TokenInv(cfg, s, s.client.batch[0]);
    }
  }

  /** A break is reported to both ends: the client can drop the connection, and the worker that has it wakes up. */
  lemma BreakIsReported(cfg: Config, s: State, c: nat)
    requires Sized(cfg, s) && c < cfg.conns
    ensures var t := Apply(cfg, s, ByNetwork(c, Break));
      && (s.client == Client([], None) ==>
        && ClientEnabled(cfg, t, ClientPoll([c]))
        && ClientEnabled(cfg, ClientApply(cfg, t, ClientPoll([c])), ClientDrop))
      && (s.workers[cfg.owner[c]].pc.Polling? ==> WorkerEnabled(cfg, t, cfg.owner[c], Poll([c], [])))
  {
    assert multiset([]) <= s.workers[cfg.owner[c]].waiting;
  }

  /** What the client has before it until its next poll. */
  function ClientWork(l: Client): nat { 2 * |l.batch| + B(l.echo.Some?) }

  /** Between two polls every step of the client brings it nearer to the end of its batch. */
  lemma ClientFinishesItsBatch(cfg: Config, s: State, l: ClientStep)
    requires cfg.Valid() && Sized(cfg, s) && ClientEnabled(cfg, s, l)
    ensures var t := ClientApply(cfg, s, l);
      if l.ClientPoll? then ClientWork(s.client) == 0 else ClientWork(t.client) < ClientWork(s.client)
  {
    hide ClearClientEdges;
  }

  /** A worker leaves early only over a broken connection of its own or an error of epoll_wait. */
  lemma WorkersLeaveWithReason(cfg: Config, s: State, w: nat)
    requires cfg.Valid() && Reachable(cfg, s) && Sized(cfg, s) && w < cfg.workers
    requires s.workers[w].pc.Leaving? || s.workers[w].pc.Ended?
    ensures s.workers[w].reason.Some?
    ensures match s.workers[w].reason.value
      case SawDone => s.done
      case PollError => true
      case PingFailed(c) => c < cfg.conns && s.conns[c].broken
  {
    ReachableInv(cfg, s);
    assert WorkerInv(cfg, s, w);
  }

  // ---------------------------------------------------------------- the barrier

  /** While main holds the mutex, the only steps of any worker are those up to the barrier. */
  lemma NobodyPassesTheBarrier(cfg: Config, s: State, w: nat)
    requires cfg.Valid() && Reachable(cfg, s) && Sized(cfg, s) && w < cfg.workers && BeforeUnlock(s)
    ensures s.mutex.HeldByMain?
    ensures s.workers[w].pc.Unspawned? || s.workers[w].pc.Starting? || s.workers[w].pc.AtBarrier?
    ensures forall st :: WorkerEnabled(cfg, s, w, st) ==> st.Register?
  {
    ReachableInv(cfg, s);
    assert WorkerInv(cfg, s, w);
    forall st | WorkerEnabled(cfg, s, w, st) ensures st.Register? {
      OnlyRegistering(cfg, s, w, st);
    }
  }

  /** When main unlocks, every worker waits at the barrier and every connection has its message. */
  lemma UnlockFindsEveryoneReady(cfg: Config, s: State)
    requires cfg.Valid() && Reachable(cfg, s) && Sized(cfg, s) && MainEnabled(cfg, s, Unlock)
    ensures forall w :: 0 <= w < cfg.workers ==> s.workers[w].pc.AtBarrier?
    ensures forall c :: 0 <= c < cfg.conns ==> Started(s, c) && (!s.conns[c].broken ==> Tokens(cfg, s, c) == 1)
  {
    ReachableInv(cfg, s);
    forall w | 0 <= w < cfg.workers ensures s.workers[w].pc.AtBarrier? {
      AllRegistered(s.workers, w);
      assert WorkerInv(cfg, s, w);
    }
    forall c | 0 <= c < cfg.conns ensures Started(s, c) && (!s.conns[c].broken ==> Tokens(cfg, s, c) == 1) {
      assert TokenInv(cfg, s, c);
    }
  }

  /** active_count is the number of workers between their increment and their exit. */
  lemma ActiveCountIsExact(cfg: Config, s: State)
    requires cfg.Valid() && Reachable(cfg, s)
    ensures s.active == SumOf(Registered, s.workers)
  {
    ReachableInv(cfg, s);
  }

  /** Results are read after every worker has left, and are those of all workers. */
  lemma MergeAfterEveryExit(cfg: Config, s: State)
    requires cfg.Valid() && Reachable(cfg, s) && s.main.Finished?
    ensures Sized(cfg, s) && s.active == 0
    ensures forall w :: 0 <= w < cfg.workers ==> s.workers[w].pc.Ended?
    ensures forall w, st :: 0 <= w < cfg.workers ==> !WorkerEnabled(cfg, s, w, st)
    ensures s.total == SumOf(MessageCount, s.workers)
  {
    ReachableInv(cfg, s);
    hide LocalEnabled, SharedEnabled;
    forall w | 0 <= w < cfg.workers ensures s.workers[w].pc.Ended? {
      AllEnded(cfg, s, w);
    }
    forall w, st | 0 <= w < cfg.workers ensures !WorkerEnabled(cfg, s, w, st) {
      AllEnded(cfg, s, w);
      EndedIsDone(s.workers[w], st);
    }
    NoneRegistered(s.workers);
  }

  /** A worker that has ended takes no step. */
  lemma EndedIsDone(k: Worker, st: WorkerStep)
    requires k.pc.Ended?
    ensures !LocalEnabled(k, st)
  {
  }

  lemma {:induction false} NoneRegistered(ws: seq<Worker>)
    requires forall i :: 0 <= i < |ws| ==> ws[i].pc.Ended?
    ensures SumOf(Registered, ws) == 0
  {
    if ws != [] {
      NoneRegistered(ws[1..]);
    }
  }

  // ---------------------------------------------------------------- what main does, in order

  function Times(m: MainStep, n: nat): (r: seq<MainStep>)
    ensures |r| == n
  {
    seq(n, _ => m)
  }

  lemma OneMoreTime(m: MainStep, n: nat)
    ensures Times(m, n + 1) == Times(m, n) + [m]
  {
  }

  /** The steps main took in a run. */
  ghost function MainSteps(steps: seq<Step>): seq<MainStep> {
    if steps == [] then []
    else (if steps[0].ByMain? then [steps[0].m] else []) + MainSteps(steps[1..])
  }

  /** The steps main has taken after its loops over the threads and the connections. */
  function Later(s: State): seq<MainStep> {
    var written := if s.failed then [WriteFails] else [WritesDone, BarrierPassed, Unlock, WakeUp];
    match s.main
    case Spawning => []
    case Writing => []
    case Barrier => [WritesDone]
    case Unlocking => [WritesDone, BarrierPassed]
    case Sleeping => [WritesDone, BarrierPassed, Unlock]
    case Stopping => written
    case Joining => written + [SetDone] + Times(Join, s.joined)
    case Finished => written + [SetDone] + Times(Join, s.joined) + [Merge]
  }

  /** All steps main has taken, as the state shows them. */
  function Past(s: State): seq<MainStep> {
    Times(Spawn, s.spawned) + (if s.main.Spawning? then [] else [SpawnsDone]) + Times(WriteOk, s.written) + Later(s)
  }

  lemma LaterStep(cfg: Config, s: State, m: MainStep)
    requires Sized(cfg, s) && MainInv(cfg, s) && MainEnabled(cfg, s, m)
    requires !m.Spawn? && !m.SpawnsDone? && !m.WriteOk?
    ensures Later(MainApply(cfg, s, m)) == Later(s) + [m]
  {
    OneMoreTime(Join, s.joined);
    hide Times;
    assert Times(Join, 0) == [];
  }

  lemma Grouped(a: seq<MainStep>, b: seq<MainStep>, c: seq<MainStep>)
    ensures a + (b + c) == a + b + c
  {
  }

  lemma MainStepPast(cfg: Config, s: State, m: MainStep)
    requires Sized(cfg, s) && MainInv(cfg, s) && MainEnabled(cfg, s, m)
    ensures Past(MainApply(cfg, s, m)) == Past(s) + [m]
  {
    if m.Spawn? || m.SpawnsDone? || m.WriteOk? {
      OneMoreTime(Spawn, s.spawned);
      OneMoreTime(WriteOk, s.written);
      hide Times;
      assert Times(WriteOk, 0) == [];
    } else {
      LaterStep(cfg, s, m);
      hide Times, Later, MainInv;
      Grouped(Times(Spawn, s.spawned) + [SpawnsDone] + Times(WriteOk, s.written), Later(s), [m]);
    }
  }

  lemma OthersKeepPast(cfg: Config, s: State, st: Step)
    requires Sized(cfg, s) && Enabled(cfg, s, st) && !st.ByMain?
    ensures Past(Apply(cfg, s, st)) == Past(s)
  {
    hide Times, Later, WorkerNext, WorkerConns, LocalEnabled, SharedEnabled, ClientEnabled, NetworkEnabled, NetworkNext;
    SameLater(s, Apply(cfg, s, st));
  }

  lemma SameLater(s: State, t: State)
    requires t.main == s.main && t.failed == s.failed && t.joined == s.joined
    ensures Later(t) == Later(s)
  {
  }

  lemma StepPast(cfg: Config, s: State, st: Step)
    requires Inv(cfg, s) && Enabled(cfg, s, st)
    ensures Past(Apply(cfg, s, st)) == Past(s) + (if st.ByMain? then [st.m] else [])
  {
    hide MainEnabled, MainApply, MainInv, WorkerInv, TokenInv, ClientInv, Past;
    if st.ByMain? {
      MainStepPast(cfg, s, st.m);
    } else {
      OthersKeepPast(cfg, s, st);
      assert Past(s) + [] == Past(s);
    }
  }

  lemma {:induction false} PastGrows(cfg: Config, s: State, steps: seq<Step>)
    requires Sized(cfg, s) && Inv(cfg, s) && Executable(cfg, s, steps)
    ensures Past(Run(cfg, s, steps)) == Past(s) + MainSteps(steps)
    decreases |steps|
  {
    hide Inv, Enabled, Apply, Past, Sized;
    if steps == [] {
      assert Past(s) + [] == Past(s);
    } else {
      var st, rest := steps[0], steps[1..];
      StepInv(cfg, s, st);
      StepPast(cfg, s, st);
      PastGrows(cfg, Apply(cfg, s, st), rest);
      Grouped(Past(s), if st.ByMain? then [st.m] else [], MainSteps(rest));
    }
  }

  lemma FinishedPast(cfg: Config, s: State)
    requires Inv(cfg, s) && s.main.Finished?
    ensures Past(s) == Times(Spawn, cfg.workers) + [SpawnsDone] + Times(WriteOk, cfg.conns) +
        [WritesDone, BarrierPassed, Unlock, WakeUp, SetDone] + Times(Join, cfg.workers) + [Merge]
  {
    hide Times;
  }

  /**
   Main keeps to its script: in every run it has taken the steps its state shows, in this order. A test that ends has
   started every worker and every connection, passed the barrier, slept while the workers ran, and joined them all.
   */
  lemma MainFollowsScript(cfg: Config, steps: seq<Step>)
    requires cfg.Valid() && Executable(cfg, Init(cfg), steps)
    ensures MainSteps(steps) == Past(Run(cfg, Init(cfg), steps))
    ensures Run(cfg, Init(cfg), steps).main.Finished? ==>
      MainSteps(steps) == Times(Spawn, cfg.workers) + [SpawnsDone] + Times(WriteOk, cfg.conns) +
        [WritesDone, BarrierPassed, Unlock, WakeUp, SetDone] + Times(Join, cfg.workers) + [Merge]
  {
    InitInv(cfg);
    PastGrows(cfg, Init(cfg), steps);
    RunInv(cfg, Init(cfg), steps);
    assert Past(Init(cfg)) == [];
    if Run(cfg, Init(cfg), steps).main.Finished? {
      FinishedPast(cfg, Run(cfg, Init(cfg), steps));
    }
  }

  /** The reports a step counts: those of the batch, when done is found unset after the wait. */
  ghost function CountedBy(s: State, st: Step): nat {
    if st.ByWorker? && st.k.TestDone? && !s.done && st.w < |s.workers| then |s.workers[st.w].batch| else 0
  }

  /** The reports counted in a run. */
  ghost function CountedIn(cfg: Config, s: State, steps: seq<Step>): nat
    requires Sized(cfg, s) && Executable(cfg, s, steps)
    decreases |steps|
  {
    if steps == [] then 0 else CountedBy(s, steps[0]) + CountedIn(cfg, Apply(cfg, s, steps[0]), steps[1..])
  }

  lemma NextCounts(k: Worker, done: bool, st: WorkerStep)
    requires LocalEnabled(k, st)
    ensures WorkerNext(k, done, st).mcount == k.mcount + (if st.TestDone? && !done then |k.batch| else 0)
  {
  }

  lemma StepCounts(cfg: Config, s: State, st: Step)
    requires Sized(cfg, s) && Enabled(cfg, s, st)
    ensures SumOf(MessageCount, Apply(cfg, s, st).workers) == SumOf(MessageCount, s.workers) + CountedBy(s, st)
  {
    match st {
      case ByWorker(w, k) =>
        NextCounts(s.workers[w], s.done, k);
        SumOfUpdate(MessageCount, s.workers, w, WorkerNext(s.workers[w], s.done, k));
        hide WorkerNext, WorkerConns, SharedEnabled, LocalEnabled;
      case ByMain(m) =>
        if m.Spawn? {
          SumOfUpdate(MessageCount, s.workers, s.spawned, s.workers[s.spawned].(pc := Starting));
        }
      case _ =>
    }
  }

  lemma {:induction false} RunCounts(cfg: Config, s: State, steps: seq<Step>)
    requires Sized(cfg, s) && Executable(cfg, s, steps)
    ensures SumOf(MessageCount, Run(cfg, s, steps).workers) == SumOf(MessageCount, s.workers) + CountedIn(cfg, s, steps)
    decreases |steps|
  {
    hide Enabled, Apply, CountedBy;
    if steps != [] {
      StepCounts(cfg, s, steps[0]);
      RunCounts(cfg, Apply(cfg, s, steps[0]), steps[1..]);
    }
  }

  /** The merged total is the number of reports the workers counted in the whole run, each once. */
  lemma TotalIsReports(cfg: Config, steps: seq<Step>)
    requires cfg.Valid() && Executable(cfg, Init(cfg), steps) && Run(cfg, Init(cfg), steps).main.Finished?
    ensures Run(cfg, Init(cfg), steps).total == CountedIn(cfg, Init(cfg), steps)
  {
    InitInv(cfg);
    RunInv(cfg, Init(cfg), steps);
    RunCounts(cfg, Init(cfg), steps);
    NothingCounted(Init(cfg).workers);
  }

  lemma {:induction false} NothingCounted(ws: seq<Worker>)
    requires forall i :: 0 <= i < |ws| ==> ws[i].mcount == 0
    ensures SumOf(MessageCount, ws) == 0
  {
    if ws != [] {
      NothingCounted(ws[1..]);
    }
  }

  // ---------------------------------------------------------------- reaching the end

  function MainRank(cfg: Config, s: State): nat
    requires s.spawned <= cfg.workers && s.written <= cfg.conns && s.joined <= cfg.workers
  {
    match s.main
    case Spawning => 8 + cfg.workers + cfg.conns + (cfg.workers - s.spawned)
    case Writing => 7 + cfg.workers + (cfg.conns - s.written)
    case Barrier => 6 + cfg.workers
    case Unlocking => 5 + cfg.workers
    case Sleeping => 4 + cfg.workers
    case Stopping => 3 + cfg.workers
    case Joining => 1 + (cfg.workers - s.joined)
    case Finished => 0
  }

  /** How far a worker is from its exit once done is set. */
  function Rank(k: Worker): nat {
    match k.pc
    case Unspawned => 7
    case Starting => 6
    case AtBarrier => 5
    case HoldsLock => 4
    case Scanning => 6 + |k.batch|
    case Pinging => 4 + B(k.echo.Some?)
    case Polling => 3
    case Polled => 2
    case Leaving => 1
    case Ended => 0
  }

  /** The next step of a worker on its way out. */
  function ExitStep(k: Worker): WorkerStep {
    match k.pc
    case Unspawned => Register
    case Starting => Register
    case AtBarrier => Lock
    case HoldsLock => Release
    case Polling => Poll([], [])
    case Polled => TestDone
    case Scanning => if k.batch == [] then ScansDone else Scan(true)
    case Pinging => if k.echo.Some? then Write else if k.ready == [] then PingsDone else StopPinging
    case Leaving => Deregister
    case Ended => Deregister
  }

  lemma ExitStepRank(k: Worker, done: bool)
    requires done && !k.pc.Ended? && !k.pc.Unspawned?
    ensures var st := ExitStep(k);
      && (st.StopPinging? ==> k.ready != [])
      && Rank(WorkerNext(k, done, st)) < Rank(k)
  {
    match k.pc {
      case Scanning => ExitScanRank(k, done);
      case Pinging => ExitPingRank(k, done);
      case _ =>
    }
  }

  lemma ExitScanRank(k: Worker, done: bool)
    requires done && k.pc.Scanning?
    ensures Rank(WorkerNext(k, done, if k.batch == [] then ScansDone else Scan(true))) < Rank(k)
  {
  }

  lemma ExitPingRank(k: Worker, done: bool)
    requires k.pc.Pinging?
    ensures k.echo.Some? ==> Rank(WorkerNext(k, done, Write)) < Rank(k)
    ensures k.ready == [] ==> Rank(WorkerNext(k, done, PingsDone)) < Rank(k)
    ensures k.ready != [] ==> Rank(WorkerNext(k, done, StopPinging)) < Rank(k)
  {
  }

  lemma ExitStepEnabled(cfg: Config, s: State, w: nat)
    requires Inv(cfg, s) && s.done && !s.failed && w < cfg.workers
    requires !s.workers[w].pc.Ended? && (s.workers[w].pc.AtBarrier? ==> s.mutex.Free?)
    ensures WorkerEnabled(cfg, s, w, ExitStep(s.workers[w]))
    ensures !s.workers[w].pc.Unspawned?
  {
    assert WorkerInv(cfg, s, w);
    var k := s.workers[w];
    if k.pc.Polling? {
      assert multiset([]) <= k.waiting;
      assert WorkerEnabled(cfg, s, w, Poll([], []));
    }
  }

  ghost predicate Closer(cfg: Config, s: State, t: State)
    requires Inv(cfg, s) && Inv(cfg, t)
  {
    MainRank(cfg, t) < MainRank(cfg, s) ||
    (MainRank(cfg, t) == MainRank(cfg, s) && SumOf(Rank, t.workers) < SumOf(Rank, s.workers))
  }

  lemma WorkerStepCloser(cfg: Config, s: State, w: nat, st: WorkerStep)
    requires Inv(cfg, s) && WorkerEnabled(cfg, s, w, st)
    requires Rank(WorkerNext(s.workers[w], s.done, st)) < Rank(s.workers[w])
    ensures Inv(cfg, WorkerApply(cfg, s, w, st)) && Closer(cfg, s, WorkerApply(cfg, s, w, st))
  {
    WorkerStepInv(cfg, s, w, st);
    SumOfUpdate(Rank, s.workers, w, WorkerNext(s.workers[w], s.done, st));
  }

  /** Main's own next step, whenever it is not waiting for a worker. */
  lemma MainStepCloser(cfg: Config, s: State, m: MainStep)
    requires Inv(cfg, s) && MainEnabled(cfg, s, m) && !m.WriteFails?
    ensures Inv(cfg, MainApply(cfg, s, m)) && Closer(cfg, s, MainApply(cfg, s, m))
  {
    MainStepInv(cfg, s, m);
  }

  /** A worker that has not registered is still starting while main waits at the barrier. */
  lemma {:induction false} SomeUnregistered(ws: seq<Worker>) returns (i: nat)
    requires SumOf(Registered, ws) < |ws|
    ensures i < |ws| && !IsRegistered(ws[i])
  {
    if IsRegistered(ws[0]) {
      var j := SomeUnregistered(ws[1..]);
      i := j + 1;
    } else {
      i := 0;
    }
  }

  lemma AtMostWorkers(cfg: Config, s: State)
    requires Inv(cfg, s)
    ensures 0 <= s.active <= cfg.workers
  {
    AtMostAll(s.workers);
  }

  lemma StepTowardsEnd(cfg: Config, s: State) returns (st: Step)
    requires Inv(cfg, s) && !s.failed && !s.main.Finished?
    ensures Enabled(cfg, s, st) && !Apply(cfg, s, st).failed
    ensures Inv(cfg, Apply(cfg, s, st)) && Closer(cfg, s, Apply(cfg, s, st))
  {
    match s.main {
      case Spawning => st := ByMain(if s.spawned < cfg.workers then Spawn else SpawnsDone);
      case Writing => st := ByMain(if s.written < cfg.conns then WriteOk else WritesDone);
      case Barrier =>
        AtMostWorkers(cfg, s);
        if s.active == cfg.workers {
          st := ByMain(BarrierPassed);
        } else {
          var w := SomeUnregistered(s.workers);
          assert WorkerInv(cfg, s, w);
          st := ByWorker(w, Register);
        }
      case Unlocking => st := ByMain(Unlock);
      case Sleeping => st := ByMain(WakeUp);
      case Stopping => st := ByMain(SetDone);
      case Joining =>
        if s.joined == cfg.workers {
          st := ByMain(Merge);
        } else if s.workers[s.joined].pc.Ended? {
          st := ByMain(Join);
        } else {
          var w := if s.workers[s.joined].pc.AtBarrier? && s.mutex.HeldBy? then s.mutex.w else s.joined;
          ExitStepEnabled(cfg, s, w);
          ExitStepRank(s.workers[w], s.done);
          st := ByWorker(w, ExitStep(s.workers[w]));
        }
    }
    match st {
      case ByMain(m) => MainStepCloser(cfg, s, m);
      case ByWorker(w, k) => WorkerStepCloser(cfg, s, w, k);
    }
  }

  lemma {:induction false} RunToEnd(cfg: Config, s: State) returns (steps: seq<Step>)
    requires Inv(cfg, s) && !s.failed
    ensures Executable(cfg, s, steps) && Run(cfg, s, steps).main.Finished?
    decreases MainRank(cfg, s), SumOf(Rank, s.workers)
  {
    if s.main.Finished? {
      steps := [];
    } else {
      var st := StepTowardsEnd(cfg, s);
      var rest := RunToEnd(cfg, Apply(cfg, s, st));
      steps := [st] + rest;
      assert steps[1..] == rest;
    }
  }

  lemma {:induction false} FailureStays(cfg: Config, s: State, steps: seq<Step>)
    requires Inv(cfg, s) && s.failed && Executable(cfg, s, steps)
    ensures Run(cfg, s, steps).failed
    decreases |steps|
  {
    if steps != [] {
      StepInv(cfg, s, steps[0]);
      assert Apply(cfg, s, steps[0]).failed;
      FailureStays(cfg, Apply(cfg, s, steps[0]), steps[1..]);
    }
  }

  /**
   A test that can still end, ends: from a reachable state some run leads to the merged results if and
   only if no initial write has failed. So the non-failing path has no stuck state before the
   merge, and the failing path, which skips the unlock, never gets past the first join.
   */
  lemma CanFinishIffNoWriteFailed(cfg: Config, s: State)
    requires cfg.Valid() && Reachable(cfg, s) && Sized(cfg, s)
    ensures (exists steps :: Executable(cfg, s, steps) && Run(cfg, s, steps).main.Finished?) <==> !s.failed
  {
    ReachableInv(cfg, s);
    if s.failed {
      forall steps | Executable(cfg, s, steps) ensures !Run(cfg, s, steps).main.Finished? {
        FailureStays(cfg, s, steps);
        RunInv(cfg, s, steps);
      }
    } else {
      var steps := RunToEnd(cfg, s);
    }
  }

  /** The end of the failing path: main at the first join, all workers at the mutex main still holds. */
  predicate Stuck(cfg: Config, s: State) { s.failed && s.main.Joining? && s.active == cfg.workers }

  lemma StuckAfterFailedWrite(cfg: Config, s: State, st: Step)
    requires cfg.Valid() && Reachable(cfg, s) && Sized(cfg, s) && Stuck(cfg, s)
    requires st.ByMain? || st.ByWorker?
    ensures !Enabled(cfg, s, st)
  {
    ReachableInv(cfg, s);
    if st.ByWorker? && st.w < cfg.workers {
      AllRegistered(s.workers, st.w);
      assert WorkerInv(cfg, s, st.w);
    } else if st.ByMain? && s.joined < cfg.workers {
      assert WorkerInv(cfg, s, s.joined);
    }
  }

  /** On the failing path a worker that has not registered yet can. */
  lemma UnregisteredCanRegister(cfg: Config, s: State, w: nat)
    requires Inv(cfg, s) && s.failed && w < cfg.workers && !IsRegistered(s.workers[w])
    ensures WorkerEnabled(cfg, s, w, Register)
  {
    assert WorkerInv(cfg, s, w);
  }

  lemma {:induction false} RegisterRest(cfg: Config, s: State) returns (steps: seq<Step>)
    requires Inv(cfg, s) && s.failed && s.main.Joining?
    ensures Executable(cfg, s, steps) && Stuck(cfg, Run(cfg, s, steps))
    decreases cfg.workers - s.active
  {
    AtMostWorkers(cfg, s);
    steps := [];
    if s.active < cfg.workers {
      var w := SomeUnregistered(s.workers);
      UnregisteredCanRegister(cfg, s, w);
      WorkerStepInv(cfg, s, w, Register);
      AtMostWorkers(cfg, WorkerApply(cfg, s, w, Register));
      hide Inv, Stuck;
      var rest := RegisterRest(cfg, WorkerApply(cfg, s, w, Register));
      steps := [ByWorker(w, Register)] + rest;
      assert steps[1..] == rest;
    }
  }

  /** After a failed write every test can get stuck, and by CanFinishIffNoWriteFailed it can do nothing better. */
  lemma FailedGetsStuck(cfg: Config, s: State) returns (steps: seq<Step>)
    requires Inv(cfg, s) && s.failed
    ensures Executable(cfg, s, steps) && Stuck(cfg, Run(cfg, s, steps))
  {
    if s.main.Stopping? {
      MainStepInv(cfg, s, SetDone);
      var rest := RegisterRest(cfg, MainApply(cfg, s, SetDone));
      steps := [ByMain(SetDone)] + rest;
      assert steps[1..] == rest;
    } else {
      steps := RegisterRest(cfg, s);
    }
  }

  /** Before its last initial write a test can fail. */
  lemma {:induction false} CanFail(cfg: Config, s: State) returns (steps: seq<Step>)
    requires Inv(cfg, s) && s.written < cfg.conns && (s.main.Spawning? || s.main.Writing?)
    ensures Executable(cfg, s, steps) && Run(cfg, s, steps).failed
    decreases s.main.Spawning?, cfg.workers - s.spawned
  {
    var m := if s.main.Writing? then WriteFails else if s.spawned < cfg.workers then Spawn else SpawnsDone;
    MainStepInv(cfg, s, m);
    var t, rest := MainApply(cfg, s, m), [];
    if s.main.Spawning? {
      rest := CanFail(cfg, t);
    }
    steps := [ByMain(m)] + rest;
    assert steps[1..] == rest;
  }

  /** A test can get stuck if and only if it has a connection to write to. */
  lemma StuckIsReachableIff(cfg: Config)
    requires cfg.Valid()
    ensures (exists s :: Reachable(cfg, s) && Stuck(cfg, s)) <==> cfg.conns > 0
  {
    if cfg.conns > 0 {
      InitInv(cfg);
      var start := CanFail(cfg, Init(cfg));
      RunInv(cfg, Init(cfg), start);
      var failed := Run(cfg, Init(cfg), start);
      var rest := FailedGetsStuck(cfg, failed);
      RunsJoin(cfg, Init(cfg), start, rest);
      assert Reachable(cfg, Run(cfg, failed, rest));
    } else {
      forall s | Reachable(cfg, s) ensures !Stuck(cfg, s) {
        ReachableInv(cfg, s);
      }
    }
  }
}
