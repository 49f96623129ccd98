/**
 No message is ever stranded: while the test is running on intact connections, every connection's
 message can still be brought to its worker's next ping, from every reachable state.
 */
module ProtocolProgress {
  import opened Totals
  import opened Protocol
  import opened ProtocolInvariant

  /** The test is running, nothing is broken, and worker w is in its loop or on its way there. */
  ghost predicate Steady(cfg: Config, s: State, w: nat) {
    && Inv(cfg, s) && s.main.Sleeping? && w < cfg.workers
    && !s.workers[w].pc.Leaving? && !s.workers[w].pc.Ended?
    && forall c :: 0 <= c < cfg.conns ==> !s.conns[c].broken
  }

  /** Where c is among the worker's own variables, the nearest to the ping first. */
  function Position(k: Worker, c: nat): nat {
    if k.echo == Some(c) then 0
    else if c in multiset(k.ready) then 1
    else if c in multiset(k.batch) then 2
    else if c in k.waiting then 3
    else 9
  }

  /** How many places the message of connection c has to pass before the worker holds it. */
  ghost function Stage(cfg: Config, s: State, c: nat): nat
    requires Sized(cfg, s) && c < cfg.conns
  {
    var p := Position(s.workers[cfg.owner[c]], c);
    if p <= 3 then p
    else if s.conns[c].serverEdge then 3
    else if s.conns[c].toServer > 0 then 4
    else if s.client.echo == Some(c) then 5
    else if c in multiset(s.client.batch) then 6
    else if s.conns[c].clientEdge then 7
    else 8
  }

  /** Work left before the worker is back at its poll. */
  function Busy(k: Worker): nat {
    match k.pc
    case AtBarrier => 4
    case HoldsLock => 2
    case Polling => 1
    case Polled => 5 + 4 * |k.batch| + 2 * |k.ready|
    case Scanning => 4 + 4 * |k.batch| + 2 * |k.ready|
    case Pinging => 3 + 2 * |k.ready| + B(k.echo.Some?)
    case _ => 0
  }

  function ClientBusy(l: Client): nat { 2 * |l.batch| + B(l.echo.Some?) }

  ghost function Load(cfg: Config, s: State, w: nat): nat
    requires Sized(cfg, s) && w < cfg.workers
  {
    Busy(s.workers[w]) + ClientBusy(s.client) + B(s.mutex.HeldBy?)
  }

  /** The state after a step is steady and nearer to the ping. */
  ghost predicate Nearer(cfg: Config, s: State, t: State, c: nat)
    requires cfg.Valid() && c < cfg.conns && Steady(cfg, s, cfg.owner[c])
  {
    && Steady(cfg, t, cfg.owner[c])
    && (Stage(cfg, t, c) < Stage(cfg, s, c) ||
        (Stage(cfg, t, c) == Stage(cfg, s, c) && Load(cfg, t, cfg.owner[c]) < Load(cfg, s, cfg.owner[c])))
  }

  /** The step that brings worker k closer to its poll without deferring or giving up anything. */
  function LoopStep(k: Worker): WorkerStep {
    match k.pc
    case AtBarrier => Lock
    case HoldsLock => Release
    case Polled => TestDone
    case Scanning => if k.batch == [] then ScansDone else Scan(false)
    case Pinging => if k.echo.Some? then Write else if k.ready == [] then PingsDone else Recv
    case _ => Register
  }

  lemma LoopStepBusy(k: Worker)
    requires k.pc.AtBarrier? || k.pc.HoldsLock? || k.pc.Polled? || k.pc.Scanning? || k.pc.Pinging?
    requires k.echo.Some? ==> k.pc.Pinging?
    ensures var st := LoopStep(k);
      var t := WorkerNext(k, false, st);
      && !t.pc.Leaving? && !t.pc.Ended?
      && Busy(t) + (if st.Lock? then 1 else 0) < Busy(k)
  {
  }

  lemma LoopStepEnabled(cfg: Config, s: State, w: nat)
    requires Steady(cfg, s, w) && !s.workers[w].pc.Polling? && (s.workers[w].pc.AtBarrier? ==> s.mutex.Free?)
    ensures WorkerEnabled(cfg, s, w, LoopStep(s.workers[w]))
    ensures var pc := s.workers[w].pc; pc.AtBarrier? || pc.HoldsLock? || pc.Polled? || pc.Scanning? || pc.Pinging?
  {
    var k := s.workers[w];
    assert WorkerInv(cfg, s, w);
    UpAndRunning(cfg, s, w);
    if k.pc.Pinging? && k.echo.None? && k.ready != [] {
      assert k.ready[0] in multiset(k.ready);
      assert TokenInv(cfg, s, k.ready[0]);
    }
  }

  /** After the unlock every worker has registered. */
  lemma UpAndRunning(cfg: Config, s: State, w: nat)
    requires Steady(cfg, s, w)
    ensures !s.workers[w].pc.Unspawned? && !s.workers[w].pc.Starting?
  {
    assert WorkerInv(cfg, s, w);
  }

  /** The worker's loop step moves c only forward. */
  lemma LoopStepPosition(k: Worker, c: nat)
    requires k.pc.AtBarrier? || k.pc.HoldsLock? || k.pc.Polled? || k.pc.Scanning? || k.pc.Pinging?
    requires Position(k, c) != 0
    ensures Position(WorkerNext(k, false, LoopStep(k)), c) <= Position(k, c)
  {
    if k.pc.Scanning? && k.batch != [] {
      ScanPosition(k, c);
    } else if k.pc.Pinging? && k.echo.None? && k.ready != [] {
      RecvPosition(k, c);
    }
  }

  lemma ScanPosition(k: Worker, c: nat)
    requires k.batch != [] && Position(k, c) != 0
    ensures Position(WorkerNext(k, false, Scan(false)), c) <= Position(k, c)
  {
    HeadOfMultiset(k.batch);
    assert multiset(k.ready + [k.batch[0]]) == multiset(k.ready) + multiset{k.batch[0]};
  }

  lemma RecvPosition(k: Worker, c: nat)
    requires k.ready != [] && Position(k, c) != 0
    ensures Position(WorkerNext(k, false, Recv), c) <= Position(k, c)
  {
    HeadOfMultiset(k.ready);
  }

  lemma LoopStepStage(cfg: Config, s: State, w: nat, c: nat)
    requires c < cfg.conns && cfg.Valid() && Steady(cfg, s, w) && w == cfg.owner[c]
    requires WorkerEnabled(cfg, s, w, LoopStep(s.workers[w])) && 1 <= Stage(cfg, s, c)
    requires !s.workers[w].pc.Polling? && !s.workers[w].pc.Starting?
    ensures Stage(cfg, WorkerApply(cfg, s, w, LoopStep(s.workers[w])), c) <= Stage(cfg, s, c)
  {
    assert Position(s.workers[w], c) != 0;
    hide Position, LocalEnabled, SharedEnabled;
    LoopStepPosition(s.workers[w], c);
  }

  /** Another worker gives the barrier's mutex back. */
  lemma ReleaseAdvances(cfg: Config, s: State, c: nat)
    requires c < cfg.conns && cfg.Valid() && Steady(cfg, s, cfg.owner[c]) && 1 <= Stage(cfg, s, c)
    requires s.workers[cfg.owner[c]].pc.AtBarrier? && s.mutex.HeldBy?
    ensures WorkerEnabled(cfg, s, s.mutex.w, Release)
    ensures Nearer(cfg, s, WorkerApply(cfg, s, s.mutex.w, Release), c)
  {
    WorkerStepInv(cfg, s, s.mutex.w, Release);
  }

  lemma LoopAdvances(cfg: Config, s: State, w: nat, c: nat)
    requires c < cfg.conns && cfg.Valid() && Steady(cfg, s, w) && w == cfg.owner[c] && 1 <= Stage(cfg, s, c)
    requires !s.workers[w].pc.Polling? && (s.workers[w].pc.AtBarrier? ==> s.mutex.Free?)
    ensures WorkerEnabled(cfg, s, w, LoopStep(s.workers[w]))
    ensures Nearer(cfg, s, WorkerApply(cfg, s, w, LoopStep(s.workers[w])), c)
  {
    var k := s.workers[w];
    assert WorkerInv(cfg, s, w);
    LoopStepEnabled(cfg, s, w);
    LoopStepBusy(k);
    LoopStepStage(cfg, s, w, c);
    WorkerStepInv(cfg, s, w, LoopStep(k));
    LoopStepEffect(cfg, s, w, LoopStep(k));
    hide Inv, WorkerInv, Stage, LocalEnabled, SharedEnabled, WorkerEnabled, WorkerApply, WorkerNext, LoopStep, Busy;
  }

  /** What a step leaves of the state around the worker. */
  lemma LoopStepEffect(cfg: Config, s: State, w: nat, st: WorkerStep)
    requires Steady(cfg, s, w) && WorkerEnabled(cfg, s, w, st)
    ensures var t := WorkerApply(cfg, s, w, st);
      && t.main == s.main && t.client == s.client && t.workers[w] == WorkerNext(s.workers[w], false, st)
      && B(t.mutex.HeldBy?) <= B(s.mutex.HeldBy?) + (if st.Lock? then 1 else 0)
      && (forall c :: 0 <= c < cfg.conns ==> !t.conns[c].broken)
  {
    hide LocalEnabled, SharedEnabled, WorkerNext;
    assert MainInv(cfg, s);
  }

  lemma WorkerAdvances(cfg: Config, s: State, c: nat) returns (st: Step)
    requires c < cfg.conns && cfg.Valid() && Steady(cfg, s, cfg.owner[c]) && 1 <= Stage(cfg, s, c) <= 3
    ensures Enabled(cfg, s, st) && Nearer(cfg, s, Apply(cfg, s, st), c)
  {
    var w := cfg.owner[c];
    if s.workers[w].pc.Polling? {
      st := PollAdvances(cfg, s, c);
    } else if s.workers[w].pc.AtBarrier? && !s.mutex.Free? {
      ReleaseAdvances(cfg, s, c);
      st := ByWorker(s.mutex.w, Release);
    } else {
      LoopAdvances(cfg, s, w, c);
      st := ByWorker(w, LoopStep(s.workers[w]));
    }
  }

  /** A poll that takes c out of the queue or off the kernel's hands. */
  function PollFor(k: Worker, c: nat): WorkerStep { if c in k.waiting then Poll([], [c]) else Poll([c], []) }

  lemma PollForEnabled(cfg: Config, s: State, c: nat)
    requires c < cfg.conns && cfg.Valid() && Steady(cfg, s, cfg.owner[c]) && 1 <= Stage(cfg, s, c) <= 3
    requires s.workers[cfg.owner[c]].pc.Polling?
    ensures WorkerEnabled(cfg, s, cfg.owner[c], PollFor(s.workers[cfg.owner[c]], c))
    ensures 3 <= Stage(cfg, s, c)
  {
    assert WorkerInv(cfg, s, cfg.owner[c]);
    assert multiset([c]) == multiset{c} && multiset([]) <= s.workers[cfg.owner[c]].waiting;
  }

  lemma PollForPosition(k: Worker, done: bool, c: nat)
    requires k.echo.None?
    ensures Position(WorkerNext(k, done, PollFor(k, c)), c) <= 2
  {
    assert multiset([c]) == multiset{c};
  }

  lemma PollAdvances(cfg: Config, s: State, c: nat) returns (st: Step)
    requires c < cfg.conns && cfg.Valid() && Steady(cfg, s, cfg.owner[c]) && 1 <= Stage(cfg, s, c) <= 3
    requires s.workers[cfg.owner[c]].pc.Polling?
    ensures Enabled(cfg, s, st) && Nearer(cfg, s, Apply(cfg, s, st), c)
  {
    hide PollFor, Position, LocalEnabled, SharedEnabled;
    var w := cfg.owner[c];
    var poll := PollFor(s.workers[w], c);
    assert WorkerInv(cfg, s, w);
    PollForEnabled(cfg, s, c);
    PollForPosition(s.workers[w], s.done, c);
    PollForIsPoll(s.workers[w], c);
    st := ByWorker(w, poll);
    WorkerStepInv(cfg, s, w, poll);
  }

  lemma PollForIsPoll(k: Worker, c: nat)
    ensures PollFor(k, c).Poll?
  {
  }

  lemma ClientWriteAdvances(cfg: Config, s: State, c: nat)
    requires c < cfg.conns && cfg.Valid() && Steady(cfg, s, cfg.owner[c]) && 5 <= Stage(cfg, s, c) <= 7
    requires s.client.echo.Some?
    ensures ClientEnabled(cfg, s, ClientWrite) && Nearer(cfg, s, ClientApply(cfg, s, ClientWrite), c)
  {
    ClientStepInv(cfg, s, ClientWrite);
  }

  lemma ClientRecvAdvances(cfg: Config, s: State, c: nat)
    requires c < cfg.conns && cfg.Valid() && Steady(cfg, s, cfg.owner[c]) && 5 <= Stage(cfg, s, c) <= 7
    requires s.client.echo.None? && s.client.batch != []
    ensures ClientEnabled(cfg, s, ClientRecv) && Nearer(cfg, s, ClientApply(cfg, s, ClientRecv), c)
  {
    ClientFindsItsMessage(cfg, s);
    HeadOfMultiset(s.client.batch);
    ClientStepInv(cfg, s, ClientRecv);
  }

  lemma ClientPollAdvances(cfg: Config, s: State, c: nat)
    requires c < cfg.conns && cfg.Valid() && Steady(cfg, s, cfg.owner[c]) && 5 <= Stage(cfg, s, c) <= 7
    requires s.client.echo.None? && s.client.batch == []
    ensures ClientEnabled(cfg, s, ClientPoll([c])) && Nearer(cfg, s, ClientApply(cfg, s, ClientPoll([c])), c)
  {
    ClientStepInv(cfg, s, ClientPoll([c]));
  }

  lemma ClientAdvances(cfg: Config, s: State, c: nat) returns (st: Step)
    requires c < cfg.conns && cfg.Valid() && Steady(cfg, s, cfg.owner[c]) && 5 <= Stage(cfg, s, c) <= 7
    ensures Enabled(cfg, s, st) && Nearer(cfg, s, Apply(cfg, s, st), c)
  {
    hide Nearer, ClientEnabled, ClientApply;
    if s.client.echo.Some? {
      ClientWriteAdvances(cfg, s, c);
      st := ByClient(ClientWrite);
    } else if s.client.batch != [] {
      ClientRecvAdvances(cfg, s, c);
      st := ByClient(ClientRecv);
    } else {
      ClientPollAdvances(cfg, s, c);
      st := ByClient(ClientPoll([c]));
    }
  }

  /** The client's recv cannot come up empty either. */
  lemma ClientFindsItsMessage(cfg: Config, s: State)
    requires Inv(cfg, s) && s.client.batch != [] && s.client.echo.None?
    requires forall c :: 0 <= c < cfg.conns ==> !s.conns[c].broken
    ensures ClientEnabled(cfg, s, ClientRecv)
  {
    HeadOfMultiset(s.client.batch);
    assert s.client.batch[0] in multiset(s.client.batch);
    assert TokenInv(cfg, s, s.client.batch[0]);
  }

  lemma NetworkAdvances(cfg: Config, s: State, c: nat) returns (st: Step)
    requires c < cfg.conns && cfg.Valid() && Steady(cfg, s, cfg.owner[c]) &&
      (Stage(cfg, s, c) == 4 || Stage(cfg, s, c) == 8)
    ensures Enabled(cfg, s, st) && Nearer(cfg, s, Apply(cfg, s, st), c)
  {
    assert TokenInv(cfg, s, c);
    var n := if Stage(cfg, s, c) == 4 then DeliverToServer else DeliverToClient;
    st := ByNetwork(c, n);
    NetworkStepInv(cfg, s, c, n);
  }

  lemma {:induction false} BringToPing(cfg: Config, s: State, c: nat) returns (steps: seq<Step>)
    requires c < cfg.conns && cfg.Valid() && Steady(cfg, s, cfg.owner[c])
    ensures Executable(cfg, s, steps) && Steady(cfg, Run(cfg, s, steps), cfg.owner[c])
    ensures Run(cfg, s, steps).workers[cfg.owner[c]].echo == Some(c)
    decreases Stage(cfg, s, c), Load(cfg, s, cfg.owner[c])
  {
    if Stage(cfg, s, c) == 0 {
      steps := [];
    } else {
      var st;
      if Stage(cfg, s, c) <= 3 {
        st := WorkerAdvances(cfg, s, c);
      } else if Stage(cfg, s, c) == 4 || Stage(cfg, s, c) == 8 {
        st := NetworkAdvances(cfg, s, c);
      } else {
        st := ClientAdvances(cfg, s, c);
      }
      var rest := BringToPing(cfg, Apply(cfg, s, st), c);
      steps := [st] + rest;
      assert steps[1..] == rest;
    }
  }

  /**
   From every reachable state of a running test without broken connections, and for every connection
   whose worker is still in its loop, some run ends with that worker holding the connection's message
   and its write enabled. An edge-triggered notification that got lost would leave states without one.
   */
  lemma EveryMessageCanBeAnswered(cfg: Config, s: State, c: nat)
    requires cfg.Valid() && Reachable(cfg, s) && Sized(cfg, s) && c < cfg.conns && s.main.Sleeping?
    requires !s.workers[cfg.owner[c]].pc.Leaving? && !s.workers[cfg.owner[c]].pc.Ended?
    requires forall d :: 0 <= d < cfg.conns ==> !s.conns[d].broken
    ensures exists steps :: Executable(cfg, s, steps) && AnswersNext(cfg, Run(cfg, s, steps), c)
  {
    ReachableInv(cfg, s);
    assert cfg.owner[c] < cfg.workers;
    hide Inv, Reachable, Executable, Run, AnswersNext;
    var steps := BringToPing(cfg, s, c);
    EchoEnablesWrite(cfg, Run(cfg, s, steps), c);
  }

  lemma EchoEnablesWrite(cfg: Config, s: State, c: nat)
    requires c < cfg.conns && cfg.Valid() && Steady(cfg, s, cfg.owner[c])
    requires s.workers[cfg.owner[c]].echo == Some(c)
    ensures AnswersNext(cfg, s, c)
  {
    assert WorkerInv(cfg, s, cfg.owner[c]);
  }

  ghost predicate AnswersNext(cfg: Config, s: State, c: nat)
    requires Sized(cfg, s) && c < cfg.conns
  {
    s.workers[cfg.owner[c]].echo == Some(c) && WorkerEnabled(cfg, s, cfg.owner[c], Write)
  }
}
