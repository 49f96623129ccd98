/**
 The load test as a transition system: the main thread of run_test, its worker threads, the
 kernel's sockets and edge-triggered epoll instances, and the single-threaded client.

 Every place a message or a descriptor can be in is a field of its own, so that "one message per
 connection" is a theorem about reachable states rather than a consequence of the encoding.
 Clock readings and kernel answers are the parameters of the steps.
 */
module Protocol {
  import opened Rotation
  import opened Totals

  /**
   The number of connections, the number of worker threads after line 507 of server.cpp, and the
   worker whose selector holds each socket. Everything below holds for every such assignment.
   */
  datatype Config = Config(conns: nat, workers: nat, owner: seq<nat>) {
    ghost predicate Valid() {
      1 <= workers && |owner| == conns && forall c :: 0 <= c < conns ==> owner[c] < workers
    }
  }

  /** The assignment made by the loop at lines 516-522 of server.cpp. */
  function RoundRobin(conns: nat, workers: nat): (cfg: Config)
    requires 1 <= workers
    ensures cfg.Valid() && cfg.conns == conns && cfg.workers == workers
    ensures forall c :: 0 <= c < conns ==> cfg.owner[c] == Turn(c, workers)
  {
    InTurn(conns, workers);
    Config(conns, workers, seq(conns, c => c % workers))
  }

  lemma InTurn(conns: nat, workers: nat)
    requires 1 <= workers
    ensures forall c :: 0 <= c < conns ==> c % workers == Turn(c, workers)
  {
    forall c | 0 <= c < conns ensures c % workers == Turn(c, workers) {
      Division(c, workers);
    }
  }

  datatype Pc =
    | Unspawned   // the std::thread does not exist yet
    | Starting    // before the increment of active_count
    | AtBarrier   // before run_lola_run.lock()
    | HoldsLock   // between lock() and unlock()
    | Polling     // loop head, before sel->wait
    | Polled      // after the wait and the drain, before the test of done
    | Scanning    // in the loop over sel->next
    | Pinging     // in the loop over ready_fds
    | Leaving     // returned, before the DecOnExit destructor
    | Ended       // the thread can be joined

  datatype Reason = SawDone | PollError | PingFailed(c: nat)

  /** The locals of worker_thread. A batch is what is left of the last answer of epoll_wait. */
  datatype Worker = Worker(pc: Pc, batch: seq<nat>, waiting: multiset<nat>, ready: seq<nat>,
                           echo: Option<nat>, mcount: nat, reason: Option<Reason>)

  /** One connection: messages on the way, messages in socket buffers, and pending epoll edges. */
  datatype Conn = Conn(toClient: nat, clientBuf: nat, clientEdge: bool,
                       toServer: nat, serverBuf: nat, serverEdge: bool, broken: bool)

  datatype Client = Client(batch: seq<nat>, echo: Option<nat>)

  datatype MainPc = Spawning | Writing | Barrier | Unlocking | Sleeping | Stopping | Joining | Finished

  datatype Mutex = Free | HeldByMain | HeldBy(w: nat)

  datatype State = State(main: MainPc, spawned: nat, written: nat, joined: nat, failed: bool, total: nat,
                         mutex: Mutex, active: int, done: bool,
                         workers: seq<Worker>, conns: seq<Conn>, client: Client)

  const IDLE_WORKER := Worker(Unspawned, [], multiset{}, [], None, 0, None)
  const IDLE_CONN := Conn(0, 0, false, 0, 0, false, false)

  /** The state after line 532 of server.cpp: all sockets connected, the mutex taken by main. */
  function Init(cfg: Config): State {
    State(Spawning, 0, 0, 0, false, 0, HeldByMain, 0, false,
          seq(cfg.workers, _ => IDLE_WORKER), seq(cfg.conns, _ => IDLE_CONN), Client([], None))
  }

  datatype Step =
    | ByMain(m: MainStep)
    | ByWorker(w: nat, k: WorkerStep)
    | ByClient(l: ClientStep)
    | ByNetwork(c: nat, n: NetworkStep)

  datatype MainStep =
    | Spawn | SpawnsDone | WriteOk | WriteFails | WritesDone | BarrierPassed | Unlock | WakeUp | SetDone | Join | Merge

  datatype WorkerStep =
    | Register | Lock | Release
    | PollFails | Poll(batch: seq<nat>, expired: seq<nat>) | TestDone
    | Scan(defer: bool) | ScansDone
    | StopPinging | Recv | RecvFails | Write | WriteBreaks | PingsDone
    | Deregister

  datatype ClientStep = ClientPoll(batch: seq<nat>) | ClientRecv | ClientDrop | ClientWrite | ClientWriteBreaks

  datatype NetworkStep = DeliverToClient | DeliverToServer | Break

  ghost predicate Sized(cfg: Config, s: State) {
    cfg.Valid() && |s.workers| == cfg.workers && |s.conns| == cfg.conns
  }

  // ---------------------------------------------------------------- main thread

  ghost predicate MainEnabled(cfg: Config, s: State, m: MainStep)
    requires Sized(cfg, s)
  {
    match m
    case Spawn => s.main.Spawning? && s.spawned < cfg.workers
    case SpawnsDone => s.main.Spawning? && s.spawned == cfg.workers
    case WriteOk => s.main.Writing? && s.written < cfg.conns
    case WriteFails => s.main.Writing? && s.written < cfg.conns
    case WritesDone => s.main.Writing? && s.written == cfg.conns
    case BarrierPassed => s.main.Barrier? && s.active == cfg.workers
    case Unlock => s.main.Unlocking?
    case WakeUp => s.main.Sleeping?
    case SetDone => s.main.Stopping?
    case Join => s.main.Joining? && s.joined < cfg.workers && s.workers[s.joined].pc.Ended?
    case Merge => s.main.Joining? && s.joined == cfg.workers
  }

  ghost function MainApply(cfg: Config, s: State, m: MainStep): (t: State)
    requires Sized(cfg, s) && MainEnabled(cfg, s, m)
    ensures Sized(cfg, t)
  {
    match m
    case Spawn => s.(workers := s.workers[s.spawned := s.workers[s.spawned].(pc := Starting)], spawned := s.spawned + 1)
    case SpawnsDone => s.(main := Writing)
    case WriteOk =>
      var k := s.conns[s.written];
      s.(conns := s.conns[s.written := k.(toClient := k.toClient + 1)], written := s.written + 1)
    case WriteFails => s.(failed := true, main := Stopping)
    case WritesDone => s.(main := Barrier)
    case BarrierPassed => s.(main := Unlocking)
    case Unlock => s.(mutex := Free, main := Sleeping)
    case WakeUp => s.(main := Stopping)
    case SetDone => s.(done := true, main := Joining)
    case Join => s.(joined := s.joined + 1)
    case Merge => s.(total := SumOf(MessageCount, s.workers), main := Finished)
  }

  function MessageCount(k: Worker): nat { k.mcount }

  // ---------------------------------------------------------------- worker thread w

  /** The descriptor the worker's next ping is for, if it is at the head of that loop. */
  function NextPing(k: Worker): (c: Option<nat>) {
    if k.pc.Pinging? && k.echo.None? && k.ready != [] then Some(k.ready[0]) else None
  }

  /** What a step needs of the worker's own state. */
  ghost predicate LocalEnabled(k: Worker, st: WorkerStep) {
    match st
    case Register => k.pc.Starting?
    case Lock => k.pc.AtBarrier?
    case Release => k.pc.HoldsLock?
    case PollFails => k.pc.Polling?
    case Poll(batch, expired) => k.pc.Polling? && Distinct(batch) && multiset(expired) <= k.waiting
    case TestDone => k.pc.Polled?
    case Scan(_) => k.pc.Scanning? && k.batch != []
    case ScansDone => k.pc.Scanning? && k.batch == []
    case StopPinging => NextPing(k).Some?
    case Recv => NextPing(k).Some?
    case RecvFails => NextPing(k).Some?
    case Write => k.pc.Pinging? && k.echo.Some?
    case WriteBreaks => k.pc.Pinging? && k.echo.Some?
    case PingsDone => k.pc.Pinging? && k.echo.None? && k.ready == []
    case Deregister => k.pc.Leaving?
  }

  /** What it needs of the mutex, of done and of the connections; epoll and recv answer as they can. */
  ghost predicate SharedEnabled(cfg: Config, s: State, w: nat, st: WorkerStep)
    requires Sized(cfg, s) && w < cfg.workers && LocalEnabled(s.workers[w], st)
  {
    var k := s.workers[w];
    match st
    case Lock => s.mutex.Free?
    case Poll(batch, _) => forall c :: c in batch ==> c < cfg.conns && cfg.owner[c] == w && s.conns[c].serverEdge
    case StopPinging => s.done
    case Recv => !s.done && k.ready[0] < cfg.conns && s.conns[k.ready[0]].serverBuf > 0
    case RecvFails =>
      !s.done && k.ready[0] < cfg.conns && (s.conns[k.ready[0]].serverBuf == 0 || s.conns[k.ready[0]].broken)
    case Write => k.echo.value < cfg.conns
    case WriteBreaks => k.echo.value < cfg.conns && s.conns[k.echo.value].broken
    case _ => true
  }

  ghost predicate WorkerEnabled(cfg: Config, s: State, w: nat, st: WorkerStep)
    requires Sized(cfg, s)
  {
    w < cfg.workers && LocalEnabled(s.workers[w], st) && SharedEnabled(cfg, s, w, st)
  }

  function Leave(k: Worker, r: Reason): Worker { k.(pc := Leaving, reason := Some(r)) }

  /** The worker's own new state. */
  ghost function WorkerNext(k: Worker, done: bool, st: WorkerStep): Worker
    requires st.Scan? ==> k.batch != []
    requires st.StopPinging? || st.Recv? || st.RecvFails? ==> k.ready != []
    requires st.WriteBreaks? ==> k.echo.Some?
  {
    match st
    case Register => k.(pc := AtBarrier)
    case Lock => k.(pc := HoldsLock)
    case Release => k.(pc := Polling)
    case PollFails => Leave(k, PollError)
    case Poll(batch, expired) =>
      k.(pc := Polled, batch := batch, waiting := k.waiting - multiset(expired), ready := expired)
    case TestDone => if done then Leave(k, SawDone) else k.(pc := Scanning, mcount := k.mcount + |k.batch|)
    case Scan(defer) =>
      if defer then k.(batch := k.batch[1..], waiting := k.waiting + multiset{k.batch[0]})
      else
        var k' := k.(batch := k.batch[1..], ready := k.ready + [k.batch[0]]);
        if done then Leave(k', SawDone) else k'
    case ScansDone => k.(pc := Pinging)
    case StopPinging => Leave(k, SawDone)
    case Recv => k.(ready := k.ready[1..], echo := Some(k.ready[0]))
    case RecvFails => Leave(k, PingFailed(k.ready[0]))
    case Write => k.(echo := None)
    case WriteBreaks => Leave(k, PingFailed(k.echo.value))
    case PingsDone => k.(pc := Polling)
    case Deregister => k.(pc := Ended)
  }

  /** epoll_wait reports the edges of the batch and clears them. */
  function ClearServerEdges(conns: seq<Conn>, batch: seq<nat>): (r: seq<Conn>)
    ensures |r| == |conns|
  {
    seq(|conns|, c requires 0 <= c < |conns| => if c in batch then conns[c].(serverEdge := false) else conns[c])
  }

  /** What the worker's step does to the connections. */
  ghost function WorkerConns(cfg: Config, s: State, w: nat, st: WorkerStep): (r: seq<Conn>)
    requires Sized(cfg, s) && WorkerEnabled(cfg, s, w, st)
    ensures |r| == cfg.conns
  {
    var k := s.workers[w];
    match st
    case Poll(batch, _) => ClearServerEdges(s.conns, batch)
    case Recv =>
      var c := k.ready[0];
      s.conns[c := s.conns[c].(serverBuf := s.conns[c].serverBuf - 1)]
    case Write =>
      var c := k.echo.value;
      s.conns[c := s.conns[c].(toClient := s.conns[c].toClient + 1)]
    case _ => s.conns
  }

  ghost function WorkerApply(cfg: Config, s: State, w: nat, st: WorkerStep): (t: State)
    requires Sized(cfg, s) && WorkerEnabled(cfg, s, w, st)
    ensures Sized(cfg, t)
  {
    s.(workers := s.workers[w := WorkerNext(s.workers[w], s.done, st)],
       conns := WorkerConns(cfg, s, w, st),
       mutex := if st.Lock? then HeldBy(w) else if st.Release? then Free else s.mutex,
       active := s.active + (if st.Register? then 1 else if st.Deregister? then -1 else 0))
  }

  // ---------------------------------------------------------------- client and network

  ghost predicate ClientEnabled(cfg: Config, s: State, l: ClientStep)
    requires Sized(cfg, s)
  {
    var busy := s.client.echo.None? && s.client.batch != [] && s.client.batch[0] < cfg.conns;
    var echoing := s.client.echo.Some? && s.client.echo.value < cfg.conns;
    match l
    case ClientPoll(batch) =>
      && s.client.batch == [] && s.client.echo.None? && Distinct(batch)
      && (forall c :: c in batch ==> c < cfg.conns && s.conns[c].clientEdge)
    case ClientRecv => busy && s.conns[s.client.batch[0]].clientBuf > 0
    case ClientDrop => busy && (s.conns[s.client.batch[0]].clientBuf == 0 || s.conns[s.client.batch[0]].broken)
    case ClientWrite => echoing
    case ClientWriteBreaks => echoing && s.conns[s.client.echo.value].broken
  }

  function ClearClientEdges(conns: seq<Conn>, batch: seq<nat>): (r: seq<Conn>)
    ensures |r| == |conns|
  {
    seq(|conns|, c requires 0 <= c < |conns| => if c in batch then conns[c].(clientEdge := false) else conns[c])
  }

  ghost function ClientApply(cfg: Config, s: State, l: ClientStep): (t: State)
    requires Sized(cfg, s) && ClientEnabled(cfg, s, l)
    ensures Sized(cfg, t)
  {
    match l
    case ClientPoll(batch) => s.(client := s.client.(batch := batch), conns := ClearClientEdges(s.conns, batch))
    case ClientRecv =>
      var c := s.client.batch[0];
      s.(conns := s.conns[c := s.conns[c].(clientBuf := s.conns[c].clientBuf - 1)],
        client := Client(s.client.batch[1..], Some(c)))
    case ClientDrop =>
      var c := s.client.batch[0];
      s.(conns := s.conns[c := s.conns[c].(broken := true)], client := s.client.(batch := s.client.batch[1..]))
    case ClientWrite =>
      var c := s.client.echo.value;
      s.(conns := s.conns[c := s.conns[c].(toServer := s.conns[c].toServer + 1)], client := s.client.(echo := None))
    case ClientWriteBreaks => s.(client := s.client.(echo := None))
  }

  ghost predicate NetworkEnabled(cfg: Config, s: State, c: nat, n: NetworkStep)
    requires Sized(cfg, s)
  {
    c < cfg.conns &&
    match n
    case DeliverToClient => s.conns[c].toClient > 0
    case DeliverToServer => s.conns[c].toServer > 0
    case Break => true
  }

  ghost function NetworkNext(k: Conn, n: NetworkStep): Conn
    requires n.DeliverToClient? ==> k.toClient > 0
    requires n.DeliverToServer? ==> k.toServer > 0
  {
    match n
    case DeliverToClient => k.(toClient := k.toClient - 1, clientBuf := k.clientBuf + 1, clientEdge := true)
    case DeliverToServer => k.(toServer := k.toServer - 1, serverBuf := k.serverBuf + 1, serverEdge := true)
    case Break => k.(broken := true, serverEdge := true, clientEdge := true)
  }

  // ---------------------------------------------------------------- steps and runs

  ghost predicate Enabled(cfg: Config, s: State, st: Step)
    requires Sized(cfg, s)
  {
    match st
    case ByMain(m) => MainEnabled(cfg, s, m)
    case ByWorker(w, k) => WorkerEnabled(cfg, s, w, k)
    case ByClient(l) => ClientEnabled(cfg, s, l)
    case ByNetwork(c, n) => NetworkEnabled(cfg, s, c, n)
  }

  ghost function Apply(cfg: Config, s: State, st: Step): (t: State)
    requires Sized(cfg, s) && Enabled(cfg, s, st)
    ensures Sized(cfg, t)
  {
    match st
    case ByMain(m) => MainApply(cfg, s, m)
    case ByWorker(w, k) => WorkerApply(cfg, s, w, k)
    case ByClient(l) => ClientApply(cfg, s, l)
    case ByNetwork(c, n) => s.(conns := s.conns[c := NetworkNext(s.conns[c], n)])
  }

  /** A run is a sequence of steps, each enabled where it is taken. */
  ghost predicate Executable(cfg: Config, s: State, steps: seq<Step>)
    requires Sized(cfg, s)
    decreases |steps|
  {
    steps == [] || (Enabled(cfg, s, steps[0]) && Executable(cfg, Apply(cfg, s, steps[0]), steps[1..]))
  }

  ghost function Run(cfg: Config, s: State, steps: seq<Step>): (t: State)
    requires Sized(cfg, s) && Executable(cfg, s, steps)
    ensures Sized(cfg, t)
    decreases |steps|
  {
    if steps == [] then s else Run(cfg, Apply(cfg, s, steps[0]), steps[1..])
  }

  ghost predicate Reachable(cfg: Config, s: State)
    requires cfg.Valid()
  {
    exists steps :: Executable(cfg, Init(cfg), steps) && Run(cfg, Init(cfg), steps) == s
  }
}
