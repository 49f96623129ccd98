/** What every reachable state of the load test satisfies. */
module ProtocolInvariant {
  import opened Totals
  import opened Protocol

  function B(b: bool): nat { if b then 1 else 0 }

  /** How many times connection c occurs in the worker's three lists. */
  function Listed(k: Worker, c: nat): nat {
    multiset(k.batch)[c] + k.waiting[c] + multiset(k.ready)[c]
  }

  /** The messages of connection c, wherever they are. */
  ghost function Tokens(cfg: Config, s: State, c: nat): nat
    requires Sized(cfg, s) && c < cfg.conns
  {
    var k := s.conns[c];
    k.toClient + k.clientBuf + B(s.client.echo == Some(c))
    + k.toServer + k.serverBuf + B(s.workers[cfg.owner[c]].echo == Some(c))
  }

  /** The initial write of connection c has been made. */
  predicate Started(s: State, c: nat) { c < s.written }

  /** Exactly one message, and a pending notification for every unread one. */
  ghost predicate TokenInv(cfg: Config, s: State, c: nat)
    requires Sized(cfg, s) && c < cfg.conns
  {
    var k := s.conns[c];
    !k.broken ==>
      && Tokens(cfg, s, c) == B(Started(s, c))
      && k.serverBuf == B(k.serverEdge) + Listed(s.workers[cfg.owner[c]], c)
      && k.clientBuf == B(k.clientEdge) + multiset(s.client.batch)[c]
  }

  /** Main still holds the mutex of the barrier. */
  predicate BeforeUnlock(s: State) {
    s.main.Spawning? || s.main.Writing? || s.main.Barrier? || s.main.Unlocking? || s.failed
  }

  /** Between the increment of active_count and the DecOnExit destructor. */
  predicate IsRegistered(k: Worker) { !k.pc.Unspawned? && !k.pc.Starting? && !k.pc.Ended? }

  function Registered(k: Worker): nat { B(IsRegistered(k)) }

  ghost predicate MainInv(cfg: Config, s: State)
    requires Sized(cfg, s)
  {
    && s.spawned <= cfg.workers && s.written <= cfg.conns && s.joined <= cfg.workers
    && (s.main.Spawning? ==> s.written == 0)
    && (!s.main.Spawning? ==> s.spawned == cfg.workers)
    && (!s.main.Spawning? && !s.main.Writing? && !s.failed ==> s.written == cfg.conns)
    && (s.failed ==> (s.main.Stopping? || s.main.Joining?) && s.written < cfg.conns && s.joined == 0)
    && (s.done <==> s.main.Joining? || s.main.Finished?)
    && (s.joined > 0 ==> s.done)
    && (s.main.Finished? ==> s.joined == cfg.workers && s.total == SumOf(MessageCount, s.workers))
    && (s.main.Unlocking? ==> s.active == cfg.workers)
    && s.active == SumOf(Registered, s.workers)
    && (s.mutex.HeldByMain? <==> BeforeUnlock(s))
    && (s.mutex.HeldBy? ==> s.mutex.w < cfg.workers && s.workers[s.mutex.w].pc.HoldsLock?)
  }

  /** How main's progress bounds the position of worker w. */
  ghost predicate PhaseInv(cfg: Config, s: State, w: nat)
    requires Sized(cfg, s) && w < cfg.workers
  {
    var pc := s.workers[w].pc;
    && (pc.Unspawned? <==> s.spawned <= w)
    && (pc.HoldsLock? ==> s.mutex == HeldBy(w))
    && (BeforeUnlock(s) ==> pc.Unspawned? || pc.Starting? || pc.AtBarrier?)
    && (!BeforeUnlock(s) ==> !pc.Unspawned? && !pc.Starting?)
    && (w < s.joined ==> pc.Ended?)
  }

  /** Why a worker that has returned did so. */
  ghost predicate ReasonInv(cfg: Config, s: State, k: Worker)
    requires Sized(cfg, s)
  {
    && (k.reason.Some? <==> k.pc.Leaving? || k.pc.Ended?)
    && (k.reason == Some(SawDone) ==> s.done)
    && (k.reason.Some? && k.reason.value.PingFailed? ==>
      k.reason.value.c < cfg.conns && s.conns[k.reason.value.c].broken)
  }

  ghost predicate Owned(cfg: Config, w: nat, m: multiset<nat>)
    requires cfg.Valid()
  {
    forall c :: c in m ==> c < cfg.conns && cfg.owner[c] == w
  }

  /** The lists of a worker are in use only at some places of the loop. */
  predicate PlacesInv(k: Worker) {
    && (k.pc.Unspawned? || k.pc.Starting? || k.pc.AtBarrier? || k.pc.HoldsLock? ==> k.waiting == multiset{})
    && (k.pc.Unspawned? || k.pc.Starting? || k.pc.AtBarrier? || k.pc.HoldsLock? || k.pc.Polling? ==> k.ready == [])
    && (!k.pc.Polled? && !k.pc.Scanning? && !k.pc.Leaving? && !k.pc.Ended? ==> k.batch == [])
    && (!k.pc.Pinging? && !k.pc.Leaving? && !k.pc.Ended? ==> k.echo.None?)
  }

  /** The lists of a worker hold its own descriptors, and only at the places of the loop that use them. */
  ghost predicate LocalInv(cfg: Config, w: nat, k: Worker)
    requires cfg.Valid()
  {
    && PlacesInv(k)
    && Owned(cfg, w, multiset(k.batch)) && Owned(cfg, w, k.waiting) && Owned(cfg, w, multiset(k.ready))
    && (k.echo.Some? ==> k.echo.value < cfg.conns && cfg.owner[k.echo.value] == w)
  }

  ghost predicate ClientInv(cfg: Config, s: State) {
    && (forall c :: c in multiset(s.client.batch) ==> c < cfg.conns)
    && (s.client.echo.Some? ==> s.client.echo.value < cfg.conns)
  }

  ghost predicate WorkerInv(cfg: Config, s: State, w: nat)
    requires Sized(cfg, s) && w < cfg.workers
  {
    PhaseInv(cfg, s, w) && ReasonInv(cfg, s, s.workers[w]) && LocalInv(cfg, w, s.workers[w])
  }

  ghost predicate Inv(cfg: Config, s: State) {
    && Sized(cfg, s)
    && MainInv(cfg, s)
    && ClientInv(cfg, s)
    && (forall w :: 0 <= w < cfg.workers ==> WorkerInv(cfg, s, w))
    && (forall c :: 0 <= c < cfg.conns ==> TokenInv(cfg, s, c))
  }

  // ---------------------------------------------------------------- lists as multisets

  lemma HeadOfMultiset(s: seq<nat>)
    requires s != []
    ensures multiset(s) == multiset{s[0]} + multiset(s[1..])
  {
    assert s == [s[0]] + s[1..];
  }

  lemma {:induction false} DistinctCounts(s: seq<nat>, c: nat)
    requires Distinct(s)
    ensures multiset(s)[c] == B(c in s)
  {
    if s != [] {
      HeadOfMultiset(s);
      DistinctCounts(s[1..], c);
    }
  }

  lemma {:induction false} SumOfIdle(f: Worker -> nat, n: nat, k: Worker)
    requires f(k) == 0
    ensures SumOf(f, seq(n, _ => k)) == 0
  {
    if n > 0 {
      assert seq(n, _ => k)[1..] == seq(n - 1, _ => k);
      SumOfIdle(f, n - 1, k);
    }
  }

  lemma {:induction false} AllRegistered(ws: seq<Worker>, i: nat)
    requires SumOf(Registered, ws) >= |ws| && i < |ws|
    ensures IsRegistered(ws[i])
  {
    AtMostAll(ws[1..]);
    if i > 0 {
      AllRegistered(ws[1..], i - 1);
    }
  }

  lemma {:induction false} AtMostAll(ws: seq<Worker>)
    ensures SumOf(Registered, ws) <= |ws|
  {
    if ws != [] {
      AtMostAll(ws[1..]);
    }
  }

  // ---------------------------------------------------------------- the invariant

  lemma InitInv(cfg: Config)
    requires cfg.Valid()
    ensures Inv(cfg, Init(cfg))
  {
    SumOfIdle(Registered, cfg.workers, IDLE_WORKER);
  }

  lemma MainStepMain(cfg: Config, s: State, m: MainStep)
    requires Inv(cfg, s) && MainEnabled(cfg, s, m)
    ensures MainInv(cfg, MainApply(cfg, s, m))
  {
    match m {
      case Spawn =>
        SumOfUpdate(Registered, s.workers, s.spawned, s.workers[s.spawned].(pc := Starting));
        assert WorkerInv(cfg, s, s.spawned);
      case Join => assert WorkerInv(cfg, s, s.joined);
      case _ =>
    }
  }

  lemma MainStepWorker(cfg: Config, s: State, m: MainStep, w: nat)
    requires Inv(cfg, s) && MainEnabled(cfg, s, m) && w < cfg.workers
    ensures WorkerInv(cfg, MainApply(cfg, s, m), w)
  {
    assert WorkerInv(cfg, s, w);
    match m {
      case Spawn =>
      case WriteOk =>
      case Unlock => AllRegistered(s.workers, w);
      case _ =>
    }
  }

  lemma MainStepToken(cfg: Config, s: State, m: MainStep, c: nat)
    requires Inv(cfg, s) && MainEnabled(cfg, s, m) && c < cfg.conns
    ensures TokenInv(cfg, MainApply(cfg, s, m), c)
  {
    assert TokenInv(cfg, s, c);
    match m {
      case Spawn =>
      case WriteOk =>
      case _ =>
    }
  }

  lemma MainStepInv(cfg: Config, s: State, m: MainStep)
    requires Inv(cfg, s) && MainEnabled(cfg, s, m)
    ensures Inv(cfg, MainApply(cfg, s, m))
  {
    var t := MainApply(cfg, s, m);
    MainStepMain(cfg, s, m);
    forall w | 0 <= w < cfg.workers ensures WorkerInv(cfg, t, w) {
      MainStepWorker(cfg, s, m, w);
    }
    forall c | 0 <= c < cfg.conns ensures TokenInv(cfg, t, c) {
      MainStepToken(cfg, s, m, c);
    }
  }

  /** Until main unlocks the mutex, the one step a worker can take is to register. */
  lemma OnlyRegistering(cfg: Config, s: State, w: nat, st: WorkerStep)
    requires Inv(cfg, s) && WorkerEnabled(cfg, s, w, st) && BeforeUnlock(s)
    ensures st.Register?
  {
    assert WorkerInv(cfg, s, w);
  }

  lemma ScanLocal(cfg: Config, w: nat, k: Worker, done: bool, st: WorkerStep)
    requires cfg.Valid() && LocalInv(cfg, w, k) && k.pc.Scanning? && k.batch != [] && st.Scan?
    ensures LocalInv(cfg, w, WorkerNext(k, done, st))
  {
    HeadOfMultiset(k.batch);
    OwnedParts(cfg, w, multiset{k.batch[0]}, multiset(k.batch[1..]));
    OwnedSum(cfg, w, k.waiting, multiset{k.batch[0]});
    OwnedSum(cfg, w, multiset(k.ready), multiset{k.batch[0]});
    hide Owned;
    assert multiset(k.ready + [k.batch[0]]) == multiset(k.ready) + multiset{k.batch[0]};
  }

  lemma OwnedSum(cfg: Config, w: nat, a: multiset<nat>, b: multiset<nat>)
    requires cfg.Valid() && Owned(cfg, w, a) && Owned(cfg, w, b)
    ensures Owned(cfg, w, a + b)
  {
  }

  lemma OwnedParts(cfg: Config, w: nat, a: multiset<nat>, b: multiset<nat>)
    requires cfg.Valid() && Owned(cfg, w, a + b)
    ensures Owned(cfg, w, a) && Owned(cfg, w, b)
  {
    forall c | c in a || c in b ensures c < cfg.conns && cfg.owner[c] == w {
      assert c in a + b;
    }
  }

  lemma PollLocal(cfg: Config, w: nat, k: Worker, done: bool, st: WorkerStep)
    requires cfg.Valid() && LocalInv(cfg, w, k) && st.Poll? && LocalEnabled(k, st)
    requires forall c :: c in st.batch ==> c < cfg.conns && cfg.owner[c] == w
    ensures LocalInv(cfg, w, WorkerNext(k, done, st))
  {
    assert forall c :: c in multiset(st.batch) ==> c in st.batch;
  }

  lemma RecvLocal(cfg: Config, w: nat, k: Worker, done: bool)
    requires cfg.Valid() && LocalInv(cfg, w, k) && LocalEnabled(k, Recv)
    ensures LocalInv(cfg, w, WorkerNext(k, done, Recv))
  {
    HeadOfMultiset(k.ready);
    OwnedParts(cfg, w, multiset{k.ready[0]}, multiset(k.ready[1..]));
    assert k.ready[0] in multiset{k.ready[0]};
  }

  lemma QuietLocal(cfg: Config, w: nat, k: Worker, done: bool, st: WorkerStep)
    requires cfg.Valid() && LocalInv(cfg, w, k) && LocalEnabled(k, st) && !st.Scan? && !st.Recv? && !st.Poll?
    ensures LocalInv(cfg, w, WorkerNext(k, done, st))
  {
    QuietPlaces(k, done, st);
    hide Owned, PlacesInv, WorkerNext, LocalEnabled;
  }

  lemma QuietPlaces(k: Worker, done: bool, st: WorkerStep)
    requires PlacesInv(k) && LocalEnabled(k, st) && !st.Scan? && !st.Recv? && !st.Poll?
    ensures var t := WorkerNext(k, done, st);
      && PlacesInv(t) && t.batch == k.batch && t.waiting == k.waiting && t.ready == k.ready
      && (t.echo == k.echo || t.echo == None)
  {
  }

  /** A step of worker w keeps its own lists in order. */
  lemma WorkerStepLocal(cfg: Config, s: State, w: nat, st: WorkerStep)
    requires Inv(cfg, s) && WorkerEnabled(cfg, s, w, st)
    ensures LocalInv(cfg, w, WorkerNext(s.workers[w], s.done, st))
  {
    hide LocalInv, WorkerNext;
    var k := s.workers[w];
    assert WorkerInv(cfg, s, w);
    if st.Scan? {
      ScanLocal(cfg, w, k, s.done, st);
    } else if st.Recv? {
      RecvLocal(cfg, w, k, s.done);
    } else if st.Poll? {
      PollLocal(cfg, w, k, s.done, st);
    } else {
      QuietLocal(cfg, w, k, s.done, st);
    }
  }

  lemma ScanListed(k: Worker, done: bool, st: WorkerStep, c: nat)
    requires k.batch != [] && st.Scan?
    ensures Listed(WorkerNext(k, done, st), c) == Listed(k, c)
  {
    HeadOfMultiset(k.batch);
  }

  lemma PollListed(k: Worker, done: bool, st: WorkerStep, c: nat)
    requires st.Poll? && LocalEnabled(k, st) && k.batch == [] && k.ready == []
    ensures Listed(WorkerNext(k, done, st), c) == Listed(k, c) + B(c in st.batch)
  {
    DistinctCounts(st.batch, c);
  }

  lemma QuietListed(k: Worker, done: bool, st: WorkerStep, c: nat)
    requires LocalEnabled(k, st) && !st.Scan? && !st.Recv? && !st.Poll?
    ensures Listed(WorkerNext(k, done, st), c) == Listed(k, c)
  {
  }

  /** What one step of a worker does to the number of times c is listed. */
  lemma WorkerStepListed(cfg: Config, s: State, w: nat, st: WorkerStep, c: nat)
    requires Inv(cfg, s) && WorkerEnabled(cfg, s, w, st)
    ensures var k, k' := s.workers[w], WorkerNext(s.workers[w], s.done, st);
      Listed(k', c) == match st
        case Poll(batch, _) => Listed(k, c) + B(c in batch)
        case Recv => Listed(k, c) - B(c == k.ready[0])
        case _ => Listed(k, c)
  {
    var k := s.workers[w];
    assert WorkerInv(cfg, s, w);
    match st {
      case Scan(_) => ScanListed(k, s.done, st, c);
      case Recv => HeadOfMultiset(k.ready);
      case Poll(_, _) => PollListed(k, s.done, st, c);
      case _ =>
        hide Listed, WorkerNext;
        QuietListed(k, s.done, st, c);
    }
  }

  /** A step that neither polls nor moves a message leaves every connection's tokens where they are. */
  lemma QuietStepToken(cfg: Config, s: State, w: nat, st: WorkerStep, c: nat)
    requires Inv(cfg, s) && WorkerEnabled(cfg, s, w, st) && c < cfg.conns
    requires !st.Poll? && !st.Recv? && !st.Write?
    ensures TokenInv(cfg, WorkerApply(cfg, s, w, st), c)
  {
    assert TokenInv(cfg, s, c);
    WorkerStepListed(cfg, s, w, st, c);
    QuietKeepsEcho(s.workers[w], s.done, st);
    hide Listed, WorkerNext, LocalEnabled, SharedEnabled;
  }

  lemma QuietKeepsEcho(k: Worker, done: bool, st: WorkerStep)
    requires LocalEnabled(k, st) && !st.Recv? && !st.Write?
    ensures WorkerNext(k, done, st).echo == k.echo
  {
  }

  lemma PollToken(cfg: Config, s: State, w: nat, st: WorkerStep, c: nat)
    requires Inv(cfg, s) && WorkerEnabled(cfg, s, w, st) && c < cfg.conns && st.Poll?
    ensures TokenInv(cfg, WorkerApply(cfg, s, w, st), c)
  {
    assert TokenInv(cfg, s, c);
    WorkerStepListed(cfg, s, w, st, c);
  }

  /** What a receive does to the connections and to the worker's echo. */
  lemma RecvEffect(cfg: Config, s: State, w: nat)
    requires Inv(cfg, s) && WorkerEnabled(cfg, s, w, Recv)
    ensures var t, c := WorkerApply(cfg, s, w, Recv), s.workers[w].ready[0];
      && c < cfg.conns && cfg.owner[c] == w && s.workers[w].echo == None
      && t == s.(workers := t.workers, conns := s.conns[c := s.conns[c].(serverBuf := s.conns[c].serverBuf - 1)])
      && t.workers == s.workers[w := t.workers[w]] && t.workers[w].echo == Some(c)
  {
    assert WorkerInv(cfg, s, w);
    assert s.workers[w].ready[0] in multiset(s.workers[w].ready);
  }

  /** A connection whose message the worker does not touch. */
  lemma OtherToken(cfg: Config, s: State, t: State, w: nat, c: nat)
    requires Sized(cfg, s) && Sized(cfg, t) && w < cfg.workers && c < cfg.conns && TokenInv(cfg, s, c)
    requires t.conns[c] == s.conns[c] && t.client == s.client && t.written == s.written
    requires t.workers == s.workers[w := t.workers[w]] && Listed(t.workers[w], c) == Listed(s.workers[w], c)
    requires cfg.owner[c] == w ==> (t.workers[w].echo == Some(c) <==> s.workers[w].echo == Some(c))
    ensures TokenInv(cfg, t, c)
  {
    hide Listed;
  }

  /** The connection whose message goes from the buffer to the worker. */
  lemma ReceivedToken(cfg: Config, s: State, t: State, w: nat, c: nat)
    requires Sized(cfg, s) && Sized(cfg, t) && c < cfg.conns && cfg.owner[c] == w && TokenInv(cfg, s, c)
    requires s.conns[c].serverBuf > 0 && t.conns[c] == s.conns[c].(serverBuf := s.conns[c].serverBuf - 1)
    requires t.client == s.client && t.written == s.written
    requires s.workers[w].echo == None && t.workers[w].echo == Some(c)
    requires Listed(t.workers[w], c) == Listed(s.workers[w], c) - 1
    ensures TokenInv(cfg, t, c)
  {
    hide Listed;
  }

  /** The connection whose message goes from the worker to the client. */
  lemma WrittenToken(cfg: Config, s: State, t: State, w: nat, c: nat)
    requires Sized(cfg, s) && Sized(cfg, t) && c < cfg.conns && cfg.owner[c] == w && TokenInv(cfg, s, c)
    requires t.conns[c] == s.conns[c].(toClient := s.conns[c].toClient + 1)
    requires t.client == s.client && t.written == s.written
    requires s.workers[w].echo == Some(c) && t.workers[w].echo == None
    requires Listed(t.workers[w], c) == Listed(s.workers[w], c)
    ensures TokenInv(cfg, t, c)
  {
    hide Listed;
  }

  lemma RecvToken(cfg: Config, s: State, w: nat, c: nat)
    requires Inv(cfg, s) && WorkerEnabled(cfg, s, w, Recv) && c < cfg.conns
    ensures TokenInv(cfg, WorkerApply(cfg, s, w, Recv), c)
  {
    var t := WorkerApply(cfg, s, w, Recv);
    assert TokenInv(cfg, s, c);
    RecvEffect(cfg, s, w);
    WorkerStepListed(cfg, s, w, Recv, c);
    assert t.workers[w] == WorkerNext(s.workers[w], s.done, Recv);
    hide Inv, TokenInv, Listed, WorkerApply, WorkerNext, WorkerEnabled;
    if c == s.workers[w].ready[0] {
      ReceivedToken(cfg, s, t, w, c);
    } else {
      OtherToken(cfg, s, t, w, c);
    }
  }

  lemma WriteEffect(cfg: Config, s: State, w: nat)
    requires Inv(cfg, s) && WorkerEnabled(cfg, s, w, Write)
    ensures var t, c := WorkerApply(cfg, s, w, Write), s.workers[w].echo.value;
      && c < cfg.conns && cfg.owner[c] == w
      && t == s.(workers := t.workers, conns := s.conns[c := s.conns[c].(toClient := s.conns[c].toClient + 1)])
      && t.workers == s.workers[w := t.workers[w]] && t.workers[w].echo == None
  {
    assert WorkerInv(cfg, s, w);
  }

  lemma WriteToken(cfg: Config, s: State, w: nat, c: nat)
    requires Inv(cfg, s) && WorkerEnabled(cfg, s, w, Write) && c < cfg.conns
    ensures TokenInv(cfg, WorkerApply(cfg, s, w, Write), c)
  {
    var t := WorkerApply(cfg, s, w, Write);
    assert TokenInv(cfg, s, c);
    WriteEffect(cfg, s, w);
    WorkerStepListed(cfg, s, w, Write, c);
    assert t.workers[w] == WorkerNext(s.workers[w], s.done, Write) && s.workers[w].echo.Some?;
    hide Inv, TokenInv, Listed, WorkerApply, WorkerNext, WorkerEnabled;
    if c == s.workers[w].echo.value {
      WrittenToken(cfg, s, t, w, c);
    } else {
      OtherToken(cfg, s, t, w, c);
    }
  }

  /** active_count moves with the workers between their increment and their exit. */
  lemma RegisteredDelta(cfg: Config, s: State, w: nat, st: WorkerStep)
    requires Sized(cfg, s) && WorkerEnabled(cfg, s, w, st)
    ensures Registered(WorkerNext(s.workers[w], s.done, st)) ==
      Registered(s.workers[w]) + (if st.Register? then 1 else if st.Deregister? then -1 else 0)
  {
  }

  lemma AllEnded(cfg: Config, s: State, w: nat)
    requires Inv(cfg, s) && s.main.Finished? && w < cfg.workers
    ensures s.workers[w].pc.Ended?
  {
    assert WorkerInv(cfg, s, w);
  }

  lemma WorkerStepMain(cfg: Config, s: State, w: nat, st: WorkerStep)
    requires Inv(cfg, s) && WorkerEnabled(cfg, s, w, st)
    ensures MainInv(cfg, WorkerApply(cfg, s, w, st))
  {
    var k' := WorkerNext(s.workers[w], s.done, st);
    assert WorkerInv(cfg, s, w);
    SumOfUpdate(Registered, s.workers, w, k');
    RegisteredDelta(cfg, s, w, st);
    if s.main.Finished? {
      AllEnded(cfg, s, w);
    }
    if BeforeUnlock(s) {
      OnlyRegistering(cfg, s, w, st);
      if s.main.Unlocking? {
        AllRegistered(s.workers, w);
      }
    }
    HolderKept(cfg, s, w, st);
    PcMoves(s.workers[w], s.done, st);
    assert MainInv(cfg, s);
    hide Inv, WorkerInv, TokenInv, ClientInv, LocalEnabled, SharedEnabled, WorkerNext, WorkerConns, Registered;
  }

  lemma HolderKept(cfg: Config, s: State, w: nat, st: WorkerStep)
    requires Inv(cfg, s) && WorkerEnabled(cfg, s, w, st)
    ensures var t := WorkerApply(cfg, s, w, st);
      && (t.mutex.HeldByMain? <==> s.mutex.HeldByMain?)
      && (t.mutex.HeldBy? ==> t.mutex.w < cfg.workers && t.workers[t.mutex.w].pc.HoldsLock?)
  {
    assert WorkerInv(cfg, s, w);
  }

  /** The step of another worker does not move worker v. */
  lemma OtherWorkerKept(cfg: Config, s: State, w: nat, st: WorkerStep, v: nat)
    requires Inv(cfg, s) && WorkerEnabled(cfg, s, w, st) && v < cfg.workers && v != w
    ensures WorkerInv(cfg, WorkerApply(cfg, s, w, st), v)
  {
    assert WorkerInv(cfg, s, v) && WorkerInv(cfg, s, w);
    BrokenStays(cfg, s, w, st);
  }

  lemma BrokenStays(cfg: Config, s: State, w: nat, st: WorkerStep)
    requires Sized(cfg, s) && WorkerEnabled(cfg, s, w, st)
    ensures forall c :: 0 <= c < cfg.conns && s.conns[c].broken ==> WorkerConns(cfg, s, w, st)[c].broken
  {
  }

  /** Which places a step leads to and starts from. */
  lemma PcMoves(k: Worker, done: bool, st: WorkerStep)
    requires LocalEnabled(k, st)
    ensures var pc := WorkerNext(k, done, st).pc;
      && !pc.Unspawned? && !pc.Starting? && (pc.AtBarrier? <==> st.Register?) && (pc.HoldsLock? <==> st.Lock?)
    ensures !k.pc.Unspawned? && !k.pc.Ended?
  {
  }

  lemma OwnPhase(cfg: Config, s: State, w: nat, st: WorkerStep)
    requires Inv(cfg, s) && WorkerEnabled(cfg, s, w, st)
    ensures PhaseInv(cfg, WorkerApply(cfg, s, w, st), w)
  {
    assert WorkerInv(cfg, s, w);
    PcMoves(s.workers[w], s.done, st);
    hide LocalEnabled, SharedEnabled, WorkerNext, WorkerConns, MainInv, ClientInv, TokenInv, LocalInv, ReasonInv;
    if BeforeUnlock(s) {
      OnlyRegistering(cfg, s, w, st);
    }
  }

  /** The reason a step leaves with, if it leaves. */
  lemma ReasonMoves(k: Worker, done: bool, st: WorkerStep)
    requires LocalEnabled(k, st) && (k.reason.Some? <==> k.pc.Leaving? || k.pc.Ended?)
    ensures var t := WorkerNext(k, done, st);
      && (t.reason.Some? <==> t.pc.Leaving? || t.pc.Ended?)
      && (t.reason == k.reason || t.reason == match st
          case PollFails => Some(PollError)
          case RecvFails => Some(PingFailed(k.ready[0]))
          case WriteBreaks => Some(PingFailed(k.echo.value))
          case _ => Some(SawDone))
      && (t.reason == Some(SawDone) ==> k.reason == Some(SawDone) || done || st.StopPinging?)
  {
  }

  lemma OwnReason(cfg: Config, s: State, w: nat, st: WorkerStep)
    requires Inv(cfg, s) && WorkerEnabled(cfg, s, w, st)
    ensures ReasonInv(cfg, WorkerApply(cfg, s, w, st), WorkerNext(s.workers[w], s.done, st))
  {
    var k := s.workers[w];
    assert WorkerInv(cfg, s, w);
    ReasonMoves(k, s.done, st);
    BrokenStays(cfg, s, w, st);
    if st.RecvFails? {
      EmptyMeansBroken(cfg, s, w, k.ready[0]);
    }
    hide WorkerNext, WorkerConns, MainInv, ClientInv, TokenInv, PhaseInv, Owned;
  }

  /** A listed descriptor without a message is broken. */
  lemma EmptyMeansBroken(cfg: Config, s: State, w: nat, c: nat)
    requires Inv(cfg, s) && w < cfg.workers && c in s.workers[w].ready
    ensures c < cfg.conns && cfg.owner[c] == w && (s.conns[c].serverBuf == 0 ==> s.conns[c].broken)
  {
    assert WorkerInv(cfg, s, w);
    assert c in multiset(s.workers[w].ready);
    assert TokenInv(cfg, s, c);
  }

  lemma WorkerStepInv(cfg: Config, s: State, w: nat, st: WorkerStep)
    requires Inv(cfg, s) && WorkerEnabled(cfg, s, w, st)
    ensures Inv(cfg, WorkerApply(cfg, s, w, st))
  {
    var t := WorkerApply(cfg, s, w, st);
    WorkerStepMain(cfg, s, w, st);
    forall v | 0 <= v < cfg.workers ensures WorkerInv(cfg, t, v) {
      if v == w {
        WorkerStepLocal(cfg, s, w, st);
        OwnPhase(cfg, s, w, st);
        OwnReason(cfg, s, w, st);
      } else {
        OtherWorkerKept(cfg, s, w, st, v);
      }
    }
    forall c | 0 <= c < cfg.conns ensures TokenInv(cfg, t, c) {
      if st.Poll? {
        PollToken(cfg, s, w, st, c);
      } else if st.Recv? {
        RecvToken(cfg, s, w, c);
      } else if st.Write? {
        WriteToken(cfg, s, w, c);
      } else {
        QuietStepToken(cfg, s, w, st, c);
      }
    }
  }

  lemma ClientStepToken(cfg: Config, s: State, l: ClientStep, c: nat)
    requires Inv(cfg, s) && ClientEnabled(cfg, s, l) && c < cfg.conns
    ensures TokenInv(cfg, ClientApply(cfg, s, l), c)
  {
    assert TokenInv(cfg, s, c);
    hide Inv, Listed;
    if l.ClientPoll? {
      DistinctCounts(l.batch, c);
    } else if l.ClientRecv? || l.ClientDrop? {
      HeadOfMultiset(s.client.batch);
    }
  }

  lemma ClientStepClient(cfg: Config, s: State, l: ClientStep)
    requires Inv(cfg, s) && ClientEnabled(cfg, s, l)
    ensures ClientInv(cfg, ClientApply(cfg, s, l))
  {
    match l {
      case ClientPoll(batch) => assert forall c :: c in multiset(batch) ==> c in batch;
      case ClientRecv =>
        HeadOfMultiset(s.client.batch);
        assert s.client.batch[0] in multiset(s.client.batch);
        assert forall c :: c in multiset(s.client.batch[1..]) ==> c in multiset(s.client.batch);
      case ClientDrop =>
        HeadOfMultiset(s.client.batch);
        assert forall c :: c in multiset(s.client.batch[1..]) ==> c in multiset(s.client.batch);
      case _ =>
    }
  }

  /** t differs from s in the connections and the client only, and no connection is mended. */
  ghost predicate SameThreads(cfg: Config, s: State, t: State)
    requires Sized(cfg, s) && Sized(cfg, t)
  {
    && t == s.(conns := t.conns, client := t.client)
    && forall c :: 0 <= c < cfg.conns && s.conns[c].broken ==> t.conns[c].broken
  }

  lemma SameThreadsMain(cfg: Config, s: State, t: State)
    requires Sized(cfg, s) && Sized(cfg, t) && SameThreads(cfg, s, t) && MainInv(cfg, s)
    ensures MainInv(cfg, t)
  {
    assert t.workers == s.workers && t.main == s.main && t.mutex == s.mutex;
  }

  lemma SameThreadsWorker(cfg: Config, s: State, t: State, w: nat)
    requires Sized(cfg, s) && Sized(cfg, t) && SameThreads(cfg, s, t) && w < cfg.workers && WorkerInv(cfg, s, w)
    ensures WorkerInv(cfg, t, w)
  {
    hide LocalInv;
    assert t.workers[w] == s.workers[w];
  }

  lemma ClientLeavesThreads(cfg: Config, s: State, l: ClientStep)
    requires Sized(cfg, s) && ClientEnabled(cfg, s, l)
    ensures SameThreads(cfg, s, ClientApply(cfg, s, l))
  {
  }

  lemma ClientStepInv(cfg: Config, s: State, l: ClientStep)
    requires Inv(cfg, s) && ClientEnabled(cfg, s, l)
    ensures Inv(cfg, ClientApply(cfg, s, l))
  {
    var t := ClientApply(cfg, s, l);
    ClientStepClient(cfg, s, l);
    ClientLeavesThreads(cfg, s, l);
    SameThreadsMain(cfg, s, t);
    forall w | 0 <= w < cfg.workers ensures WorkerInv(cfg, t, w) {
      SameThreadsWorker(cfg, s, t, w);
    }
    hide MainInv, WorkerInv, ClientInv, TokenInv, ClientEnabled, ClientApply, SameThreads;
    forall c | 0 <= c < cfg.conns ensures TokenInv(cfg, t, c) {
      ClientStepToken(cfg, s, l, c);
    }
  }

  lemma NetworkToken(cfg: Config, s: State, c: nat, n: NetworkStep, d: nat)
    requires Inv(cfg, s) && NetworkEnabled(cfg, s, c, n) && d < cfg.conns
    ensures TokenInv(cfg, Apply(cfg, s, ByNetwork(c, n)), d)
  {
    assert TokenInv(cfg, s, d);
    hide Inv, Listed;
  }

  lemma NetworkLeavesThreads(cfg: Config, s: State, c: nat, n: NetworkStep)
    requires Sized(cfg, s) && NetworkEnabled(cfg, s, c, n)
    ensures var t := Apply(cfg, s, ByNetwork(c, n)); SameThreads(cfg, s, t) && t.client == s.client
  {
  }

  lemma NetworkStepInv(cfg: Config, s: State, c: nat, n: NetworkStep)
    requires Inv(cfg, s) && NetworkEnabled(cfg, s, c, n)
    ensures Inv(cfg, Apply(cfg, s, ByNetwork(c, n)))
  {
    var t := Apply(cfg, s, ByNetwork(c, n));
    NetworkLeavesThreads(cfg, s, c, n);
    assert ClientInv(cfg, t);
    SameThreadsMain(cfg, s, t);
    hide MainInv, WorkerInv, ClientInv, TokenInv, NetworkEnabled, SameThreads, Apply;
    forall w | 0 <= w < cfg.workers ensures WorkerInv(cfg, t, w) {
      SameThreadsWorker(cfg, s, t, w);
    }
    forall d | 0 <= d < cfg.conns ensures TokenInv(cfg, t, d) {
      NetworkToken(cfg, s, c, n, d);
    }
  }

  lemma StepInv(cfg: Config, s: State, st: Step)
    requires Inv(cfg, s) && Enabled(cfg, s, st)
    ensures Inv(cfg, Apply(cfg, s, st))
  {
    match st
    case ByMain(m) => MainStepInv(cfg, s, m);
    case ByWorker(w, k) => WorkerStepInv(cfg, s, w, k);
    case ByClient(l) => ClientStepInv(cfg, s, l);
    case ByNetwork(c, n) => NetworkStepInv(cfg, s, c, n);
  }

  lemma {:induction false} RunInv(cfg: Config, s: State, steps: seq<Step>)
    requires Inv(cfg, s) && Executable(cfg, s, steps)
    ensures Inv(cfg, Run(cfg, s, steps))
    decreases |steps|
  {
    if steps != [] {
      StepInv(cfg, s, steps[0]);
      RunInv(cfg, Apply(cfg, s, steps[0]), steps[1..]);
    }
  }

  /** A run of two parts. */
  lemma {:induction false} RunsJoin(cfg: Config, s: State, a: seq<Step>, b: seq<Step>)
    requires Sized(cfg, s)
    ensures Executable(cfg, s, a + b) <==> Executable(cfg, s, a) && Executable(cfg, Run(cfg, s, a), b)
    ensures Executable(cfg, s, a + b) ==> Run(cfg, s, a + b) == Run(cfg, Run(cfg, s, a), b)
    decreases |a|
  {
    hide Enabled, Apply;
    if a == [] {
      assert a + b == b;
    } else {
      assert (a + b)[0] == a[0] && (a + b)[1..] == a[1..] + b;
      if Enabled(cfg, s, a[0]) {
        RunsJoin(cfg, Apply(cfg, s, a[0]), a[1..], b);
      }
    }
  }

  lemma ReachableInv(cfg: Config, s: State)
    requires cfg.Valid() && Reachable(cfg, s)
    ensures Inv(cfg, s)
  {
    InitInv(cfg);
    var steps :| Executable(cfg, Init(cfg), steps) && Run(cfg, Init(cfg), steps) == s;
    RunInv(cfg, Init(cfg), steps);
  }
}
