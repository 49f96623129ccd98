/**
 The passes of the worker's loop as steps of the whole system, with steps of the other threads, the client and the
 network between any two of them: each can be taken where it is taken.
 */
module Execution {
  import opened Totals
  import opened Protocol
  import opened ProtocolInvariant
  import opened Books
  import History
  import W = Worker
  import R = Refinement

  /** The steps of the loop that do not leave it. */
  predicate InLoop(st: WorkerStep) {
    st.Poll? || st.TestDone? || st.Scan? || st.ScansDone? || st.Recv? || st.Write? || st.PingsDone?
  }

  predicate AllInLoop(steps: seq<WorkerStep>) { forall i :: 0 <= i < |steps| ==> InLoop(steps[i]) }

  /** Epoll has an edge of worker w's own for every connection of the batch. */
  ghost predicate HasEdges(cfg: Config, s: State, w: nat, batch: seq<nat>)
    requires Sized(cfg, s)
  {
    forall c :: c in batch ==> c < cfg.conns && cfg.owner[c] == w && s.conns[c].serverEdge
  }

  /** The connection of the next ping is intact, or its message has come in all the same. */
  ghost predicate MayReceive(cfg: Config, s: State, k: Worker)
    requires Sized(cfg, s)
  {
    forall c :: NextPing(k) == Some(c) && c < cfg.conns ==> !s.conns[c].broken || s.conns[c].serverBuf > 0
  }

  predicate LooksAtDone(st: WorkerStep) { st.TestDone? || st == Scan(false) || st.Recv? }

  /** What a step of the loop needs of the others: done is not set when it is looked at, and epoll has its edges. */
  ghost predicate Lets(cfg: Config, s: State, w: nat, st: WorkerStep)
    requires Sized(cfg, s) && w < cfg.workers
  {
    && (LooksAtDone(st) ==> !s.done)
    && (st.Poll? ==> HasEdges(cfg, s, w, st.batch))
    && (st.Recv? ==> MayReceive(cfg, s, s.workers[w]))
  }

  /** A receive finds its message, and a write its connection: what the worker can do, the system lets it do. */
  lemma LocalIsEnabled(cfg: Config, s: State, w: nat, st: WorkerStep)
    requires Inv(cfg, s) && w < cfg.workers && LocalEnabled(s.workers[w], st) && InLoop(st) && Lets(cfg, s, w, st)
    ensures WorkerEnabled(cfg, s, w, st)
  {
    assert WorkerInv(cfg, s, w);
    var k := s.workers[w];
    if st.Recv? {
      assert k.ready[0] in multiset(k.ready);
      assert TokenInv(cfg, s, k.ready[0]);
      assert NextPing(k) == Some(k.ready[0]);
    }
  }

  /** A step of the loop that does not look at done, or finds it unset. */
  lemma DoneIsUnseen(k: Worker, done: bool, st: WorkerStep)
    requires LocalEnabled(k, st) && InLoop(st) && (LooksAtDone(st) ==> !done)
    ensures WorkerNext(k, done, st) == WorkerNext(k, false, st) && !WorkerNext(k, done, st).pc.Unspawned?
  {
  }

  lemma TakesStep(cfg: Config, s: State, w: nat, st: WorkerStep)
    requires Inv(cfg, s) && w < cfg.workers && LocalEnabled(s.workers[w], st) && InLoop(st) && Lets(cfg, s, w, st)
    ensures WorkerEnabled(cfg, s, w, st)
    ensures var t := WorkerApply(cfg, s, w, st);
      Inv(cfg, t) && t.workers[w] == WorkerNext(s.workers[w], false, st) && !t.workers[w].pc.Unspawned?
  {
    LocalIsEnabled(cfg, s, w, st);
    WorkerStepInv(cfg, s, w, st);
    DoneIsUnseen(s.workers[w], s.done, st);
    hide Inv, WorkerNext, LocalEnabled, SharedEnabled, WorkerConns;
  }

  // ---------------------------------------------------------------- the others

  /** Steps of anything but worker w. */
  predicate OfOthers(w: nat, steps: seq<Step>) {
    forall i :: 0 <= i < |steps| ==> !(steps[i].ByWorker? && steps[i].w == w)
  }

  /** The others never touch a worker that has been started. */
  lemma {:induction false} OthersKeep(cfg: Config, s: State, w: nat, steps: seq<Step>)
    requires Inv(cfg, s) && w < cfg.workers && Executable(cfg, s, steps) && OfOthers(w, steps)
    requires !s.workers[w].pc.Unspawned?
    ensures Inv(cfg, Run(cfg, s, steps)) && Run(cfg, s, steps).workers[w] == s.workers[w]
    decreases |steps|
  {
    hide LocalEnabled, SharedEnabled, WorkerNext;
    if steps != [] {
      StepInv(cfg, s, steps[0]);
      OtherKeeps(cfg, s, w, steps[0]);
      hide Inv, Apply, Enabled;
      OthersKeep(cfg, Apply(cfg, s, steps[0]), w, steps[1..]);
    }
  }

  lemma MainKeeps(cfg: Config, s: State, w: nat, m: MainStep)
    requires Sized(cfg, s) && w < cfg.workers && PhaseInv(cfg, s, w) && MainEnabled(cfg, s, m)
    requires !s.workers[w].pc.Unspawned?
    ensures MainApply(cfg, s, m).workers[w] == s.workers[w]
  {
  }

  lemma OtherKeeps(cfg: Config, s: State, w: nat, st: Step)
    requires Inv(cfg, s) && w < cfg.workers && Enabled(cfg, s, st) && !(st.ByWorker? && st.w == w)
    requires !s.workers[w].pc.Unspawned?
    ensures Apply(cfg, s, st).workers[w] == s.workers[w]
  {
    assert WorkerInv(cfg, s, w) && PhaseInv(cfg, s, w);
    hide Inv, PhaseInv, MainEnabled, MainApply, LocalEnabled, SharedEnabled, WorkerNext, WorkerConns;
    match st
    case ByMain(m) => MainKeeps(cfg, s, w, m);
    case ByWorker(v, k) =>
    case ByClient(l) =>
      ClientLeavesThreads(cfg, s, l);
      hide ClientEnabled, ClientApply;
    case ByNetwork(c, n) => NetworkLeavesThreads(cfg, s, c, n);
  }

  // ---------------------------------------------------------------- paths of the worker among the steps of the others

  /**
   Before each step of the worker the others do what they like, between[0] before the first; what they leave lets the
   worker take its step.
   */
  ghost predicate Woven(cfg: Config, s: State, w: nat, steps: seq<WorkerStep>, between: seq<seq<Step>>)
    requires Sized(cfg, s) && w < cfg.workers
    decreases |steps|
  {
    |between| == |steps| && (steps == [] || (
      && Executable(cfg, s, between[0]) && OfOthers(w, between[0])
      && var t := Run(cfg, s, between[0]);
      && Lets(cfg, t, w, steps[0])
      && (WorkerEnabled(cfg, t, w, steps[0]) ==>
        Woven(cfg, WorkerApply(cfg, t, w, steps[0]), w, steps[1..], between[1..]))))
  }

  /** The steps of the worker and of the others, in turn. */
  function Weave(w: nat, steps: seq<WorkerStep>, between: seq<seq<Step>>): seq<Step> {
    if steps == [] || between == [] then []
    else between[0] + ([ByWorker(w, steps[0])] + Weave(w, steps[1..], between[1..]))
  }

  lemma PathHead(k: Worker, steps: seq<WorkerStep>)
    requires R.IsPath(k, steps) && steps != []
    ensures LocalEnabled(k, steps[0]) && R.IsPath(WorkerNext(k, false, steps[0]), steps[1..])
    ensures R.Follow(k, steps) == R.Follow(WorkerNext(k, false, steps[0]), steps[1..])
  {
    hide LocalEnabled, WorkerNext;
  }

  lemma FirstStep(cfg: Config, s: State, w: nat, st: WorkerStep, rest: seq<Step>)
    requires Sized(cfg, s) && WorkerEnabled(cfg, s, w, st) && Executable(cfg, WorkerApply(cfg, s, w, st), rest)
    ensures Executable(cfg, s, [ByWorker(w, st)] + rest)
    ensures Run(cfg, s, [ByWorker(w, st)] + rest) == Run(cfg, WorkerApply(cfg, s, w, st), rest)
  {
    hide WorkerEnabled, WorkerApply;
    var all := [ByWorker(w, st)] + rest;
    assert all[0] == ByWorker(w, st) && all[1..] == rest;
  }

  /** The first step of a woven path, and what is left. */
  lemma WovenHead(cfg: Config, s: State, w: nat, steps: seq<WorkerStep>, between: seq<seq<Step>>) returns (t: State)
    requires Inv(cfg, s) && w < cfg.workers && !s.workers[w].pc.Unspawned? && steps != []
    requires R.IsPath(s.workers[w], steps) && InLoop(steps[0]) && Woven(cfg, s, w, steps, between)
    ensures Executable(cfg, s, between[0]) && t == Run(cfg, s, between[0])
    ensures Inv(cfg, t) && t.workers[w] == s.workers[w] && Lets(cfg, t, w, steps[0])
    ensures WorkerEnabled(cfg, t, w, steps[0])
    ensures var u := WorkerApply(cfg, t, w, steps[0]);
      && Inv(cfg, u) && u.workers[w] == WorkerNext(s.workers[w], false, steps[0]) && !u.workers[w].pc.Unspawned?
      && Woven(cfg, u, w, steps[1..], between[1..])
  {
    assert Sized(cfg, s);
    hide Inv, Lets, InLoop, LocalEnabled, SharedEnabled, WorkerNext, WorkerApply, WorkerEnabled, OfOthers;
    t := Run(cfg, s, between[0]);
    OthersKeep(cfg, s, w, between[0]);
    PathHead(s.workers[w], steps);
    TakesStep(cfg, t, w, steps[0]);
  }

  /** A path of the worker can be taken step by step, whatever the others do in between. */
  lemma {:induction false} PathExecutes(cfg: Config, s: State, w: nat, steps: seq<WorkerStep>, between: seq<seq<Step>>)
    requires Inv(cfg, s) && w < cfg.workers && !s.workers[w].pc.Unspawned?
    requires R.IsPath(s.workers[w], steps) && AllInLoop(steps) && Woven(cfg, s, w, steps, between)
    ensures Executable(cfg, s, Weave(w, steps, between))
    ensures var t := Run(cfg, s, Weave(w, steps, between));
      Inv(cfg, t) && t.workers[w] == R.Follow(s.workers[w], steps)
    decreases |steps|
  {
    assert Sized(cfg, s);
    hide Inv, Lets, InLoop, LocalEnabled, SharedEnabled, WorkerNext, WorkerApply, WorkerEnabled, OfOthers;
    if steps != [] {
      var st := steps[0];
      PathHead(s.workers[w], steps);
      var t := WovenHead(cfg, s, w, steps, between);
      hide R.IsPath, R.Follow, Executable, Run, Woven;
      PathExecutes(cfg, WorkerApply(cfg, t, w, st), w, steps[1..], between[1..]);
      var rest := Weave(w, steps[1..], between[1..]);
      FirstStep(cfg, t, w, st, rest);
      RunsJoin(cfg, s, between[0], [ByWorker(w, st)] + rest);
    }
  }

  // ---------------------------------------------------------------- passes

  lemma {:induction false} PingStepsInLoop(n: nat)
    ensures AllInLoop(R.PingSteps(n))
  {
    if n > 0 {
      PingStepsInLoop(n - 1);
    }
  }

  /** A pass takes only steps of the loop, and begins with its poll. */
  lemma StepsToInLoop(log: seq<History.Ev>, p: W.Pass, n: nat, id: R.Numbering)
    ensures AllInLoop(R.StepsTo(log, p, n, id)) && R.StepsTo(log, p, n, id)[0] == R.PollOf(p, id)
  {
    PingStepsInLoop(n);
    var steps := R.StepsTo(log, p, n, id);
    forall i | 0 <= i < |steps| ensures InLoop(steps[i]) {
    }
  }

  lemma PartStepsInLoop(log: seq<History.Ev>, p: W.Pass, why: W.Why, id: R.Numbering)
    ensures AllInLoop(R.PartSteps(log, p, why, id))
    ensures if why.WaitFailed? then R.PartSteps(log, p, why, id) == []
      else R.PartSteps(log, p, why, id) != [] && R.PartSteps(log, p, why, id)[0] == R.PollOf(p, id)
  {
    StepsToInLoop(log, p, |p.pinged|, id);
    hide R.StepsTo;
  }

  lemma PassStepsInLoop(log: seq<History.Ev>, p: W.Pass, id: R.Numbering)
    ensures AllInLoop(R.PassSteps(log, p, id))
    ensures R.PassSteps(log, p, id) != [] && R.PassSteps(log, p, id)[0] == R.PollOf(p, id)
  {
    StepsToInLoop(log, p, |p.pinged|, id);
    hide R.StepsTo;
  }

  /** A whole pass can be taken in the system. */
  lemma PassExecutes(cfg: Config, s: State, w: nat, before: Account, after: Account, p: W.Pass,
      between: seq<seq<Step>>, id: R.Numbering)
    requires Inv(cfg, s) && w < cfg.workers && s.workers[w] == R.AtHead(before, id)
    requires W.CompletePass(before, after, p) && R.Injective(id)
    requires Woven(cfg, s, w, R.PassSteps(before.log, p, id), between)
    ensures Executable(cfg, s, Weave(w, R.PassSteps(before.log, p, id), between))
    ensures var t := Run(cfg, s, Weave(w, R.PassSteps(before.log, p, id), between));
      Inv(cfg, t) && t.workers[w] == R.AtHead(after, id)
  {
    R.PassIsPath(before, after, p, id);
    PassStepsInLoop(before.log, p, id);
    hide W.CompletePass, R.IsPath, R.Follow, Inv, Woven, R.PassSteps, AllInLoop, R.Injective;
    PathExecutes(cfg, s, w, R.PassSteps(before.log, p, id), between);
  }

  /** So can the steps of a pass that returns, up to the last one. */
  lemma ReturnExecutes(cfg: Config, s: State, w: nat, before: Account, after: Account, p: W.Pass, why: W.Why,
      between: seq<seq<Step>>, id: R.Numbering)
    requires Inv(cfg, s) && w < cfg.workers && s.workers[w] == R.AtHead(before, id)
    requires W.PartOfPass(before, after, p, why) && R.Injective(id)
    requires Woven(cfg, s, w, R.PartSteps(before.log, p, why, id), between)
    ensures Executable(cfg, s, Weave(w, R.PartSteps(before.log, p, why, id), between))
    ensures var t := Run(cfg, s, Weave(w, R.PartSteps(before.log, p, why, id), between));
      Inv(cfg, t) && R.LeavesFrom(t.workers[w], why, R.ReasonOf(before.log, p, why, id), after, id)
  {
    var k := R.ReturnIsPath(before, after, p, why, id);
    PartStepsInLoop(before.log, p, why, id);
    hide W.PartOfPass, R.LeavesFrom, R.IsPath, R.Follow, Inv, Woven, R.PartSteps, AllInLoop, R.Injective;
    PathExecutes(cfg, s, w, R.PartSteps(before.log, p, why, id), between);
  }

  /**
   The last step of a pass that returns can be taken once the others have done their part: main has set done, or the
   connection is broken.
   */
  lemma LastStepEnabled(cfg: Config, s: State, w: nat, why: W.Why, reason: Reason, after: Account, id: R.Numbering)
    requires Inv(cfg, s) && w < cfg.workers && R.LeavesFrom(s.workers[w], why, reason, after, id)
    requires s.done == R.SeesDone(why)
    requires reason.PingFailed? ==> reason.c < cfg.conns && s.conns[reason.c].broken
    ensures WorkerEnabled(cfg, s, w, R.LastStep(why))
    ensures var t := WorkerApply(cfg, s, w, R.LastStep(why)).workers[w]; t.pc.Leaving? && t.reason == Some(reason)
  {
    assert WorkerInv(cfg, s, w);
  }

  // ---------------------------------------------------------------- runs

  /** The steps of the first pass of a run, but for the one that leaves the loop. */
  function HeadSteps(accounts: seq<Account>, records: seq<W.Pass>, exit: W.Exit, id: R.Numbering): seq<WorkerStep>
    requires records != [] && |accounts| == |records| + 1
  {
    if exit.Returned? && |records| == 1 then R.PartSteps(accounts[0].log, records[0], exit.why, id)
    else R.PassSteps(accounts[0].log, records[0], id)
  }

  /** All passes are woven with the steps of the others. */
  ghost predicate Interleaved(cfg: Config, s: State, w: nat, accounts: seq<Account>, records: seq<W.Pass>,
      exit: W.Exit, between: seq<seq<seq<Step>>>, id: R.Numbering)
    requires Sized(cfg, s) && w < cfg.workers && |accounts| == |records| + 1
    decreases |records|
  {
    |between| == |records| && (records == [] || (
      var steps := HeadSteps(accounts, records, exit, id);
      && Woven(cfg, s, w, steps, between[0])
      && var pass := Weave(w, steps, between[0]);
         Executable(cfg, s, pass) ==>
         Interleaved(cfg, Run(cfg, s, pass), w, accounts[1..], records[1..], exit, between[1..], id)))
  }

  /** The steps of the others and of the passes, in turn. */
  function AllSteps(w: nat, accounts: seq<Account>, records: seq<W.Pass>, exit: W.Exit, between: seq<seq<seq<Step>>>,
      id: R.Numbering): seq<Step>
    requires |accounts| == |records| + 1
  {
    if records == [] || between == [] then []
    else Weave(w, HeadSteps(accounts, records, exit, id), between[0])
         + AllSteps(w, accounts[1..], records[1..], exit, between[1..], id)
  }

  /** The worker after a run: at the head of its loop, or before the step that leaves it. */
  ghost predicate EndsAs(k: Worker, accounts: seq<Account>, records: seq<W.Pass>, exit: W.Exit, id: R.Numbering)
    requires |accounts| == |records| + 1
  {
    match exit
    case Continues => k == R.AtHead(accounts[|records|], id)
    case Returned(why) =>
      var n := |records| - 1;
      n >= 0 && R.LeavesFrom(k, why, R.ReasonOf(accounts[n].log, records[n], why, id), accounts[n + 1], id)
  }

  /** What the first pass of a run leads to. */
  lemma HeadExecutes(cfg: Config, s: State, w: nat, accounts: seq<Account>, records: seq<W.Pass>, exit: W.Exit,
      between: seq<seq<Step>>, id: R.Numbering) returns (t: State)
    requires Inv(cfg, s) && w < cfg.workers && W.Chain(accounts, records, exit) && R.Injective(id) && records != []
    requires s.workers[w] == R.AtHead(accounts[0], id)
    requires Woven(cfg, s, w, HeadSteps(accounts, records, exit, id), between)
    ensures Executable(cfg, s, Weave(w, HeadSteps(accounts, records, exit, id), between))
    ensures t == Run(cfg, s, Weave(w, HeadSteps(accounts, records, exit, id), between)) && Inv(cfg, t)
    ensures if exit.Returned? && |records| == 1 then EndsAs(t.workers[w], accounts, records, exit, id)
      else t.workers[w] == R.AtHead(accounts[1], id) && W.Chain(accounts[1..], records[1..], exit)
  {
    ChainHead(accounts, records, exit);
    hide W.Chain, W.CompletePass, W.PartOfPass, Inv, Woven, R.AtHead, R.Injective;
    if exit.Returned? && |records| == 1 {
      ReturnExecutes(cfg, s, w, accounts[0], accounts[1], records[0], exit.why, between, id);
    } else {
      PassExecutes(cfg, s, w, accounts[0], accounts[1], records[0], between, id);
    }
    t := Run(cfg, s, Weave(w, HeadSteps(accounts, records, exit, id), between));
  }

  lemma ChainHead(accounts: seq<Account>, records: seq<W.Pass>, exit: W.Exit)
    requires W.Chain(accounts, records, exit) && records != []
    ensures if exit.Returned? && |records| == 1 then W.PartOfPass(accounts[0], accounts[1], records[0], exit.why)
      else W.CompletePass(accounts[0], accounts[1], records[0]) && W.Chain(accounts[1..], records[1..], exit)
  {
    hide W.CompletePass, W.PartOfPass;
  }

  lemma EndsLater(k: Worker, accounts: seq<Account>, records: seq<W.Pass>, exit: W.Exit, id: R.Numbering)
    requires |accounts| == |records| + 1 && records != [] && EndsAs(k, accounts[1..], records[1..], exit, id)
    ensures EndsAs(k, accounts, records, exit, id)
  {
    hide R.LeavesFrom, R.ReasonOf, R.AtHead;
  }

  /** The first pass of an interleaved run, and what is left. */
  lemma InterleavedHead(cfg: Config, s: State, w: nat, accounts: seq<Account>, records: seq<W.Pass>, exit: W.Exit,
      between: seq<seq<seq<Step>>>, id: R.Numbering)
    requires Sized(cfg, s) && w < cfg.workers && |accounts| == |records| + 1 && records != []
    requires Interleaved(cfg, s, w, accounts, records, exit, between, id)
    ensures |between| == |records| && Woven(cfg, s, w, HeadSteps(accounts, records, exit, id), between[0])
    ensures var pass := Weave(w, HeadSteps(accounts, records, exit, id), between[0]);
      && (Executable(cfg, s, pass) ==>
        Interleaved(cfg, Run(cfg, s, pass), w, accounts[1..], records[1..], exit, between[1..], id))
      && AllSteps(w, accounts, records, exit, between, id) ==
         pass + AllSteps(w, accounts[1..], records[1..], exit, between[1..], id)
    ensures |records| == 1 ==> AllSteps(w, accounts[1..], records[1..], exit, between[1..], id) == []
  {
    hide Woven, Weave, HeadSteps, Executable, Run;
  }

  lemma EmptyRun(cfg: Config, s: State, w: nat, accounts: seq<Account>, records: seq<W.Pass>, exit: W.Exit,
      between: seq<seq<seq<Step>>>, id: R.Numbering)
    requires Inv(cfg, s) && w < cfg.workers && W.Chain(accounts, records, exit) && records == []
    requires s.workers[w] == R.AtHead(accounts[0], id)
    ensures Executable(cfg, s, AllSteps(w, accounts, records, exit, between, id))
    ensures Run(cfg, s, AllSteps(w, accounts, records, exit, between, id)) == s
    ensures EndsAs(s.workers[w], accounts, records, exit, id)
  {
    hide R.AtHead;
  }

  /** A run of the class's loop, with the others' steps between its steps, is a run of the system. */
  lemma {:induction false} RunExecutes(cfg: Config, s: State, w: nat, accounts: seq<Account>, records: seq<W.Pass>,
      exit: W.Exit, between: seq<seq<seq<Step>>>, id: R.Numbering)
    requires Inv(cfg, s) && w < cfg.workers && W.Chain(accounts, records, exit) && R.Injective(id)
    requires s.workers[w] == R.AtHead(accounts[0], id)
    requires Interleaved(cfg, s, w, accounts, records, exit, between, id)
    ensures Executable(cfg, s, AllSteps(w, accounts, records, exit, between, id))
    ensures var t := Run(cfg, s, AllSteps(w, accounts, records, exit, between, id));
      Inv(cfg, t) && EndsAs(t.workers[w], accounts, records, exit, id)
    decreases |records|
  {
    assert Sized(cfg, s) && |accounts| == |records| + 1;
    hide *;
    if records == [] {
      EmptyRun(cfg, s, w, accounts, records, exit, between, id);
    } else {
      InterleavedHead(cfg, s, w, accounts, records, exit, between, id);
      var pass := Weave(w, HeadSteps(accounts, records, exit, id), between[0]);
      var t := HeadExecutes(cfg, s, w, accounts, records, exit, between[0], id);
      var rest := AllSteps(w, accounts[1..], records[1..], exit, between[1..], id);
      if exit.Returned? && |records| == 1 {
        assert pass + rest == pass;
      } else {
        InvIsSized(cfg, t);
        RunExecutes(cfg, t, w, accounts[1..], records[1..], exit, between[1..], id);
        RunsJoin(cfg, s, pass, rest);
        EndsLater(Run(cfg, t, rest).workers[w], accounts, records, exit, id);
      }
    }
  }

  lemma InvIsSized(cfg: Config, s: State)
    requires Inv(cfg, s)
    ensures Sized(cfg, s) && |s.workers| == cfg.workers
  {
  }
}
