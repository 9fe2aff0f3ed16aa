/**
 * Stopping the coordinator's HTTPS server
 * (src/coordinator/network/wallet_server/src/CoordinatorHttpsServer.cpp, with the handlers of
 * HttpsSession.cpp and the worker pool): I/O threads may sit in future.get() or in a full Emplace when
 * Stop is called, and still every one of them, the pool and Stop itself come to an end.
 */
module CoordinatorHttpsServer {
  import Pool = ThreadPool
  import HttpsSession

  // ---------- what Stop does, in order ----------

  datatype StopStep =
    | CloseAcceptor
    | StopIo
    | JoinIo(t: nat)
    | SetStop
    | ShutdownQueue
    | JoinWorker(w: nat)

  function JoinIos(n: nat): seq<StopStep> {
    seq(n, i requires 0 <= i => JoinIo(i))
  }

  function JoinWorkers(m: nat): seq<StopStep> {
    seq(m, i requires 0 <= i => JoinWorker(i))
  }

  /** The I/O threads are joined first, the pool is shut down afterwards. */
  function StopPlan(n: nat, m: nat): seq<StopStep> {
    [CloseAcceptor, StopIo] + JoinIos(n) + [SetStop, ShutdownQueue] + JoinWorkers(m)
  }

  /** The other order: the pool first. */
  function PoolFirstPlan(n: nat, m: nat): seq<StopStep> {
    [CloseAcceptor, SetStop, ShutdownQueue] + JoinWorkers(m) + [StopIo] + JoinIos(n)
  }

  /** The server object. Each effect of Stop is a method that logs itself, so the log is the order of the effects. */
  class CoordinatorHttpsServer {
    var running: bool
    var acceptorOpen: bool
    var ioStopped: bool
    var ioThreads: seq<bool>  // whether the thread is joinable
    const handlerPool: Pool.ThreadPool
    ghost var taken: seq<StopStep>

    /** A running server has all its threads and an open pool. */
    ghost predicate Valid()
      reads this, handlerPool
    {
      running ==>
        && acceptorOpen && !ioStopped && !handlerPool.stop
        && forall t :: 0 <= t < |ioThreads| ==> ioThreads[t]
    }

    predicate AllJoined()
      reads this`ioThreads
    {
      forall t :: 0 <= t < |ioThreads| ==> !ioThreads[t]
    }

    constructor (ioThreads: nat, workers: nat)
      requires workers > 0
      ensures Valid() && running && |this.ioThreads| == ioThreads && taken == []
      ensures handlerPool.workers == workers && fresh(handlerPool) && fresh(handlerPool.taskQueue)
    {
      running, acceptorOpen, ioStopped := true, true, false;
      this.ioThreads := seq(ioThreads, _ => true);
      handlerPool := new Pool.ThreadPool(workers);
      taken := [];
    }

    method CloseTheAcceptor()
      modifies this`acceptorOpen, this`taken
      ensures !acceptorOpen && taken == old(taken) + [CloseAcceptor]
    {
      acceptorOpen := false;
      taken := taken + [CloseAcceptor];
    }

    method StopTheIo()
      modifies this`ioStopped, this`taken
      ensures ioStopped && taken == old(taken) + [StopIo]
    {
      ioStopped := true;
      taken := taken + [StopIo];
    }

    /** A join returns once the thread has left io_context.run(), which a running io_context does not let it. */
    method Join(t: nat)
      requires t < |ioThreads| && ioThreads[t] && ioStopped
      modifies this`ioThreads, this`taken
      ensures ioThreads == old(ioThreads)[t := false] && taken == old(taken) + [JoinIo(t)]
    {
      ioThreads := ioThreads[t := false];
      taken := taken + [JoinIo(t)];
    }

    /** The pool must outlive the I/O threads: they may be waiting for one of its tasks. */
    method ShutThePool()
      requires AllJoined() && !handlerPool.stop
      modifies handlerPool`stop, handlerPool`workers, handlerPool.taskQueue, this`taken
      ensures handlerPool.Value() == Pool.PoolState(old(handlerPool.taskQueue.Value()).Shutdown(), true)
      ensures handlerPool.workers == 0
      ensures taken == old(taken) + [SetStop, ShutdownQueue] + JoinWorkers(old(handlerPool.workers))
    {
      ghost var m := handlerPool.workers;
      handlerPool.Shutdown();
      taken := taken + [SetStop, ShutdownQueue] + JoinWorkers(m);
    }

    method Stop()
      requires Valid()
      modifies this, handlerPool`stop, handlerPool`workers, handlerPool.taskQueue
      ensures Valid() && !running
      ensures !old(running) ==>
                && taken == old(taken) && ioThreads == old(ioThreads)
                && handlerPool.Value() == old(handlerPool.Value())
      ensures old(running) ==>
                && !acceptorOpen && ioStopped && ioThreads == [] && handlerPool.workers == 0
                && handlerPool.Value() == Pool.PoolState(old(handlerPool.taskQueue.Value()).Shutdown(), true)
                && taken == old(taken) + StopPlan(|old(ioThreads)|, old(handlerPool.workers))
    {
      if !running {
        return;
      }
      running := false;
      CloseTheAcceptor();
      StopTheIo();
      for t := 0 to |ioThreads|
        invariant |ioThreads| == |old(ioThreads)| && !running && !acceptorOpen && ioStopped && !handlerPool.stop
        invariant forall i :: 0 <= i < |ioThreads| ==> ioThreads[i] == (i >= t)
        invariant taken == old(taken) + [CloseAcceptor] + [StopIo] + JoinIos(t)
        invariant handlerPool.Value() == old(handlerPool.Value()) && handlerPool.workers == old(handlerPool.workers)
      {
        if ioThreads[t] {
          Join(t);
        }
        assert JoinIos(t + 1) == JoinIos(t) + [JoinIo(t)];
      }
      ShutThePool();
      ioThreads := [];
      assert taken == old(taken) + StopPlan(|old(ioThreads)|, old(handlerPool.workers));
    }
  }

  // ---------- I/O threads, workers and the stopping thread ----------

  /** Where an I/O thread is; s names the session whose handler it runs, p a promise. */
  datatype Io =
    | Idle
    | Reading(s: nat)                  // OnRead before its push
    | Answering(s: nat, p: nat)        // malformed body: before set_value
    | Submitting(s: nat, slot: Pool.Slot)
    | Claiming(s: nat)                 // before the compare-and-swap
    | Taking(s: nat)                   // before the locked part of DoWrite
    | Getting(s: nat, p: nat)          // in future.get()
    | Finishing                        // only steps left that cannot block
    | Exited

  /** What the handlers of one session share; what is counted and closed does not matter here. */
  type Session = HttpsSession.Core

  const NewSession := HttpsSession.Core(true, [], false, 0, 0)

  datatype System = System(
    threads: seq<Io>,
    pool: Pool.PoolState,
    workers: seq<Pool.Slot>,
    sessions: map<nat, Session>,
    made: nat,                // promises made so far
    resolved: set<nat>,       // promises with a value or an exception
    ioStopped: bool,
    plan: seq<StopStep>,
    done: nat)

  datatype Handler = OnRead(s: nat) | OnWrite(s: nat) | OtherHandler

  datatype ReadOutcome = WellFormed | MalformedBody | ReadError

  datatype Action =
    | Dispatch(t: nat, handler: Handler)
    | Go(t: nat, outcome: ReadOutcome)
    | Work(w: nat)
    | Advance

  function Init(n: nat, m: nat, plan: seq<StopStep>): System {
    System(
      seq(n, _ => Idle), Pool.Init(m, 0).pool, seq(m, _ => Pool.Slot(Pool.AtLoop, Pool.EmptyTask)),
      map[], 0, {}, false, plan, 0)
  }

  function Conn(s: System, sid: nat): Session {
    if sid in s.sessions then s.sessions[sid] else NewSession
  }

  function TaskFor(p: nat): Pool.Task {
    Pool.Task(0, Pool.To(p), true)
  }

  predicate ThreadCanGo(s: System, io: Io) {
    match io
    case Idle => s.ioStopped
    case Submitting(_, slot) => slot.stage.Submitting? || s.pool.queue.CanPush()
    case Getting(_, p) => p in s.resolved
    case Exited => false
    case _ => true
  }

  predicate WorkerCanGo(s: System, slot: Pool.Slot) {
    match slot.stage
    case Popping => s.pool.queue.CanPop()
    case Exited => false
    case _ => true
  }

  predicate CanAdvance(s: System) {
    s.done < |s.plan| &&
    match s.plan[s.done]
    case JoinIo(t) => t < |s.threads| && s.threads[t].Exited?
    case JoinWorker(w) => w < |s.workers| && s.workers[w].stage.Exited?
    case _ => true
  }

  predicate Enabled(s: System, a: Action) {
    match a
    case Dispatch(t, _) => t < |s.threads| && s.threads[t].Idle? && !s.ioStopped
    case Go(t, _) => t < |s.threads| && ThreadCanGo(s, s.threads[t])
    case Work(w) => w < |s.workers| && WorkerCanGo(s, s.workers[w])
    case Advance => CanAdvance(s)
  }

  /** Everything a thread's step may change besides the thread itself. */
  function Goes(s: System, t: nat, io: Io): System
    requires t < |s.threads|
  {
    s.(threads := s.threads[t := io])
  }

  /** SubmitOwned: the stop test, then Emplace; when it throws, the context and its promise are gone. */
  function SubmitStep(s: System, t: nat): System
    requires t < |s.threads| && s.threads[t].Submitting?
  {
    var Submitting(sid, slot) := s.threads[t];
    var e := Pool.Turn(s.pool, slot);
    if !e.slot.stage.Idle? then Goes(s, t, Submitting(sid, e.slot)).(pool := e.pool)
    else if e.deleted == multiset{} then Goes(s, t, Claiming(sid)).(pool := e.pool)
    else
      Goes(s, t, Finishing)
      .(pool := e.pool, resolved := s.resolved + (if slot.task.context.To? then {slot.task.context.p} else {}))
  }

  function GoStep(s: System, t: nat, outcome: ReadOutcome): System
    requires Enabled(s, Go(t, outcome))
  {
    match s.threads[t]
    case Idle => Goes(s, t, Exited)
    case Reading(sid) =>
      if outcome.ReadError? then Goes(s, t, Finishing)
      else
        var p, c := s.made, Conn(s, sid);
        Goes(s, t, if outcome.WellFormed? then Submitting(sid, Pool.Slot(Pool.Submitting, TaskFor(p)))
                   else Answering(sid, p))
        .(made := p + 1, sessions := s.sessions[sid := c.Push(p)])
    case Answering(sid, p) => Goes(s, t, Claiming(sid)).(resolved := s.resolved + {p})
    case Submitting(_, _) => SubmitStep(s, t)
    case Claiming(sid) =>
      var (c, won) := Conn(s, sid).TryToken();
      Goes(s, t, if won then Taking(sid) else Finishing).(sessions := s.sessions[sid := c])
    case Taking(sid) =>
      var (c, future) := Conn(s, sid).Next();
      Goes(s, t, if future == [] then Finishing else Getting(sid, future[0])).(sessions := s.sessions[sid := c])
    case Getting(_, _) => Goes(s, t, Finishing)
    case Finishing => Goes(s, t, Idle)
    case Exited => s
  }

  /** A worker's turn; running a task resolves its promise. */
  function WorkStep(s: System, w: nat): System
    requires Enabled(s, Work(w))
  {
    var slot := s.workers[w];
    var e := Pool.Turn(s.pool, slot);
    s.(pool := e.pool, workers := s.workers[w := e.slot],
       resolved := if slot.stage.Loaded? && slot.task.context.To? then s.resolved + {slot.task.context.p}
                   else s.resolved)
  }

  function AdvanceStep(s: System): System
    requires Enabled(s, Advance)
  {
    var s' := s.(done := s.done + 1);
    match s.plan[s.done]
    case StopIo => s'.(ioStopped := true)
    case SetStop => s'.(pool := s.pool.(stop := true))
    case ShutdownQueue => s'.(pool := s.pool.(queue := s.pool.queue.Shutdown()))
    case _ => s'
  }

  function Step(s: System, a: Action): System
    requires Enabled(s, a)
  {
    match a
    case Dispatch(t, OnRead(sid)) => Goes(s, t, Reading(sid))
    case Dispatch(t, OnWrite(sid)) => Goes(s, t, Taking(sid))
    case Dispatch(t, OtherHandler) => Goes(s, t, Finishing)
    case Go(t, outcome) => GoStep(s, t, outcome)
    case Work(w) => WorkStep(s, w)
    case Advance => AdvanceStep(s)
  }

  predicate Run(s: System, acts: seq<Action>, s': System)
    decreases |acts|
  {
    if acts == [] then s' == s else Enabled(s, acts[0]) && Run(Step(s, acts[0]), acts[1..], s')
  }

  /** Only session sid may differ. */
  ghost predicate OnlySession(s: System, s': System, sid: nat) {
    forall other :: other != sid ==> Conn(s', other) == Conn(s, other)
  }

  /**
   * What the handlers do to their session: OnRead queues a new promise behind the others and hands over its
   * task, or answers itself; the token goes to one handler at a time; its holder takes the oldest future,
   * or gives the token back if there is none, and waits until the promise is resolved.
   */
  lemma HandlersOnSession(s: System, t: nat, outcome: ReadOutcome, sid: nat)
    requires Enabled(s, Go(t, outcome))
    ensures var s' := GoStep(s, t, outcome); var io, io' := s.threads[t], s'.threads[t];
            var c, c' := Conn(s, sid), Conn(s', sid);
            && (io == Reading(sid) && !outcome.ReadError? ==>
                  && c'.pending == c.pending + [s.made] && c'.token == c.token && s'.made == s.made + 1
                  && (io' == if outcome.WellFormed? then Submitting(sid, Pool.Slot(Pool.Submitting, TaskFor(s.made)))
                             else Answering(sid, s.made)))
            && (io == Reading(sid) && outcome.ReadError? ==> io' == Finishing && s'.sessions == s.sessions)
            && (io == Claiming(sid) ==>
                  c'.token && c'.pending == c.pending && (io' == if c.token then Finishing else Taking(sid)))
            && (io == Taking(sid) && c.pending != [] ==>
                  io' == Getting(sid, c.pending[0]) && c'.pending == c.pending[1..] && c'.token == c.token)
            && (io == Taking(sid) && c.pending == [] ==> io' == Finishing && !c'.token && c'.pending == [])
            && (io == Reading(sid) || io == Claiming(sid) || io == Taking(sid) ==> OnlySession(s, s', sid))
            && (io.Answering? ==> io' == Claiming(io.s) && s'.resolved == s.resolved + {io.p})
            && (io.Getting? ==> io.p in s.resolved && io' == Finishing)
  {
    hide SubmitStep;
  }

  // ---------- every step after io_context.stop() gets closer to the end ----------

  function IoRank(io: Io): nat {
    match io
    case Exited => 0
    case Idle => 1
    case Finishing => 2
    case Getting(_, _) => 3
    case Taking(_) => 4
    case Claiming(_) => 5
    case Answering(_, _) => 6
    case Submitting(_, slot) => if slot.stage.Submitting? then 11 else 10
    case Reading(_) => 12
  }

  function WorkerRank(slot: Pool.Slot): nat {
    match slot.stage
    case Popping => 1
    case AtLoop => 2
    case Ran => 3
    case Loaded => 4
    case _ => 0
  }

  function Total<T>(xs: seq<T>, rank: T -> nat): nat {
    if xs == [] then 0 else rank(xs[0]) + Total(xs[1..], rank)
  }

  lemma {:induction false} TotalUpdate<T>(xs: seq<T>, rank: T -> nat, i: nat, x: T)
    requires i < |xs|
    ensures Total(xs[i := x], rank) == Total(xs, rank) - rank(xs[i]) + rank(x)
  {
    if i == 0 {
      assert xs[0 := x][1..] == xs[1..];
    } else {
      assert xs[i := x][1..] == xs[1..][i - 1 := x];
      TotalUpdate(xs[1..], rank, i - 1, x);
    }
  }

  /** A queued task still has to be taken, run and destroyed: it weighs as much as a worker about to run it. */
  function Measure(s: System): int {
    Total(s.threads, IoRank) + Total(s.workers, WorkerRank) + 4 * |s.pool.queue.items| + |s.plan| - s.done
  }

  predicate IoOk(io: Io) {
    io.Submitting? ==>
      (io.slot.stage.Submitting? || io.slot.stage.StopTested?) && io.slot.task.context.To? && io.slot.task.owned
  }

  predicate WorkerOk(slot: Pool.Slot) {
    slot.stage.AtLoop? || slot.stage.Popping? || slot.stage.Loaded? || slot.stage.Ran? || slot.stage.Exited?
  }

  ghost predicate StagesOk(s: System) {
    && (forall t :: 0 <= t < |s.threads| ==> IoOk(s.threads[t]))
    && (forall w :: 0 <= w < |s.workers| ==> WorkerOk(s.workers[w]))
    && s.done <= |s.plan|
  }

  /** What a step of thread t may change. */
  ghost predicate ThreadStepped(s: System, t: nat, s': System) {
    && t < |s.threads| == |s'.threads|
    && IoOk(s'.threads[t]) && s'.threads == s.threads[t := s'.threads[t]]
    && s'.workers == s.workers && s'.plan == s.plan && s'.done == s.done && s'.ioStopped == s.ioStopped
    && s'.pool.stop == s.pool.stop && s'.pool.queue.down == s.pool.queue.down
    && s'.pool.queue.maxSize == s.pool.queue.maxSize
    && s.made <= s'.made && s.resolved <= s'.resolved && s.pool.queue.items <= s'.pool.queue.items
  }

  lemma SubmitFrame(s: System, t: nat)
    requires t < |s.threads| && s.threads[t].Submitting? && IoOk(s.threads[t])
    ensures ThreadStepped(s, t, SubmitStep(s, t)) && SubmitStep(s, t).made == s.made
  {
  }

  lemma GoFrame(s: System, t: nat, outcome: ReadOutcome)
    requires Enabled(s, Go(t, outcome)) && IoOk(s.threads[t])
    ensures ThreadStepped(s, t, GoStep(s, t, outcome))
  {
    hide SubmitStep, Conn;
    if s.threads[t].Submitting? { SubmitFrame(s, t); }
  }

  lemma WorkFrame(s: System, w: nat)
    requires Enabled(s, Work(w)) && WorkerOk(s.workers[w])
    ensures var s' := WorkStep(s, w);
            && WorkerOk(s'.workers[w]) && s'.workers == s.workers[w := s'.workers[w]]
            && s'.threads == s.threads && s'.plan == s.plan && s'.done == s.done && s'.ioStopped == s.ioStopped
            && s'.made == s.made && s.resolved <= s'.resolved && s'.sessions == s.sessions
            && s'.pool.stop == s.pool.stop && s'.pool.queue.down == s.pool.queue.down
            && s'.pool.queue.maxSize == s.pool.queue.maxSize
            && (s'.workers[w].stage.Exited? ==> s.pool.stop || s.pool.queue.down)
  {
  }

  lemma StagesKept(s: System, a: Action)
    requires StagesOk(s) && Enabled(s, a)
    ensures StagesOk(Step(s, a))
  {
    hide GoStep, WorkStep, IoOk, WorkerOk, ThreadCanGo, WorkerCanGo;
    match a
    case Dispatch(t, h) => DispatchOk(s, t, h);
    case Go(t, outcome) => GoFrame(s, t, outcome);
    case Work(w) => WorkFrame(s, w);
    case Advance =>
  }

  lemma DispatchOk(s: System, t: nat, h: Handler)
    requires Enabled(s, Dispatch(t, h))
    ensures var s' := Step(s, Dispatch(t, h));
            s' == Goes(s, t, s'.threads[t]) && IoOk(s'.threads[t]) && !s'.threads[t].Exited? && !s'.threads[t].Getting?
  {
  }

  lemma SubmitDecreases(s: System, t: nat)
    requires t < |s.threads| && s.threads[t].Submitting? && IoOk(s.threads[t]) && ThreadCanGo(s, s.threads[t])
    ensures Measure(SubmitStep(s, t)) < Measure(s)
  {
    hide Total;
    TotalUpdate(s.threads, IoRank, t, SubmitStep(s, t).threads[t]);
  }

  lemma GoLowersRank(s: System, t: nat, outcome: ReadOutcome)
    requires Enabled(s, Go(t, outcome)) && IoOk(s.threads[t]) && !s.threads[t].Submitting?
    ensures GoStep(s, t, outcome).pool == s.pool && IoRank(GoStep(s, t, outcome).threads[t]) < IoRank(s.threads[t])
  {
    hide Conn, TaskFor;
  }

  lemma GoDecreases(s: System, t: nat, outcome: ReadOutcome)
    requires Enabled(s, Go(t, outcome)) && IoOk(s.threads[t])
    ensures Measure(GoStep(s, t, outcome)) < Measure(s)
  {
    hide Total, IoRank, SubmitStep, GoStep, IoOk, ThreadCanGo;
    if s.threads[t].Submitting? {
      assert GoStep(s, t, outcome) == SubmitStep(s, t) by { GoSubmits(s, t, outcome); }
      SubmitDecreases(s, t);
    } else {
      GoLowersRank(s, t, outcome);
      GoFrame(s, t, outcome);
      TotalUpdate(s.threads, IoRank, t, GoStep(s, t, outcome).threads[t]);
    }
  }

  lemma GoSubmits(s: System, t: nat, outcome: ReadOutcome)
    requires Enabled(s, Go(t, outcome)) && s.threads[t].Submitting?
    ensures GoStep(s, t, outcome) == SubmitStep(s, t)
  {
    hide SubmitStep;
  }

  lemma WorkDecreases(s: System, w: nat)
    requires Enabled(s, Work(w)) && WorkerOk(s.workers[w])
    ensures Measure(WorkStep(s, w)) < Measure(s)
  {
    hide Total;
    TotalUpdate(s.workers, WorkerRank, w, WorkStep(s, w).workers[w]);
  }

  lemma StepDecreases(s: System, a: Action)
    requires StagesOk(s) && Enabled(s, a) && s.ioStopped
    ensures Measure(Step(s, a)) < Measure(s) && Step(s, a).ioStopped
  {
    hide GoStep, WorkStep, IoOk, WorkerOk, ThreadCanGo, WorkerCanGo, Total;
    match a
    case Go(t, outcome) =>
      GoDecreases(s, t, outcome);
      GoFrame(s, t, outcome);
    case Work(w) =>
      WorkDecreases(s, w);
      WorkFrame(s, w);
    case Advance =>
  }

  // ---------- somebody can always move ----------

  predicate Carries(task: Pool.Task, p: nat) {
    task.context == Pool.To(p)
  }

  predicate ThreadHolds(io: Io, p: nat) {
    (io.Answering? && io.p == p) || (io.Submitting? && Carries(io.slot.task, p))
  }

  /** Promise p is going to be resolved: its task is queued or about to run, or its OnRead is before that. */
  ghost predicate Held(s: System, p: nat) {
    || (exists k :: 0 <= k < |s.pool.queue.items| && Carries(s.pool.queue.items[k], p))
    || (exists w :: 0 <= w < |s.workers| && s.workers[w].stage.Loaded? && Carries(s.workers[w].task, p))
    || (exists t :: 0 <= t < |s.threads| && ThreadHolds(s.threads[t], p))
  }

  ghost predicate AllHeld(s: System) {
    forall p: nat :: p < s.made && p !in s.resolved ==> Held(s, p)
  }

  lemma SubmitKeepsOwn(s: System, t: nat, p: nat)
    requires t < |s.threads| && s.threads[t].Submitting? && IoOk(s.threads[t]) && Carries(s.threads[t].slot.task, p)
    ensures var s' := SubmitStep(s, t); p in s'.resolved || Held(s', p)
  {
    var s' := SubmitStep(s, t);
    if s'.threads[t].Submitting? {
      assert ThreadHolds(s'.threads[t], p);
    } else if s'.threads[t].Claiming? {
      assert Carries(s'.pool.queue.items[|s.pool.queue.items|], p);
    }
  }

  /** What others hold, they still hold after a step of thread t. */
  lemma OthersKeepHeld(s: System, t: nat, s': System, p: nat)
    requires ThreadStepped(s, t, s') && Held(s, p) && !ThreadHolds(s.threads[t], p)
    ensures Held(s', p)
  {
    if k :| 0 <= k < |s.pool.queue.items| && Carries(s.pool.queue.items[k], p) {
      assert Carries(s'.pool.queue.items[k], p);
    } else if w :| 0 <= w < |s.workers| && s.workers[w].stage.Loaded? && Carries(s.workers[w].task, p) {
      assert Carries(s'.workers[w].task, p);
    } else {
      var u :| 0 <= u < |s.threads| && ThreadHolds(s.threads[u], p);
      assert ThreadHolds(s'.threads[u], p);
    }
  }

  lemma GoKeepsHeld(s: System, t: nat, outcome: ReadOutcome, p: nat)
    requires Enabled(s, Go(t, outcome)) && IoOk(s.threads[t]) && Held(s, p)
    ensures var s' := GoStep(s, t, outcome); p in s'.resolved || Held(s', p)
  {
    hide SubmitStep, Held, Conn;
    if !ThreadHolds(s.threads[t], p) {
      GoFrame(s, t, outcome);
      OthersKeepHeld(s, t, GoStep(s, t, outcome), p);
    } else if s.threads[t].Submitting? {
      SubmitKeepsOwn(s, t, p);
    }
  }

  lemma WorkKeepsHeld(s: System, w: nat, p: nat)
    requires Enabled(s, Work(w)) && WorkerOk(s.workers[w]) && Held(s, p)
    ensures var s' := WorkStep(s, w); p in s'.resolved || Held(s', p)
  {
    var s' := WorkStep(s, w);
    if k :| 0 <= k < |s.pool.queue.items| && Carries(s.pool.queue.items[k], p) {
      if s'.pool.queue.items == s.pool.queue.items {
        assert Carries(s'.pool.queue.items[k], p);
      } else if k > 0 {
        assert Carries(s'.pool.queue.items[k - 1], p);
      } else {
        assert Carries(s'.workers[w].task, p);
      }
    } else if v :| 0 <= v < |s.workers| && s.workers[v].stage.Loaded? && Carries(s.workers[v].task, p) {
      if v != w { assert Carries(s'.workers[v].task, p); }
    } else {
      var u :| 0 <= u < |s.threads| && ThreadHolds(s.threads[u], p);
      assert ThreadHolds(s'.threads[u], p);
    }
  }

  lemma NewPromiseHeld(s: System, t: nat, outcome: ReadOutcome)
    requires Enabled(s, Go(t, outcome)) && IoOk(s.threads[t]) && GoStep(s, t, outcome).made != s.made
    ensures GoStep(s, t, outcome).made == s.made + 1 && Held(GoStep(s, t, outcome), s.made)
  {
    assert ThreadHolds(GoStep(s, t, outcome).threads[t], s.made);
  }

  lemma AllHeldKept(s: System, a: Action)
    requires StagesOk(s) && AllHeld(s) && Enabled(s, a)
    ensures AllHeld(Step(s, a))
  {
    hide GoStep, WorkStep, IoOk, WorkerOk, ThreadCanGo, WorkerCanGo, Held, CanAdvance;
    var s' := Step(s, a);
    forall p: nat | p < s'.made && p !in s'.resolved
      ensures Held(s', p)
    {
      match a
      case Go(t, outcome) =>
        GoFrame(s, t, outcome);
        if p < s.made { GoKeepsHeld(s, t, outcome, p); } else { NewPromiseHeld(s, t, outcome); }
      case Work(w) =>
        WorkFrame(s, w);
        WorkKeepsHeld(s, w, p);
      case Dispatch(t, h) =>
        DispatchKeepsHeld(s, t, h, p);
      case Advance =>
        AdvanceKeepsHeld(s, p);
    }
  }

  lemma DispatchKeepsHeld(s: System, t: nat, h: Handler, p: nat)
    requires Enabled(s, Dispatch(t, h)) && Held(s, p)
    ensures Held(Step(s, Dispatch(t, h)), p)
  {
    var s' := Step(s, Dispatch(t, h));
    if u :| 0 <= u < |s.threads| && ThreadHolds(s.threads[u], p) {
      assert ThreadHolds(s'.threads[u], p);
    }
  }

  lemma AdvanceKeepsHeld(s: System, p: nat)
    requires CanAdvance(s) && Held(s, p)
    ensures Held(AdvanceStep(s), p)
  {
  }

  /** Futures refer to promises that were made. */
  ghost predicate FuturesOk(s: System) {
    && (forall t :: 0 <= t < |s.threads| && s.threads[t].Getting? ==> s.threads[t].p < s.made)
    && (forall sid :: sid in s.sessions ==> FuturesMade(s.sessions[sid].pending, s.made))
  }

  ghost predicate FuturesMade(pending: seq<nat>, made: nat) {
    forall k :: 0 <= k < |pending| ==> pending[k] < made
  }

  lemma SubmitKeepsFutures(s: System, t: nat)
    requires FuturesOk(s) && t < |s.threads| && s.threads[t].Submitting?
    ensures FuturesOk(SubmitStep(s, t))
  {
    hide FuturesMade;
  }

  lemma MoreMade(pending: seq<nat>, made: nat)
    requires FuturesMade(pending, made)
    ensures FuturesMade(pending + [made], made + 1)
    ensures pending != [] ==> FuturesMade(pending[1..], made) && pending[0] < made
  {
  }

  lemma SessionKeepsFutures(s: System, t: nat, io: Io, sid: nat, c: Session, made: nat)
    requires FuturesOk(s) && t < |s.threads| && (made == s.made || made == s.made + 1)
    requires FuturesMade(c.pending, made) && (io.Getting? ==> io.p < made)
    ensures FuturesOk(Goes(s, t, io).(sessions := s.sessions[sid := c], made := made))
  {
  }

  lemma GoKeepsFutures(s: System, t: nat, outcome: ReadOutcome)
    requires FuturesOk(s) && Enabled(s, Go(t, outcome))
    ensures FuturesOk(GoStep(s, t, outcome))
  {
    hide SubmitStep, FuturesOk, FuturesMade, Conn;
    var s' := GoStep(s, t, outcome);
    match s.threads[t]
    case Submitting(_, _) => SubmitKeepsFutures(s, t);
    case Reading(sid) =>
      ConnFutures(s, sid);
      if outcome.ReadError? { ThreadKeepsFutures(s, t, Finishing, s.resolved); }
      else { SessionKeepsFutures(s, t, s'.threads[t], sid, s'.sessions[sid], s.made + 1); }
    case Claiming(sid) =>
      ConnFutures(s, sid);
      SessionKeepsFutures(s, t, s'.threads[t], sid, s'.sessions[sid], s.made);
    case Taking(sid) =>
      ConnFutures(s, sid);
      SessionKeepsFutures(s, t, s'.threads[t], sid, s'.sessions[sid], s.made);
    case Exited =>
    case _ => ThreadKeepsFutures(s, t, s'.threads[t], s'.resolved);
  }

  lemma ConnFutures(s: System, sid: nat)
    requires FuturesOk(s)
    ensures var pending := Conn(s, sid).pending;
            && FuturesMade(pending, s.made) && FuturesMade(pending + [s.made], s.made + 1)
            && (pending != [] ==> FuturesMade(pending[1..], s.made) && pending[0] < s.made)
  {
    MoreMade(Conn(s, sid).pending, s.made);
  }

  lemma ThreadKeepsFutures(s: System, t: nat, io: Io, resolved: set<nat>)
    requires FuturesOk(s) && t < |s.threads| && !io.Getting?
    ensures FuturesOk(Goes(s, t, io).(resolved := resolved))
  {
    hide FuturesMade;
  }

  /** How far Stop has come, and what that means for the threads it has joined and for the pool. */
  ghost predicate PlanOk(s: System, n: nat, m: nat) {
    && s.plan == StopPlan(n, m) && |s.threads| == n && |s.workers| == m && m > 0 && s.pool.queue.maxSize > 0
    && (s.ioStopped <==> s.done >= 2)
    && (forall t :: 0 <= t < n && s.done > 2 + t ==> s.threads[t].Exited?)
    && (s.pool.stop <==> s.done > 2 + n)
    && (s.pool.queue.down <==> s.done > 3 + n)
    && (forall w :: 0 <= w < m && s.workers[w].stage.Exited? ==> s.pool.stop)
  }

  ghost predicate Inv(s: System, n: nat, m: nat) {
    StagesOk(s) && AllHeld(s) && FuturesOk(s) && PlanOk(s, n, m)
  }

  lemma PlanLength(n: nat, m: nat)
    ensures |StopPlan(n, m)| == n + m + 4
  {
  }

  lemma PlanAt(n: nat, m: nat, k: nat)
    requires k < |StopPlan(n, m)|
    ensures |StopPlan(n, m)| == n + m + 4
    ensures StopPlan(n, m)[k] ==
            if k == 0 then CloseAcceptor else if k == 1 then StopIo
            else if k < 2 + n then JoinIo(k - 2)
            else if k == 2 + n then SetStop else if k == 3 + n then ShutdownQueue
            else JoinWorker(k - 4 - n)
  {
  }

  lemma AdvanceKeepsPlan(s: System, n: nat, m: nat)
    requires PlanOk(s, n, m) && CanAdvance(s)
    ensures PlanOk(AdvanceStep(s), n, m)
  {
    hide StopPlan;
    PlanAt(n, m, s.done);
  }

  lemma GoKeepsPlan(s: System, t: nat, outcome: ReadOutcome, n: nat, m: nat)
    requires StagesOk(s) && PlanOk(s, n, m) && Enabled(s, Go(t, outcome))
    ensures PlanOk(GoStep(s, t, outcome), n, m)
  {
    hide StopPlan, GoStep, IoOk, WorkerOk;
    GoFrame(s, t, outcome);
  }

  lemma InvKept(s: System, a: Action, n: nat, m: nat)
    requires Inv(s, n, m) && Enabled(s, a)
    ensures Inv(Step(s, a), n, m)
  {
    hide StagesOk, AllHeld, StopPlan, GoStep, WorkStep, IoOk, WorkerOk;
    StagesKept(s, a);
    AllHeldKept(s, a);
    match a
    case Go(t, outcome) =>
      GoKeepsFutures(s, t, outcome);
      GoKeepsPlan(s, t, outcome, n, m);
    case Work(w) => WorkKeepsRest(s, w, n, m);
    case Dispatch(t, h) => DispatchOk(s, t, h);
    case Advance => AdvanceKeepsPlan(s, n, m);
  }

  lemma WorkKeepsRest(s: System, w: nat, n: nat, m: nat)
    requires Inv(s, n, m) && Enabled(s, Work(w))
    ensures FuturesOk(WorkStep(s, w)) && PlanOk(WorkStep(s, w), n, m)
  {
    hide AllHeld, StopPlan, WorkStep, WorkerOk, FuturesMade;
    WorkFrame(s, w);
  }

  lemma InitInv(n: nat, m: nat)
    requires m > 0
    ensures Inv(Init(n, m, StopPlan(n, m)), n, m)
  {
  }

  lemma {:induction false} RunKeepsInv(s: System, acts: seq<Action>, s': System, n: nat, m: nat)
    requires Run(s, acts, s') && Inv(s, n, m)
    ensures Inv(s', n, m)
    decreases |acts|
  {
    hide Inv, Step, Enabled;
    if acts != [] {
      InvKept(s, acts[0], n, m);
      RunKeepsInv(Step(s, acts[0]), acts[1..], s', n, m);
    }
  }

  ghost predicate SomebodyMoves(s: System) {
    exists a :: Enabled(s, a) && !a.Dispatch?
  }

  /** A queued task, and a pool that still runs: worker 0 can move. */
  lemma PoolMoves(s: System, n: nat, m: nat)
    requires PlanOk(s, n, m) && !s.pool.stop && s.pool.queue.items != []
    ensures SomebodyMoves(s)
  {
    assert Enabled(s, Work(0));
  }

  /** A thread that has not exited moves, or somebody it waits for does. */
  lemma ThreadMoves(s: System, n: nat, m: nat, t: nat)
    requires Inv(s, n, m) && s.ioStopped && !s.pool.stop && t < n && !s.threads[t].Exited?
    ensures SomebodyMoves(s)
  {
    hide StopPlan, IoOk, WorkerOk;
    if ThreadCanGo(s, s.threads[t]) {
      assert Enabled(s, Go(t, WellFormed));
    } else if s.pool.queue.items != [] {
      PoolMoves(s, n, m);
    } else {
      var p := s.threads[t].p;
      assert Held(s, p);
      if w :| 0 <= w < |s.workers| && s.workers[w].stage.Loaded? && Carries(s.workers[w].task, p) {
        assert Enabled(s, Work(w));
      } else {
        var u :| 0 <= u < |s.threads| && ThreadHolds(s.threads[u], p);
        assert Enabled(s, Go(u, WellFormed));
      }
    }
  }

  /** In every reachable state in which Stop has not returned, something other than a new handler can happen. */
  lemma Progress(s: System, n: nat, m: nat)
    requires Inv(s, n, m) && s.done < |s.plan|
    ensures SomebodyMoves(s)
  {
    hide StopPlan, StagesOk, AllHeld, FuturesOk;
    PlanAt(n, m, s.done);
    if CanAdvance(s) {
      assert Enabled(s, Advance);
    } else if s.done < 2 + n {
      ThreadMoves(s, n, m, s.done - 2);
    } else {
      assert Enabled(s, Work(s.done - 4 - n));
    }
  }

  lemma {:induction false} RunDecreases(s: System, acts: seq<Action>, s': System, n: nat, m: nat)
    requires Run(s, acts, s') && Inv(s, n, m) && s.ioStopped
    ensures |acts| + Measure(s') <= Measure(s) && s'.ioStopped && Inv(s', n, m)
    decreases |acts|
  {
    hide Inv, Step, Enabled, Measure;
    if acts != [] {
      assert StagesOk(s) by { InvStages(s, n, m); }
      StepDecreases(s, acts[0]);
      InvKept(s, acts[0], n, m);
      RunDecreases(Step(s, acts[0]), acts[1..], s', n, m);
    }
  }

  lemma InvStages(s: System, n: nat, m: nat)
    requires Inv(s, n, m)
    ensures StagesOk(s) && Measure(s) >= 0
  {
    hide AllHeld, FuturesOk, PlanOk;
  }

  ghost predicate Reachable(n: nat, m: nat, plan: seq<StopStep>, s: System) {
    exists acts :: Run(Init(n, m, plan), acts, s)
  }

  ghost predicate Stuck(s: System) {
    forall a :: !Enabled(s, a)
  }

  /**
   * Stop cannot deadlock. From any reachable state after io_context.stop(), every run is finite, its
   * length bounded by the measure, and where it cannot go on, Stop has returned, all I/O threads have
   * exited, whatever they were blocked in, and all workers have.
   */
  lemma StopTerminates(n: nat, m: nat, s: System, after: seq<Action>, s': System)
    requires m > 0 && Reachable(n, m, StopPlan(n, m), s) && s.ioStopped && Run(s, after, s')
    ensures |after| <= Measure(s)
    ensures Stuck(s') ==>
              && s'.done == |s'.plan|
              && (forall t :: 0 <= t < |s'.threads| ==> s'.threads[t].Exited?)
              && (forall w :: 0 <= w < |s'.workers| ==> s'.workers[w].stage.Exited?)
  {
    hide Run, Init, Measure, StagesOk, AllHeld, FuturesOk, StopPlan;
    InitInv(n, m);
    var before :| Run(Init(n, m, StopPlan(n, m)), before, s);
    RunKeepsInv(Init(n, m, StopPlan(n, m)), before, s, n, m);
    RunDecreases(s, after, s', n, m);
    InvStages(s', n, m);
    if Stuck(s') { AllOut(s', n, m); }
  }

  lemma AllOut(s: System, n: nat, m: nat)
    requires Inv(s, n, m) && Stuck(s)
    ensures s.done == |s.plan|
    ensures forall t :: 0 <= t < |s.threads| ==> s.threads[t].Exited?
    ensures forall w :: 0 <= w < |s.workers| ==> s.workers[w].stage.Exited?
  {
    hide AllHeld, FuturesOk, StopPlan;
    if s.done < |s.plan| { Progress(s, n, m); }
    PlanLength(n, m);
    forall w | 0 <= w < m
      ensures s.workers[w].stage.Exited?
    {
      assert !Enabled(s, Work(w));
    }
  }

  // ---------- the order matters ----------

  lemma {:induction false} RunThen(s: System, acts: seq<Action>, s': System, a: Action)
    requires Run(s, acts, s') && Enabled(s', a)
    ensures Run(s, acts + [a], Step(s', a))
    decreases |acts|
  {
    hide Step, Enabled;
    if acts == [] {
      assert Run(Step(s', a), [], Step(s', a));
      assert [a][1..] == [];
    } else {
      RunThen(Step(s, acts[0]), acts[1..], s', a);
      assert (acts + [a])[1..] == acts[1..] + [a];
    }
  }

  lemma Reaches(n: nat, m: nat, plan: seq<StopStep>, s: System, a: Action) returns (s': System)
    requires Reachable(n, m, plan, s) && Enabled(s, a)
    ensures s' == Step(s, a) && Reachable(n, m, plan, s')
  {
    hide Run, Step, Enabled, Init;
    var acts :| Run(Init(n, m, plan), acts, s);
    RunThen(Init(n, m, plan), acts, s, a);
    s' := Step(s, a);
  }

  lemma InitReachable(n: nat, m: nat, plan: seq<StopStep>)
    ensures Reachable(n, m, plan, Init(n, m, plan))
  {
    assert Run(Init(n, m, plan), [], Init(n, m, plan));
  }

  /** One request is read and submitted, and its I/O thread goes on to wait for the answer. */
  lemma WaitForAnswer(plan: seq<StopStep>) returns (s: System)
    ensures Reachable(1, 1, plan, s) && s.threads == [Getting(0, 0)] && s.resolved == {}
    ensures s == Init(1, 1, plan).(threads := s.threads, pool := s.pool, sessions := s.sessions, made := 1)
    ensures s.pool == Pool.Init(1, 0).pool.(queue := s.pool.queue)
  {
    hide Reachable;
    InitReachable(1, 1, plan);
    s := Init(1, 1, plan);
    s := Reaches(1, 1, plan, s, Dispatch(0, OnRead(0)));
    s := Reaches(1, 1, plan, s, Go(0, WellFormed));
    s := Reaches(1, 1, plan, s, Go(0, WellFormed));
    s := Reaches(1, 1, plan, s, Go(0, WellFormed));
    s := Reaches(1, 1, plan, s, Go(0, WellFormed));
    s := Reaches(1, 1, plan, s, Go(0, WellFormed));
  }

  lemma PoolStopsFirst(plan: seq<StopStep>, s: System) returns (s': System)
    requires plan == [CloseAcceptor, SetStop, ShutdownQueue, JoinWorker(0), StopIo, JoinIo(0)]
    requires Reachable(1, 1, plan, s) && s.plan == plan && s.done == 0 && !s.ioStopped
    requires |s.workers| == 1 && s.workers[0].stage.AtLoop?
    ensures Reachable(1, 1, plan, s') && s'.done == 5 && s'.plan == plan && s'.ioStopped
    ensures s'.threads == s.threads && s'.resolved == s.resolved && |s'.workers| == 1 && s'.workers[0].stage.Exited?
  {
    hide Reachable;
    s' := Reaches(1, 1, plan, s, Advance);
    s' := Reaches(1, 1, plan, s', Advance);
    s' := Reaches(1, 1, plan, s', Work(0));
    s' := Reaches(1, 1, plan, s', Advance);
    s' := Reaches(1, 1, plan, s', Advance);
    s' := Reaches(1, 1, plan, s', Advance);
  }

  /**
   * Were the pool shut down before the joins, Stop could hang: the worker leaves at its stop test, the
   * task stays in the queue, and the I/O thread waits for an answer nobody will give.
   */
  lemma PoolFirstDeadlocks() returns (s: System)
    ensures Reachable(1, 1, PoolFirstPlan(1, 1), s) && Stuck(s)
    ensures s.ioStopped && s.done < |s.plan| && s.threads == [Getting(0, 0)]
  {
    hide Reachable;
    var plan := PoolFirstPlan(1, 1);
    assert plan == [CloseAcceptor, SetStop, ShutdownQueue, JoinWorker(0), StopIo, JoinIo(0)];
    s := WaitForAnswer(plan);
    s := PoolStopsFirst(plan, s);
  }
}
