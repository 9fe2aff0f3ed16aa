/**
 * The node's requests on its worker pool: every accepted frame is a context given to SubmitOwned, and its
 * processing begins where a worker runs the task that owns it. What keeps a frame from being processed
 * twice is the pool's ownership of contexts.
 */
module NodeWorkers {
  import opened Framing
  import N = NodeTcpServer
  import Pool = ThreadPool

  /** Context p of the pool is the HandlerContext of frame p of the node. */
  datatype System = System(node: N.NodeState, pool: Pool.System)

  datatype Action =
    | Receive(i: nat, m: NetworkMessage)       // thread i calls SubmitOwned with the next frame
    | Turn(i: nat, o: N.HandlerOutcome)        // the next turn of thread i inside the pool
    | Respond(b: N.NodeAction)                 // what a running task or the server's own threads do
    | StopPool(a: Pool.Action)

  function Init(queueSize: nat, workers: nat, others: nat): System {
    System(N.Start(queueSize), Pool.Init(workers, others))
  }

  predicate Enabled(s: System, a: Action) {
    match a
    case Receive(i, _) => Pool.Enabled(s.pool, Pool.SubmitOwned(i, 0, |s.node.frames|))
    case Turn(i, o) => i < |s.pool.threads| && (o.Replies? ==> |o.body| < 0x8000_0000)
    case Respond(b) => !b.Accept? && !b.Begin? && !b.Drop? && N.Enabled(s.node, b)
    case StopPool(b) => (b.SetStop? || b.ShutdownQueue? || b.DestroyPool?) && Pool.Enabled(s.pool, b)
  }

  /** The context in a thread's hands. */
  function InHands(slot: Pool.Slot): Pool.Pointer {
    if slot.task.owned then slot.task.context else Pool.Null
  }

  /** A worker that runs a task calls ProcessMessage on its context, whatever was done with it before. */
  function TurnStep(s: System, i: nat, o: N.HandlerOutcome): System
    requires i < |s.pool.threads|
  {
    var slot := s.pool.threads[i];
    var pool := Pool.Step(s.pool, Pool.Go(i));
    var node :=
      match InHands(slot)
      case Null => s.node
      case To(p) =>
        if p !in s.node.jobs then s.node
        else if slot.stage.Loaded? then s.node.Start(p, o)
        else if pool.deleted[p] > 0 then s.node.Drop(p)
        else s.node;
    System(node, pool)
  }

  function Step(s: System, a: Action): System
    requires Enabled(s, a)
  {
    match a
    case Receive(i, m) =>
      System(s.node.Accept(m), Pool.Step(s.pool, Pool.SubmitOwned(i, 0, |s.node.frames|)))
    case Turn(i, o) => TurnStep(s, i, o)
    case Respond(b) => s.(node := N.Step(s.node, b))
    case StopPool(b) => s.(pool := Pool.Step(s.pool, b))
  }

  predicate Run(s: System, acts: seq<Action>, s': System)
    decreases |acts|
  {
    if acts == [] then s' == s else Enabled(s, acts[0]) && Run(Step(s, acts[0]), acts[1..], s')
  }

  // ---------- a context not run yet is a job not begun ----------

  /** How often context p can still be run. */
  function Unrun(pool: Pool.System, p: nat): nat {
    Pool.ThreadsHold(pool.threads, true, p) + Pool.QueueOwned(pool.pool.queue.items)[p]
  }

  predicate GivenAt(s: System, p: nat) {
    s.pool.given[p] == if p < |s.node.frames| then 1 else 0
  }

  predicate FreshAt(s: System, p: nat) {
    Unrun(s.pool, p) > 0 ==> p in s.node.jobs && s.node.jobs[p].stage.Queued?
  }

  ghost predicate Inv(s: System) {
    && Pool.Linear(s.pool)
    && (forall p: nat :: GivenAt(s, p))
    && (forall p: nat :: FreshAt(s, p))
  }

  lemma {:induction false} UnrunIsHeld(threads: seq<Pool.Slot>, p: nat)
    ensures Pool.ThreadsHold(threads, true, p) <= Pool.ThreadsHold(threads, false, p)
  {
    if threads != [] { UnrunIsHeld(threads[1..], p); }
  }

  /** A context is run at most once, and not after it was deleted. */
  lemma UnrunOnce(pool: Pool.System, p: nat)
    requires Pool.LinearAt(pool, p)
    ensures Unrun(pool, p) + pool.ran[p] <= 1 && Unrun(pool, p) + pool.deleted[p] <= 1
  {
    UnrunIsHeld(pool.threads, p);
  }

  lemma TurnUnrun(pool: Pool.System, i: nat, p: nat)
    requires i < |pool.threads| && Pool.HandsMatch(pool.threads[i])
    ensures var pool' := Pool.Step(pool, Pool.Go(i));
            && Unrun(pool', p) + pool'.ran[p] <= Unrun(pool, p) + pool.ran[p]
            && pool'.given == pool.given
  {
    hide Pool.Turn, Pool.QueueOwned, Pool.Holds, Pool.ThreadsHold, Pool.HandsMatch;
    var e := Pool.Turn(pool.pool, pool.threads[i]);
    Pool.TurnConserves(pool.pool, pool.threads[i], p);
    Pool.ThreadsHoldUpdate(pool.threads, i, e.slot, true, p);
  }

  /** The context a worker is about to run has not been run, and now it has. */
  lemma RunsItsContext(pool: Pool.System, i: nat, p: nat)
    requires i < |pool.threads| && pool.threads[i].stage.Loaded? && InHands(pool.threads[i]) == Pool.To(p)
    requires Pool.LinearAt(pool, p)
    ensures Unrun(pool, p) > 0 && Pool.Step(pool, Pool.Go(i)).ran[p] > 0
  {
    Pool.ThreadsHoldAtLeast(pool.threads, i, true, p);
  }

  lemma TurnFrame(s: System, i: nat, o: N.HandlerOutcome, p: nat)
    requires i < |s.pool.threads|
    ensures var s' := TurnStep(s, i, o);
            && s'.node.frames == s.node.frames
            && (InHands(s.pool.threads[i]) != Pool.To(p) ==>
                  (p in s'.node.jobs <==> p in s.node.jobs)
                  && (p in s.node.jobs ==> s'.node.jobs[p] == s.node.jobs[p]))
  {
    hide Pool.Turn, N.Process;
  }

  lemma TurnKeepsFresh(s: System, i: nat, o: N.HandlerOutcome, p: nat)
    requires Inv(s) && i < |s.pool.threads|
    ensures GivenAt(TurnStep(s, i, o), p) && FreshAt(TurnStep(s, i, o), p)
  {
    hide Pool.Turn, Unrun, Pool.LinearAt, N.Process, Pool.HandsMatch;
    var s' := TurnStep(s, i, o);
    assert GivenAt(s, p) && FreshAt(s, p) && Pool.LinearAt(s.pool, p);
    Pool.StepKeepsLinearAt(s.pool, Pool.Go(i), p);
    TurnUnrun(s.pool, i, p);
    TurnFrame(s, i, o, p);
    UnrunOnce(s'.pool, p);
    if InHands(s.pool.threads[i]) == Pool.To(p) && s.pool.threads[i].stage.Loaded? {
      RunsItsContext(s.pool, i, p);
    }
  }

  lemma ReceiveKeeps(s: System, i: nat, m: NetworkMessage, p: nat)
    requires Inv(s) && Enabled(s, Receive(i, m))
    ensures GivenAt(Step(s, Receive(i, m)), p) && FreshAt(Step(s, Receive(i, m)), p)
  {
    hide Pool.ThreadsHold, Pool.QueueOwned, Pool.LinearAt;
    var n := |s.node.frames|;
    var slot := Pool.Slot(Pool.Submitting, Pool.Task(0, Pool.To(n), true));
    assert GivenAt(s, p) && FreshAt(s, p) && GivenAt(s, n);
    Pool.ThreadsHoldUpdate(s.pool.threads, i, slot, true, p);
  }

  lemma RespondKeeps(s: System, b: N.NodeAction, p: nat)
    requires Inv(s) && Enabled(s, Respond(b))
    ensures GivenAt(Step(s, Respond(b)), p) && FreshAt(Step(s, Respond(b)), p)
  {
    hide Unrun, Pool.Linear, N.ErrorResponse;
    assert GivenAt(s, p) && FreshAt(s, p);
  }

  lemma StopKeeps(s: System, b: Pool.Action, p: nat)
    requires Inv(s) && Enabled(s, StopPool(b))
    ensures GivenAt(Step(s, StopPool(b)), p) && FreshAt(Step(s, StopPool(b)), p)
  {
    hide Pool.ThreadsHold, Pool.Linear;
    assert GivenAt(s, p) && FreshAt(s, p);
  }

  lemma PoolStaysLinear(s: System, a: Action)
    requires Inv(s) && Enabled(s, a)
    ensures Pool.Linear(Step(s, a).pool)
  {
    hide Pool.Linear, Pool.Step, N.Step;
    match a
    case Receive(i, _) => Pool.StepKeepsLinear(s.pool, Pool.SubmitOwned(i, 0, |s.node.frames|));
    case Turn(i, _) => Pool.StepKeepsLinear(s.pool, Pool.Go(i));
    case Respond(_) =>
    case StopPool(b) => Pool.StepKeepsLinear(s.pool, b);
  }

  lemma StepKeepsInv(s: System, a: Action)
    requires Inv(s) && Enabled(s, a)
    ensures Inv(Step(s, a))
  {
    hide Pool.Linear, Step, Enabled, GivenAt, FreshAt;
    PoolStaysLinear(s, a);
    forall p: nat
      ensures GivenAt(Step(s, a), p) && FreshAt(Step(s, a), p)
    {
      OneStep(s, a, p);
    }
  }

  lemma OneStep(s: System, a: Action, p: nat)
    requires Inv(s) && Enabled(s, a)
    ensures GivenAt(Step(s, a), p) && FreshAt(Step(s, a), p)
  {
    hide Inv, GivenAt, FreshAt, TurnStep, Pool.Step, N.Step, Pool.Enabled, N.Enabled;
    match a
    case Receive(i, m) => ReceiveKeeps(s, i, m, p);
    case Turn(i, o) => TurnKeepsFresh(s, i, o, p);
    case Respond(b) => RespondKeeps(s, b, p);
    case StopPool(b) => StopKeeps(s, b, p);
  }

  lemma InitInv(queueSize: nat, workers: nat, others: nat)
    ensures Inv(Init(queueSize, workers, others))
  {
    hide Pool.Linear, Pool.LinearAt;
    var s := Init(queueSize, workers, others);
    Pool.InitLinear(workers, others);
    forall p: nat
      ensures GivenAt(s, p) && FreshAt(s, p)
    {
      Pool.ThreadsHoldNothing(s.pool.threads, true, p);
    }
  }

  // ---------- the node only sees steps it allows ----------

  /** Where a worker begins a job, the job has not begun. */
  lemma WorkerFindsFreshJob(s: System, i: nat, p: nat)
    requires Inv(s) && i < |s.pool.threads|
    requires s.pool.threads[i].stage.Loaded? && InHands(s.pool.threads[i]) == Pool.To(p)
    ensures p in s.node.jobs && s.node.jobs[p].stage.Queued?
  {
    hide Unrun, Pool.LinearAt;
    assert FreshAt(s, p) && Pool.LinearAt(s.pool, p);
    RunsItsContext(s.pool, i, p);
  }

  /** What a step of the whole does to the node is nothing, or one step the node allows. */
  lemma StepSimulated(s: System, a: Action) returns (nodeActs: seq<N.NodeAction>)
    requires Inv(s) && Enabled(s, a)
    ensures N.Run(s.node, nodeActs, Step(s, a).node)
  {
    hide Inv, Pool.Step, N.Process, N.ErrorResponse;
    nodeActs := [];
    match a
    case Receive(_, m) => nodeActs := [N.Accept(m)];
    case Respond(b) => nodeActs := [b];
    case StopPool(_) =>
    case Turn(i, o) =>
      var slot := s.pool.threads[i];
      if InHands(slot).To? && InHands(slot).p in s.node.jobs {
        var p := InHands(slot).p;
        if slot.stage.Loaded? {
          WorkerFindsFreshJob(s, i, p);
          nodeActs := [N.Begin(p, o)];
        } else if Step(s, a).pool.deleted[p] > 0 {
          nodeActs := [N.Drop(p)];
        }
      }
  }

  lemma {:induction false} RunAppend(s: N.NodeState, a: seq<N.NodeAction>, s1: N.NodeState,
                                     b: seq<N.NodeAction>, s2: N.NodeState)
    requires N.Run(s, a, s1) && N.Run(s1, b, s2)
    ensures N.Run(s, a + b, s2)
    decreases |a|
  {
    hide N.Step, N.Enabled;
    if a == [] {
      assert a + b == b;
    } else {
      assert (a + b)[1..] == a[1..] + b;
      RunAppend(N.Step(s, a[0]), a[1..], s1, b, s2);
    }
  }

  lemma {:induction false} RunSimulated(s: System, acts: seq<Action>, s': System) returns (nodeActs: seq<N.NodeAction>)
    requires Run(s, acts, s') && Inv(s)
    ensures Inv(s') && N.Run(s.node, nodeActs, s'.node)
    decreases |acts|
  {
    hide Inv, Step, Enabled, N.Step, N.Enabled;
    if acts == [] {
      nodeActs := [];
    } else {
      var s1 := Step(s, acts[0]);
      var first := StepSimulated(s, acts[0]);
      StepKeepsInv(s, acts[0]);
      var rest := RunSimulated(s1, acts[1..], s');
      RunAppend(s.node, first, s1.node, rest, s'.node);
      nodeActs := first + rest;
    }
  }

  /**
   * Over every run of receive loop, workers, responses, shutdown and destruction: for every frame given to
   * the pool the handler is called at most once and at most one response enters the send queue, because a
   * worker only ever runs a context whose job has not begun.
   */
  lemma PoolRunsHandlerAtMostOnce(queueSize: nat, workers: nat, others: nat, acts: seq<Action>, s: System)
    requires Run(Init(queueSize, workers, others), acts, s)
    ensures forall n: nat :: s.node.handled[n] <= 1 && N.Answers(s.node.enqueued, n) <= 1
    ensures forall i, p :: 0 <= i < |s.pool.threads| && s.pool.threads[i].stage.Loaded?
                           && InHands(s.pool.threads[i]) == Pool.To(p) ==>
              p in s.node.jobs && s.node.jobs[p].stage.Queued? && s.node.handled[p] == 0
  {
    hide Run, Inv, N.Run, N.NodeInv, Pool.Init, N.Start;
    InitInv(queueSize, workers, others);
    var nodeActs := RunSimulated(Init(queueSize, workers, others), acts, s);
    N.NodeAtMostOnce(queueSize, nodeActs, s.node);
    N.StartInv(queueSize);
    N.RunKeepsInv(N.Start(queueSize), nodeActs, s.node);
    forall i, p | 0 <= i < |s.pool.threads| && s.pool.threads[i].stage.Loaded?
                  && InHands(s.pool.threads[i]) == Pool.To(p)
      ensures p in s.node.jobs && s.node.jobs[p].stage.Queued? && s.node.handled[p] == 0
    {
      WorkerFindsFreshJob(s, i, p);
      N.QueuedNotHandled(s.node, p);
    }
  }
}
