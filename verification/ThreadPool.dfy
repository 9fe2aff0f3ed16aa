/**
 * The worker pool and the ownership of the raw context pointers passing through it
 * (src/common/utils/threading/ThreadPool.hpp).
 */
module ThreadPool {
  import opened ThreadSafeQueue

  type Ptr = nat
  datatype Pointer = Null | To(p: Ptr)

  // ---------- Task: a pointer that may own what it points to ----------

  datatype Task = Task(func: nat, context: Pointer, owned: bool) {
    /** What the destructor deletes. */
    function Owned(): multiset<Ptr> {
      if owned && context.To? then multiset{context.p} else multiset{}
    }

    /** What is left of a task that was moved from. */
    function MovedFrom(): Task {
      this.(context := Null, owned := false)
    }
  }

  const EmptyTask := Task(0, Null, false)

  class TaskObject {
    var func: nat
    var context: Pointer
    var owned: bool

    ghost function Value(): Task
      reads this
    {
      Task(func, context, owned)
    }

    constructor (func: nat, context: Pointer, owned: bool)
      ensures Value() == Task(func, context, owned)
    {
      this.func, this.context, this.owned := func, context, owned;
    }

    constructor MoveConstruct(other: TaskObject)
      modifies other
      ensures Value() == old(other.Value()) && other.Value() == old(other.Value()).MovedFrom()
    {
      func, context, owned := other.func, other.context, other.owned;
      new;
      other.context := Null;
      other.owned := false;
    }

    /** Move assignment: first deletes what this task owned; assigning a task to itself does nothing. */
    method MoveAssign(other: TaskObject) returns (deleted: multiset<Ptr>)
      modifies this, other
      ensures this != other ==>
                && deleted == old(Value()).Owned()
                && Value() == old(other.Value()) && other.Value() == old(other.Value()).MovedFrom()
      ensures this == other ==> deleted == multiset{} && Value() == old(Value())
    {
      deleted := multiset{};
      if this != other {
        if owned && context.To? {
          deleted := multiset{context.p};
        }
        func := other.func;
        context := other.context;
        owned := other.owned;
        other.context := Null;
        other.owned := false;
      }
    }

    /** The destructor; a second run deletes nothing. */
    method Destroy() returns (deleted: multiset<Ptr>)
      modifies this
      ensures deleted == old(Value()).Owned() && Value().Owned() == multiset{}
    {
      deleted := multiset{};
      if owned && context.To? {
        deleted := multiset{context.p};
        context := Null;
      }
    }
  }

  // ---------- one turn of a submitting or working thread ----------

  /** Where a thread is: inside SubmitOwned/SubmitBorrowed, or inside WorkerLoop. */
  datatype Stage =
    | Idle          // not calling the pool
    | Submitting    // holds the raw pointer, before the stop test
    | StopTested    // before or inside Emplace
    | AtLoop        // worker before the stop test
    | Popping       // worker before or inside Pop, with an empty task
    | Loaded        // worker with a task not run yet
    | Ran           // worker whose task has run, before its destructor
    | Exited

  /** A thread with its task (or, while submitting, the raw pointer) in its hands. */
  datatype Slot = Slot(stage: Stage, task: Task)

  datatype PoolState = PoolState(queue: Fifo<Task>, stop: bool)

  /** The result of a turn: pool, thread, contexts deleted and contexts run by it. */
  datatype Effect = Effect(pool: PoolState, slot: Slot, deleted: multiset<Ptr>, ran: multiset<Ptr>)

  function Quiet(pool: PoolState, slot: Slot): Effect {
    Effect(pool, slot, multiset{}, multiset{})
  }

  function Turn(pool: PoolState, s: Slot): Effect {
    match s.stage
    case Idle => Quiet(pool, s)
    case Submitting =>
      if pool.stop then Effect(pool, Slot(Idle, EmptyTask), s.task.Owned(), multiset{})
      else Quiet(pool, s.(stage := StopTested))
    case StopTested =>
      var (q, v) := pool.queue.Push(s.task);
      if v.Blocked? then Quiet(pool, s)
      else if v.result == SUCCESS then Quiet(pool.(queue := q), Slot(Idle, EmptyTask))
      else Effect(pool, Slot(Idle, EmptyTask), s.task.Owned(), multiset{})
    case AtLoop => Quiet(pool, s.(stage := if pool.stop then Exited else Popping))
    case Popping =>
      var (q, v) := pool.queue.Pop();
      if v.Blocked? then Quiet(pool, s)
      else if v.result == SUCCESS then
        // item = std::move(front); pop() destroys the moved-from front
        Effect(pool.(queue := q), Slot(Loaded, v.got[0]),
               s.task.Owned() + v.got[0].MovedFrom().Owned(), multiset{})
      else Effect(pool, Slot(Exited, EmptyTask), s.task.Owned(), multiset{})
    case Loaded => Effect(pool, s.(stage := Ran), multiset{}, s.task.Owned())
    case Ran => Effect(pool, Slot(AtLoop, EmptyTask), s.task.Owned(), multiset{})
    case Exited => Quiet(pool, s)
  }

  class ThreadPool {
    const taskQueue: ThreadSafeQueue<Task>
    var stop: bool
    var activeTasks: nat
    var workers: nat  // not joined yet

    ghost function Value(): PoolState
      reads this, taskQueue
    {
      PoolState(taskQueue.Value(), stop)
    }

    constructor (numThreads: nat)
      requires numThreads > 0
      ensures Value() == PoolState(Fifo([], numThreads * 100, false), false) && activeTasks == 0
      ensures workers == numThreads && fresh(taskQueue)
    {
      taskQueue := new ThreadSafeQueue(numThreads * 100);
      stop, activeTasks, workers := false, 0, numThreads;
    }

    /** SubmitOwned and SubmitBorrowed after release(): the stop test, then the Emplace pass. */
    method Submit(s: Slot) returns (s': Slot, deleted: multiset<Ptr>)
      requires s.stage.Submitting? || s.stage.StopTested?
      modifies taskQueue
      ensures Effect(Value(), s', deleted, multiset{}) == Turn(old(Value()), s)
    {
      deleted := multiset{};
      if s.stage.Submitting? {
        if stop {
          return Slot(Idle, EmptyTask), s.task.Owned();
        }
        return s.(stage := StopTested), deleted;
      }
      var verdict := taskQueue.Push(s.task);
      if verdict.Blocked? {
        return s, deleted;
      }
      if verdict.result != SUCCESS {
        deleted := s.task.Owned();
      }
      s' := Slot(Idle, EmptyTask);
    }

    /** One turn of WorkerLoop; a popped task is handed over by move assignment. */
    method Work(s: Slot) returns (s': Slot, deleted: multiset<Ptr>, ran: multiset<Ptr>)
      requires s.stage.AtLoop? || s.stage.Popping? || s.stage.Loaded? || s.stage.Ran?
      requires s.stage.Ran? ==> activeTasks > 0
      modifies this`activeTasks, taskQueue
      ensures Effect(Value(), s', deleted, ran) == Turn(old(Value()), s)
      ensures activeTasks == old(activeTasks) + (if s.stage.Loaded? then 1 else 0) - (if s.stage.Ran? then 1 else 0)
    {
      s', deleted, ran := s, multiset{}, multiset{};
      match s.stage
      case AtLoop =>
        s' := s.(stage := if stop then Exited else Popping);
      case Popping =>
        var verdict := taskQueue.Pop();
        if verdict.Returned? {
          var task := new TaskObject(s.task.func, s.task.context, s.task.owned);
          if verdict.result != SUCCESS {
            deleted := task.Destroy();
            s' := Slot(Exited, EmptyTask);
          } else {
            var front := new TaskObject(verdict.got[0].func, verdict.got[0].context, verdict.got[0].owned);
            deleted := task.MoveAssign(front);
            var leftover := front.Destroy();
            deleted := deleted + leftover;
            s' := Slot(Loaded, Task(task.func, task.context, task.owned));
          }
        }
      case Loaded =>
        activeTasks := activeTasks + 1;
        ran := s.task.Owned();
        s' := s.(stage := Ran);
      case Ran =>
        activeTasks := activeTasks - 1;
        deleted := s.task.Owned();
        s' := Slot(AtLoop, EmptyTask);
      case _ =>
    }

    /** stop.exchange(true), the queue's own shutdown, and a join of every worker; a second call returns at once. */
    method Shutdown()
      modifies this`stop, this`workers, taskQueue
      ensures Value() ==
              if old(stop) then old(Value()) else PoolState(old(taskQueue.Value()).Shutdown(), true)
      ensures workers == if old(stop) then old(workers) else 0
    {
      if stop {
        return;
      }
      stop := true;
      taskQueue.Shutdown();
      while workers > 0
        invariant Value() == PoolState(old(taskQueue.Value()).Shutdown(), true)
      {
        workers := workers - 1;
      }
    }
  }

  // ---------- the pool with all its threads ----------

  /** Bookkeeping: contexts ever given to SubmitOwned, deleted, and run as owned tasks. */
  datatype System = System(
    pool: PoolState,
    threads: seq<Slot>,
    given: multiset<Ptr>,
    deleted: multiset<Ptr>,
    ran: multiset<Ptr>)

  datatype Action =
    | SubmitOwned(i: nat, func: nat, p: Ptr)
    | SubmitBorrowed(i: nat, func: nat, context: Pointer)
    | Go(i: nat)
    | SetStop
    | ShutdownQueue
    | DestroyPool

  /** numThreads workers at the head of their loop, and any number of client threads. */
  function Init(numThreads: nat, clients: nat): System {
    System(
      PoolState(Fifo([], numThreads * 100, false), false),
      seq(numThreads, _ => Slot(AtLoop, EmptyTask)) + seq(clients, _ => Slot(Idle, EmptyTask)),
      multiset{}, multiset{}, multiset{})
  }

  /** Every thread is outside the pool: the condition under which its destructor may run. */
  predicate AllOut(threads: seq<Slot>) {
    forall i :: 0 <= i < |threads| ==> threads[i].stage.Idle? || threads[i].stage.Exited?
  }

  predicate Enabled(s: System, a: Action) {
    match a
    // unique_ptr: nobody else has been given this context
    case SubmitOwned(i, _, p) => i < |s.threads| && s.threads[i].stage.Idle? && p !in s.given
    case SubmitBorrowed(i, _, _) => i < |s.threads| && s.threads[i].stage.Idle?
    case Go(i) => i < |s.threads|
    case SetStop => true
    case ShutdownQueue => s.pool.stop
    case DestroyPool => s.pool.stop && s.pool.queue.down && AllOut(s.threads)
  }

  function Step(s: System, a: Action): System
    requires Enabled(s, a)
  {
    match a
    case SubmitOwned(i, func, p) =>
      s.(threads := s.threads[i := Slot(Submitting, Task(func, To(p), true))], given := s.given + multiset{p})
    case SubmitBorrowed(i, func, context) =>
      s.(threads := s.threads[i := Slot(Submitting, Task(func, context, false))])
    case Go(i) =>
      var e := Turn(s.pool, s.threads[i]);
      s.(pool := e.pool, threads := s.threads[i := e.slot], deleted := s.deleted + e.deleted, ran := s.ran + e.ran)
    case SetStop => s.(pool := s.pool.(stop := true))
    case ShutdownQueue => s.(pool := s.pool.(queue := s.pool.queue.Shutdown()))
    case DestroyPool =>
      s.(pool := s.pool.(queue := s.pool.queue.Clear()), deleted := s.deleted + QueueOwned(s.pool.queue.items))
  }

  predicate Run(s: System, acts: seq<Action>, s': System)
    decreases |acts|
  {
    if acts == [] then s' == s else Enabled(s, acts[0]) && Run(Step(s, acts[0]), acts[1..], s')
  }

  // ---------- conservation of owned contexts ----------

  /** What destroying the queue deletes. */
  function QueueOwned(items: seq<Task>): multiset<Ptr> {
    if items == [] then multiset{} else items[0].Owned() + QueueOwned(items[1..])
  }

  /** How often context p is owned by a thread's task; with unrunOnly, by a task that can still be run. */
  function Holds(s: Slot, unrunOnly: bool, p: Ptr): nat {
    if unrunOnly && s.stage.Ran? then 0 else s.task.Owned()[p]
  }

  function ThreadsHold(threads: seq<Slot>, unrunOnly: bool, p: Ptr): nat {
    if threads == [] then 0
    else Holds(threads[0], unrunOnly, p) + ThreadsHold(threads[1..], unrunOnly, p)
  }

  lemma {:induction false} QueueOwnedSnoc(items: seq<Task>, t: Task, p: Ptr)
    ensures QueueOwned(items + [t])[p] == QueueOwned(items)[p] + t.Owned()[p]
  {
    if items == [] {
      assert items + [t] == [t];
    } else {
      assert (items + [t])[1..] == items[1..] + [t];
      QueueOwnedSnoc(items[1..], t, p);
    }
  }

  lemma {:induction false} ThreadsHoldUpdate(threads: seq<Slot>, i: nat, x: Slot, unrunOnly: bool, p: Ptr)
    requires i < |threads|
    ensures ThreadsHold(threads[i := x], unrunOnly, p) ==
            ThreadsHold(threads, unrunOnly, p) - Holds(threads[i], unrunOnly, p) + Holds(x, unrunOnly, p)
  {
    hide Holds;
    if i > 0 {
      ThreadsHoldUpdate(threads[1..], i - 1, x, unrunOnly, p);
      assert threads[i := x][1..] == threads[1..][i - 1 := x];
    } else {
      assert threads[i := x][1..] == threads[1..];
    }
  }

  lemma {:induction false} ThreadsHoldAtLeast(threads: seq<Slot>, i: nat, unrunOnly: bool, p: Ptr)
    requires i < |threads|
    ensures ThreadsHold(threads, unrunOnly, p) >= Holds(threads[i], unrunOnly, p)
  {
    if i > 0 { ThreadsHoldAtLeast(threads[1..], i - 1, unrunOnly, p); }
  }

  lemma {:induction false} ThreadsHoldNothing(threads: seq<Slot>, unrunOnly: bool, p: Ptr)
    requires forall i :: 0 <= i < |threads| ==> threads[i].task.Owned() == multiset{}
    ensures ThreadsHold(threads, unrunOnly, p) == 0
  {
    if threads != [] { ThreadsHoldNothing(threads[1..], unrunOnly, p); }
  }

  /** Stages in which a thread holds no task. */
  predicate EmptyHanded(stage: Stage) {
    stage.Idle? || stage.AtLoop? || stage.Popping? || stage.Exited?
  }

  predicate HandsMatch(s: Slot) {
    EmptyHanded(s.stage) ==> s.task.Owned() == multiset{}
  }

  /** Thread and queue before and after a turn, seen from context p. */
  ghost predicate Conserved(pool: PoolState, s: Slot, e: Effect, p: Ptr) {
    var before, after := QueueOwned(pool.queue.items)[p], QueueOwned(e.pool.queue.items)[p];
    && HandsMatch(e.slot)
    && Holds(e.slot, false, p) + after + e.deleted[p] == Holds(s, false, p) + before
    && Holds(e.slot, true, p) + after + e.ran[p] <= Holds(s, true, p) + before
  }

  lemma EmplaceConserves(pool: PoolState, s: Slot, p: Ptr)
    requires s.stage.StopTested?
    ensures Conserved(pool, s, Turn(pool, s), p)
  {
    hide QueueOwned, Task.Owned;
    EmptyOwnsNothing();
    QueueOwnedSnoc(pool.queue.items, s.task, p);
  }

  lemma QueueOwnedFirst(items: seq<Task>, p: Ptr)
    requires items != []
    ensures QueueOwned(items)[p] == items[0].Owned()[p] + QueueOwned(items[1..])[p]
  {
  }

  lemma PopTurn(pool: PoolState, s: Slot)
    requires s.stage.Popping? && HandsMatch(s)
    ensures Turn(pool, s) ==
            if pool.queue.items != []
            then Effect(pool.(queue := pool.queue.(items := pool.queue.items[1..])), Slot(Loaded, pool.queue.items[0]),
                        multiset{}, multiset{})
            else if pool.queue.down then Quiet(pool, Slot(Exited, EmptyTask))
            else Quiet(pool, s)
  {
    if pool.queue.items != [] {
      assert pool.queue.items[0].MovedFrom().Owned() == multiset{};
    }
  }

  lemma PopConserves(pool: PoolState, s: Slot, p: Ptr)
    requires s.stage.Popping? && HandsMatch(s)
    ensures Conserved(pool, s, Turn(pool, s), p)
  {
    hide QueueOwned, Turn, Task.Owned;
    PopTurn(pool, s);
    EmptyOwnsNothing();
    if pool.queue.items != [] { QueueOwnedFirst(pool.queue.items, p); }
  }

  lemma OtherTurnsConserve(pool: PoolState, s: Slot, p: Ptr)
    requires !s.stage.Popping? && !s.stage.StopTested? && HandsMatch(s)
    ensures Conserved(pool, s, Turn(pool, s), p)
  {
    hide QueueOwned, Task.Owned;
    EmptyOwnsNothing();
  }

  lemma EmptyOwnsNothing()
    ensures EmptyTask.Owned() == multiset{}
  {
  }

  /** A turn neither loses nor duplicates a context: what thread and queue held is held or deleted after it. */
  lemma TurnConserves(pool: PoolState, s: Slot, p: Ptr)
    requires HandsMatch(s)
    ensures Conserved(pool, s, Turn(pool, s), p)
  {
    hide Turn, Conserved;
    if s.stage.StopTested? {
      EmplaceConserves(pool, s, p);
    } else if s.stage.Popping? {
      PopConserves(pool, s, p);
    } else {
      OtherTurnsConserve(pool, s, p);
    }
  }

  /** Context p is in exactly as many places (threads, queue, deleted) as it was given, and never run twice. */
  predicate LinearAt(s: System, p: Ptr) {
    var queued := QueueOwned(s.pool.queue.items)[p];
    && ThreadsHold(s.threads, false, p) + queued + s.deleted[p] == s.given[p]
    && ThreadsHold(s.threads, true, p) + queued + s.ran[p] <= s.given[p]
    && s.given[p] <= 1
  }

  ghost predicate Linear(s: System) {
    && (forall i :: 0 <= i < |s.threads| ==> HandsMatch(s.threads[i]))
    && (forall p :: LinearAt(s, p))
  }

  lemma GoKeepsLinear(s: System, i: nat, p: Ptr)
    requires i < |s.threads| && HandsMatch(s.threads[i]) && LinearAt(s, p)
    ensures LinearAt(Step(s, Go(i)), p) && HandsMatch(Turn(s.pool, s.threads[i]).slot)
  {
    hide Turn, QueueOwned, Holds, ThreadsHold, HandsMatch;
    var e := Turn(s.pool, s.threads[i]);
    TurnConserves(s.pool, s.threads[i], p);
    ThreadsHoldUpdate(s.threads, i, e.slot, false, p);
    ThreadsHoldUpdate(s.threads, i, e.slot, true, p);
  }

  lemma StepKeepsLinearAt(s: System, a: Action, p: Ptr)
    requires Enabled(s, a) && LinearAt(s, p) && (forall i :: 0 <= i < |s.threads| ==> HandsMatch(s.threads[i]))
    ensures LinearAt(Step(s, a), p)
  {
    hide ThreadsHold, QueueOwned, Turn, Task.Owned, HandsMatch;
    match a
    case Go(i) => GoKeepsLinear(s, i, p);
    case SubmitOwned(i, func, q) =>
      OwnedTask(func, q);
      SubmitKeepsLinear(s, i, Task(func, To(q), true), p);
    case SubmitBorrowed(i, func, c) =>
      BorrowedTask(func, c);
      assert s.given + multiset{} == s.given;
      SubmitKeepsLinear(s, i, Task(func, c, false), p);
    case _ => OtherStepsKeepLinear(s, a, p);
  }

  lemma OwnedTask(func: nat, q: Ptr)
    ensures Task(func, To(q), true).Owned() == multiset{q}
  {
  }

  lemma BorrowedTask(func: nat, c: Pointer)
    ensures Task(func, c, false).Owned() == multiset{}
  {
  }

  lemma StepKeepsLinear(s: System, a: Action)
    requires Enabled(s, a) && Linear(s)
    ensures Linear(Step(s, a))
  {
    hide LinearAt, Turn, QueueOwned;
    forall p
      ensures LinearAt(Step(s, a), p)
    {
      StepKeepsLinearAt(s, a, p);
    }
    if a.Go? { GoKeepsLinear(s, a.i, 0); }
  }

  lemma OtherStepsKeepLinear(s: System, a: Action, p: Ptr)
    requires Enabled(s, a) && LinearAt(s, p)
    requires a.SetStop? || a.ShutdownQueue? || a.DestroyPool?
    ensures LinearAt(Step(s, a), p)
  {
    hide ThreadsHold;
  }

  lemma SubmitKeepsLinear(s: System, i: nat, t: Task, p: Ptr)
    requires i < |s.threads| && s.threads[i].stage.Idle? && HandsMatch(s.threads[i]) && LinearAt(s, p)
    requires t.Owned()[p] + s.given[p] <= 1
    ensures LinearAt(s.(threads := s.threads[i := Slot(Submitting, t)], given := s.given + t.Owned()), p)
  {
    ThreadsHoldUpdate(s.threads, i, Slot(Submitting, t), false, p);
    ThreadsHoldUpdate(s.threads, i, Slot(Submitting, t), true, p);
  }

  lemma {:induction false} RunKeepsLinear(s: System, acts: seq<Action>, s': System)
    requires Run(s, acts, s') && Linear(s)
    ensures Linear(s')
    decreases |acts|
  {
    hide Linear, Step, Enabled;
    if acts != [] {
      StepKeepsLinear(s, acts[0]);
      RunKeepsLinear(Step(s, acts[0]), acts[1..], s');
    }
  }

  lemma InitLinear(numThreads: nat, clients: nat)
    ensures Linear(Init(numThreads, clients))
  {
    var s := Init(numThreads, clients);
    forall p
      ensures LinearAt(s, p)
    {
      ThreadsHoldNothing(s.threads, false, p);
      ThreadsHoldNothing(s.threads, true, p);
    }
  }

  /**
   * Over every run of submitters, workers, shutdown and destruction: a context given to SubmitOwned is
   * deleted at most once and run at most once; a task about to run is not deleted yet; nothing else,
   * in particular no borrowed context, is ever deleted.
   */
  lemma OwnedContextsLinear(numThreads: nat, clients: nat, acts: seq<Action>, s: System, p: Ptr)
    requires Run(Init(numThreads, clients), acts, s)
    ensures s.given[p] <= 1 && s.deleted[p] <= s.given[p] && s.ran[p] <= s.given[p]
    ensures forall i :: 0 <= i < |s.threads| && s.threads[i].stage.Loaded? && s.threads[i].task.Owned()[p] > 0
              ==> s.deleted[p] == 0 && s.ran[p] == 0
  {
    InitLinear(numThreads, clients);
    RunKeepsLinear(Init(numThreads, clients), acts, s);
    assert LinearAt(s, p);
    forall i | 0 <= i < |s.threads| && s.threads[i].stage.Loaded? && s.threads[i].task.Owned()[p] > 0
      ensures s.deleted[p] == 0 && s.ran[p] == 0
    {
      ThreadsHoldAtLeast(s.threads, i, false, p);
      ThreadsHoldAtLeast(s.threads, i, true, p);
    }
  }

  /** Once the destructor has run, every context ever given away has been deleted exactly once. */
  lemma DestroyedDeletesAll(numThreads: nat, clients: nat, acts: seq<Action>, s: System)
    requires Run(Init(numThreads, clients), acts, s) && Enabled(s, DestroyPool)
    ensures Step(s, DestroyPool).deleted == s.given
  {
    InitLinear(numThreads, clients);
    RunKeepsLinear(Init(numThreads, clients), acts, s);
    var s' := Step(s, DestroyPool);
    forall p: Ptr
      ensures s'.deleted[p] == s.given[p]
    {
      assert LinearAt(s, p);
      ThreadsHoldNothing(s.threads, false, p);
    }
  }

  // ---------- run before deleted, refused after the stop ----------

  /** The pool has run what a worker that is done with its task holds. */
  predicate RanIsRun(s: System, i: nat, p: Ptr)
    requires i < |s.threads|
  {
    s.threads[i].stage.Ran? && s.threads[i].task.Owned()[p] > 0 ==> s.ran[p] > 0
  }

  ghost predicate WorkDone(s: System) {
    forall i, p :: 0 <= i < |s.threads| ==> RanIsRun(s, i, p)
  }

  lemma TurnRuns(pool: PoolState, s: Slot, p: Ptr)
    ensures var e := Turn(pool, s);
            e.slot.stage.Ran? ==> s.stage.Loaded? && e.slot.task == s.task && e.ran == s.task.Owned()
  {
  }

  lemma StepKeepsWorkDone(s: System, a: Action)
    requires Enabled(s, a) && WorkDone(s)
    ensures WorkDone(Step(s, a))
  {
    hide Turn, Task.Owned;
    var s' := Step(s, a);
    forall i, p | 0 <= i < |s'.threads|
      ensures RanIsRun(s', i, p)
    {
      assert RanIsRun(s, i, p);
      if a.Go? { TurnRuns(s.pool, s.threads[a.i], p); }
    }
  }

  lemma {:induction false} RunKeepsWorkDone(s: System, acts: seq<Action>, s': System)
    requires Run(s, acts, s') && WorkDone(s)
    ensures WorkDone(s')
    decreases |acts|
  {
    hide WorkDone, Step, Enabled;
    if acts != [] {
      StepKeepsWorkDone(s, acts[0]);
      RunKeepsWorkDone(Step(s, acts[0]), acts[1..], s');
    }
  }

  /** A worker deletes a context only after it ran it, exactly once. */
  lemma WorkerRunsBeforeDeleting(numThreads: nat, clients: nat, acts: seq<Action>, s: System, i: nat, p: Ptr)
    requires Run(Init(numThreads, clients), acts, s) && i < |s.threads|
    requires !s.threads[i].stage.Submitting? && !s.threads[i].stage.StopTested?
    requires Turn(s.pool, s.threads[i]).deleted[p] > 0
    ensures s.ran[p] == 1
  {
    hide Run, LinearAt, QueueOwned, ThreadsHold;
    InitLinear(numThreads, clients);
    RunKeepsLinear(Init(numThreads, clients), acts, s);
    assert WorkDone(Init(numThreads, clients));
    RunKeepsWorkDone(Init(numThreads, clients), acts, s);
    OwnedContextsLinear(numThreads, clients, acts, s, p);
    assert RanIsRun(s, i, p) && HandsMatch(s.threads[i]);
    DeletingTurn(s.pool, s.threads[i], p);
  }

  lemma DeletingTurn(pool: PoolState, s: Slot, p: Ptr)
    requires HandsMatch(s) && !s.stage.Submitting? && !s.stage.StopTested? && Turn(pool, s).deleted[p] > 0
    ensures s.stage.Ran? && s.task.Owned()[p] > 0
  {
    hide QueueOwned;
    if s.stage.Popping? { PopTurn(pool, s); }
  }

  /**
   * A submission the pool refuses, because it has stopped or its queue is shut, deletes the context it was
   * given if it owns it, and leaves the queue as it was; an accepted one puts it at the end and deletes nothing.
   */
  lemma SubmissionAccepted(pool: PoolState, s: Slot)
    requires s.stage.Submitting? || s.stage.StopTested?
    ensures var e := Turn(pool, s);
            && e.pool.stop == pool.stop && e.pool.queue.down == pool.queue.down && e.ran == multiset{}
            && ((if s.stage.Submitting? then pool.stop else pool.queue.down) ==>
                  e.slot == Slot(Idle, EmptyTask) && e.deleted == s.task.Owned() && e.pool == pool)
    ensures var e := Turn(pool, s);
            s.stage.StopTested? && !pool.queue.down && |pool.queue.items| < pool.queue.maxSize ==>
              && e.slot == Slot(Idle, EmptyTask) && e.deleted == multiset{}
              && e.pool.queue.items == pool.queue.items + [s.task]
  {
  }

  /** A worker leaves at its next stop test, whatever is still queued. */
  lemma WorkerLeaves(pool: PoolState, s: Slot)
    requires s.stage.AtLoop?
    ensures Turn(pool, s).slot.stage.Exited? <==> pool.stop
    ensures Turn(pool, s).pool == pool
  {
  }
}
