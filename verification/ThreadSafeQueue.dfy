/**
 * The bounded queue every thread pair communicates through (src/common/utils/queue/ThreadSafeQueue.hpp):
 * what one hold of the mutex does (Fifo), the object (ThreadSafeQueue), and the monitor with its two
 * condition variables in which many threads call it (Monitor).
 */
module ThreadSafeQueue {
  datatype QueueResult = SUCCESS | SHUTDOWN | TIMEOUT

  /** Outcome of one pass through the critical section: wait for the condition, or return. */
  datatype Verdict<T> =
    | Blocked
    | Returned(result: QueueResult, got: seq<T>)

  // ---------- one hold of the mutex ----------

  datatype Fifo<T> = Fifo(items: seq<T>, maxSize: nat, down: bool) {
    predicate CanPush() {
      |items| < maxSize || down
    }

    predicate CanPop() {
      items != [] || down
    }

    function Push(item: T): (Fifo<T>, Verdict<T>) {
      if !CanPush() then (this, Blocked)
      else if down then (this, Returned(SHUTDOWN, []))
      else (this.(items := items + [item]), Returned(SUCCESS, []))
    }

    function Pop(): (Fifo<T>, Verdict<T>) {
      if !CanPop() then (this, Blocked)
      else if down && items == [] then (this, Returned(SHUTDOWN, []))
      else (this.(items := items[1..]), Returned(SUCCESS, [items[0]]))
    }

    function Shutdown(): Fifo<T> {
      this.(down := true)
    }

    function Clear(): Fifo<T> {
      this.(items := [])
    }
  }

  /** The queue object; a timed wait that ran out turns a blocked pass into TIMEOUT. */
  class ThreadSafeQueue<T> {
    var queue: seq<T>
    const maxSize: nat
    var shutdownFlag: bool

    ghost function Value(): Fifo<T>
      reads this
    {
      Fifo(queue, maxSize, shutdownFlag)
    }

    constructor (maxSize: nat)
      requires maxSize > 0
      ensures Value() == Fifo([], maxSize, false)
    {
      queue, this.maxSize, shutdownFlag := [], maxSize, false;
    }

    /** Push and Emplace: one pass with the mutex held. */
    method Push(item: T) returns (verdict: Verdict<T>)
      modifies this
      ensures (Value(), verdict) == old(Value()).Push(item)
    {
      if !(|queue| < maxSize || shutdownFlag) {
        return Blocked;
      }
      if shutdownFlag {
        return Returned(SHUTDOWN, []);
      }
      queue := queue + [item];
      return Returned(SUCCESS, []);
    }

    /** TryPush and TryEmplace: the pass in which the timed wait reports. */
    method TryPush(item: T, timedOut: bool) returns (verdict: Verdict<T>)
      modifies this
      ensures var (q, v) := old(Value()).Push(item);
              Value() == q && verdict == if v.Blocked? && timedOut then Returned(TIMEOUT, []) else v
    {
      verdict := Push(item);
      if verdict.Blocked? && timedOut {
        verdict := Returned(TIMEOUT, []);
      }
    }

    method Pop() returns (verdict: Verdict<T>)
      modifies this
      ensures (Value(), verdict) == old(Value()).Pop()
    {
      if !(queue != [] || shutdownFlag) {
        return Blocked;
      }
      if shutdownFlag && queue == [] {
        return Returned(SHUTDOWN, []);
      }
      verdict := Returned(SUCCESS, [queue[0]]);
      queue := queue[1..];
    }

    method TryPop(timedOut: bool) returns (verdict: Verdict<T>)
      modifies this
      ensures var (q, v) := old(Value()).Pop();
              Value() == q && verdict == if v.Blocked? && timedOut then Returned(TIMEOUT, []) else v
    {
      verdict := Pop();
      if verdict.Blocked? && timedOut {
        verdict := Returned(TIMEOUT, []);
      }
    }

    method Shutdown()
      modifies this
      ensures Value() == old(Value()).Shutdown()
    {
      shutdownFlag := true;
    }

    method Clear()
      modifies this
      ensures Value() == old(Value()).Clear()
    {
      var emptyQueue := [];
      queue := emptyQueue;
    }
  }

  // ---------- the monitor: threads, condition variables, wakeups ----------

  type Tid = nat

  datatype Op<T> = PushOp(item: T, timed: bool) | PopOp(timed: bool)

  /** A thread inside a wait: asleep on its condition variable, or woken and yet to get the mutex back. */
  datatype Phase = Asleep | Woken(timedOut: bool)
  datatype Waiter<T> = Waiter(op: Op<T>, phase: Phase)

  /**
   * The queue, the waiting threads, and bookkeeping: every item ever pushed or removed (by Pop or
   * Clear), and whether a Shutdown has notified each condition variable since the flag was set.
   */
  datatype Monitor<T> = Monitor(
    q: Fifo<T>,
    waiters: map<Tid, Waiter<T>>,
    pushed: seq<T>,
    removed: seq<T>,
    emptyNotified: bool,
    fullNotified: bool)

  datatype Action<T> =
    | Enter(t: Tid, op: Op<T>, wake: Tid)
    | Resume(t: Tid, wake: Tid)
    | Spurious(t: Tid)
    | Expire(t: Tid)
    | SetShutdownFlag
    | NotifyAllNotEmpty
    | NotifyAllNotFull
    | ClearQueue

  function Init<T>(maxSize: nat): Monitor<T> {
    Monitor(Fifo([], maxSize, false), map[], [], [], false, false)
  }

  /** The waiting threads of one kind (pushing or popping) and phase. */
  function Threads<T>(w: map<Tid, Waiter<T>>, pushing: bool, asleep: bool): set<Tid> {
    set t | t in w && w[t].op.PushOp? == pushing && w[t].phase.Asleep? == asleep
  }

  function Sleeping<T>(m: Monitor<T>, pushing: bool): set<Tid> {
    Threads(m.waiters, pushing, true)
  }

  function Awake<T>(m: Monitor<T>, pushing: bool): set<Tid> {
    Threads(m.waiters, pushing, false)
  }

  function WithPhase<T>(w: map<Tid, Waiter<T>>, t: Tid, phase: Phase): map<Tid, Waiter<T>>
    requires t in w
  {
    w[t := w[t].(phase := phase)]
  }

  /** notify_one on a condition variable: wakes the given sleeper, if there is one. */
  function NotifyOne<T>(w: map<Tid, Waiter<T>>, pushing: bool, wake: Tid): map<Tid, Waiter<T>> {
    if wake in Threads(w, pushing, true) then WithPhase(w, wake, Woken(false)) else w
  }

  function NotifyAll<T>(w: map<Tid, Waiter<T>>, pushing: bool): map<Tid, Waiter<T>> {
    map t | t in w :: if t in Threads(w, pushing, true) then w[t].(phase := Woken(false)) else w[t]
  }

  /** What the queue answers to an operation when its thread holds the mutex. */
  function Attempt<T>(q: Fifo<T>, op: Op<T>): (Fifo<T>, Verdict<T>) {
    match op
    case PushOp(item, _) => q.Push(item)
    case PopOp(_) => q.Pop()
  }

  /** Thread t holds the mutex and runs its operation once; others are the remaining waiters. */
  function Pass<T>(m: Monitor<T>, others: map<Tid, Waiter<T>>, t: Tid, op: Op<T>, timedOut: bool, wake: Tid)
    : (Monitor<T>, Verdict<T>)
  {
    var (q, v) := Attempt(m.q, op);
    match v
    case Blocked =>
      if timedOut then (m.(waiters := others), Returned(TIMEOUT, []))
      else (m.(waiters := others[t := Waiter(op, Asleep)]), Blocked)
    case Returned(SUCCESS, got) =>
      (m.(q := q,
          waiters := NotifyOne(others, op.PopOp?, wake),
          pushed := if op.PushOp? then m.pushed + [op.item] else m.pushed,
          removed := m.removed + got),
       v)
    case _ => (m.(waiters := others), v)
  }

  predicate ValidWake<T>(w: map<Tid, Waiter<T>>, pushing: bool, wake: Tid) {
    Threads(w, pushing, true) != {} ==> wake in Threads(w, pushing, true)
  }

  predicate Enabled<T>(m: Monitor<T>, a: Action<T>) {
    match a
    case Enter(t, op, wake) => t !in m.waiters && ValidWake(m.waiters, op.PopOp?, wake)
    case Resume(t, wake) =>
      t in m.waiters && m.waiters[t].phase.Woken? && ValidWake(m.waiters, m.waiters[t].op.PopOp?, wake)
    case Spurious(t) => t in m.waiters && m.waiters[t].phase.Asleep?
    case Expire(t) => t in m.waiters && m.waiters[t].op.timed
    case SetShutdownFlag => true
    case NotifyAllNotEmpty => m.q.down
    case NotifyAllNotFull => m.q.down
    case ClearQueue => true
  }

  /** The step an action takes, with the verdict of a thread that ran its operation. */
  function Step<T>(m: Monitor<T>, a: Action<T>): (Monitor<T>, Verdict<T>)
    requires Enabled(m, a)
  {
    match a
    case Enter(t, op, wake) => Pass(m, m.waiters, t, op, false, wake)
    case Resume(t, wake) =>
      Pass(m, m.waiters - {t}, t, m.waiters[t].op, m.waiters[t].phase.timedOut, wake)
    case Spurious(t) => (m.(waiters := WithPhase(m.waiters, t, Woken(false))), Blocked)
    case Expire(t) => (m.(waiters := WithPhase(m.waiters, t, Woken(true))), Blocked)
    case SetShutdownFlag => (m.(q := m.q.Shutdown()), Blocked)
    case NotifyAllNotEmpty => (m.(waiters := NotifyAll(m.waiters, false), emptyNotified := true), Blocked)
    case NotifyAllNotFull => (m.(waiters := NotifyAll(m.waiters, true), fullNotified := true), Blocked)
    case ClearQueue =>
      (m.(q := m.q.Clear(), waiters := NotifyAll(m.waiters, true), removed := m.removed + m.q.items), Blocked)
  }

  /** m' is reached from m by the given actions. */
  ghost predicate Run<T>(m: Monitor<T>, acts: seq<Action<T>>, m': Monitor<T>)
    decreases |acts|
  {
    if acts == [] then m' == m else Enabled(m, acts[0]) && Run(Step(m, acts[0]).0, acts[1..], m')
  }

  // ---------- bounded FIFO ----------

  ghost predicate FifoInv<T>(m: Monitor<T>) {
    m.pushed == m.removed + m.q.items && |m.q.items| <= m.q.maxSize
  }

  /** m' follows m in the history of one queue: both logs grow, and shutdown is final and stops pushing. */
  ghost predicate Later<T>(m: Monitor<T>, m': Monitor<T>) {
    && m'.q.maxSize == m.q.maxSize
    && m.pushed <= m'.pushed && m.removed <= m'.removed
    && (m.q.down ==> m'.q.down && m'.pushed == m.pushed)
  }

  /** What a verdict tells the thread that gets it. */
  ghost predicate Truthful<T>(m: Monitor<T>, op: Op<T>, m': Monitor<T>, v: Verdict<T>) {
    match v
    case Blocked =>
      m'.q == m.q && !m.q.down && (if op.PushOp? then |m.q.items| >= m.q.maxSize else m.q.items == [])
    case Returned(SUCCESS, got) =>
      if op.PushOp?
      then !m.q.down && got == [] && m'.pushed == m.pushed + [op.item] && m'.removed == m.removed
      else m.q.items != [] && got == [m.q.items[0]] && m'.removed == m.removed + got && m'.pushed == m.pushed
    case Returned(SHUTDOWN, _) => m'.q == m.q && m.q.down && (op.PopOp? ==> m.q.items == [])
    case Returned(TIMEOUT, _) =>
      m'.q == m.q && !m.q.down && (if op.PushOp? then |m.q.items| >= m.q.maxSize else m.q.items == [])
  }

  lemma PassIsFifo<T>(m: Monitor<T>, others: map<Tid, Waiter<T>>, t: Tid, op: Op<T>, timedOut: bool, wake: Tid)
    requires FifoInv(m)
    ensures var (m', v) := Pass(m, others, t, op, timedOut, wake);
            FifoInv(m') && Later(m, m') && Truthful(m, op, m', v)
  {
    hide NotifyOne;
    match op
    case PushOp(item, _) =>
      assert m.removed + (m.q.items + [item]) == m.removed + m.q.items + [item];
      assert m.removed + [] == m.removed;
    case PopOp(_) =>
      assert m.q.items != [] ==> m.removed + [m.q.items[0]] + m.q.items[1..] == m.removed + m.q.items;
  }

  lemma PassKeepsFlag<T>(m: Monitor<T>, others: map<Tid, Waiter<T>>, t: Tid, op: Op<T>, timedOut: bool, wake: Tid)
    ensures Pass(m, others, t, op, timedOut, wake).0.q.down == m.q.down
  {
    hide NotifyOne;
  }

  /** The operation whose pass a step is, if it is one. */
  function Operation<T>(m: Monitor<T>, a: Action<T>): (op: Op<T>)
    requires Enabled(m, a) && (a.Enter? || a.Resume?)
  {
    if a.Enter? then a.op else m.waiters[a.t].op
  }

  /** A step keeps the FIFO invariant, and a thread's verdict says truthfully what its pass did. */
  lemma StepIsFifo<T>(m: Monitor<T>, a: Action<T>)
    requires Enabled(m, a) && FifoInv(m)
    ensures var (m', v) := Step(m, a);
            && FifoInv(m') && Later(m, m')
            && (a.Enter? || a.Resume? ==> Truthful(m, Operation(m, a), m', v))
            && (m'.q.down <==> m.q.down || a.SetShutdownFlag?)
            && (a.ClearQueue? ==> m'.q.items == [])
            && (!a.Enter? && !a.Resume? && !a.ClearQueue? ==> m'.q.items == m.q.items)
  {
    hide Truthful, Pass, NotifyAll;
    match a
    case Enter(t, op, wake) =>
      PassIsFifo(m, m.waiters, t, op, false, wake);
      PassKeepsFlag(m, m.waiters, t, op, false, wake);
    case Resume(t, wake) =>
      PassIsFifo(m, m.waiters - {t}, t, m.waiters[t].op, m.waiters[t].phase.timedOut, wake);
      PassKeepsFlag(m, m.waiters - {t}, t, m.waiters[t].op, m.waiters[t].phase.timedOut, wake);
    case _ =>
  }

  lemma {:induction false} RunIsFifo<T>(m: Monitor<T>, acts: seq<Action<T>>, m': Monitor<T>)
    requires Run(m, acts, m') && FifoInv(m)
    ensures FifoInv(m') && Later(m, m')
    decreases |acts|
  {
    hide Step, Enabled, FifoInv;
    if acts != [] {
      StepIsFifo(m, acts[0]);
      RunIsFifo(Step(m, acts[0]).0, acts[1..], m');
    }
  }

  /**
   * Over every run the queue is a bounded FIFO: what was removed, in order, is a prefix of what was
   * pushed, and the rest is still queued; nothing is pushed after shutdown.
   */
  lemma QueueRefinesFifo<T>(maxSize: nat, before: seq<Action<T>>, mid: Monitor<T>,
                            after: seq<Action<T>>, end: Monitor<T>)
    requires Run(Init(maxSize), before, mid) && Run(mid, after, end)
    ensures end.pushed == end.removed + end.q.items && |end.q.items| <= maxSize
    ensures mid.pushed <= end.pushed && mid.removed <= end.removed <= end.pushed
    ensures mid.q.down ==> end.pushed == mid.pushed
  {
    RunIsFifo(Init(maxSize), before, mid);
    RunIsFifo(mid, after, end);
  }

  /** What the threads running through acts are handed, in order. */
  ghost function Delivered<T>(m: Monitor<T>, acts: seq<Action<T>>): seq<T>
    decreases |acts|
  {
    if acts == [] || !Enabled(m, acts[0]) then []
    else
      var (m1, v) := Step(m, acts[0]);
      (if v.Returned? then v.got else []) + Delivered(m1, acts[1..])
  }

  lemma StepDelivers<T>(m: Monitor<T>, a: Action<T>)
    requires Enabled(m, a) && !a.ClearQueue?
    ensures var (m1, v) := Step(m, a);
            m1.removed == m.removed + if v.Returned? then v.got else []
  {
    hide NotifyOne, NotifyAll;
  }

  lemma {:induction false} DeliveredIsRemoved<T>(m: Monitor<T>, acts: seq<Action<T>>, m': Monitor<T>)
    requires Run(m, acts, m') && forall a :: a in acts ==> !a.ClearQueue?
    ensures m'.removed == m.removed + Delivered(m, acts)
    decreases |acts|
  {
    hide Step, Enabled;
    if acts != [] {
      assert acts[0] in acts;
      StepDelivers(m, acts[0]);
      DeliveredIsRemoved(Step(m, acts[0]).0, acts[1..], m');
    }
  }

  predicate IsPop<T>(m: Monitor<T>, a: Action<T>) {
    (a.Enter? && a.op.PopOp?) || (a.Resume? && a.t in m.waiters && m.waiters[a.t].op.PopOp?)
  }

  /** After shutdown a pop, fresh or resumed, gets the front item, or the news of the shutdown on an empty queue. */
  lemma PopVerdict<T>(m: Monitor<T>, a: Action<T>)
    requires Enabled(m, a) && IsPop(m, a) && m.q.down
    ensures var (m1, v) := Step(m, a);
            if m.q.items == [] then v == Returned(SHUTDOWN, []) && m1.q == m.q
            else v == Returned(SUCCESS, [m.q.items[0]]) && m1.q.items == m.q.items[1..]
  {
  }

  /**
   * From a shutdown on the queue drains in order: over any run without Clear, of fresh and resumed
   * consumers, producers and wakeups in any interleaving, the items handed out, followed by what is still
   * queued, are the items that were queued; and the next pop continues the list or reports its end.
   */
  lemma PopDrains<T>(maxSize: nat, before: seq<Action<T>>, m: Monitor<T>, acts: seq<Action<T>>, m': Monitor<T>)
    requires Run(Init(maxSize), before, m) && m.q.down
    requires Run(m, acts, m') && forall a :: a in acts ==> !a.ClearQueue?
    ensures Delivered(m, acts) + m'.q.items == m.q.items
    ensures forall a :: Enabled(m', a) && IsPop(m', a) ==>
              Step(m', a).1 == if m'.q.items == [] then Returned(SHUTDOWN, []) else Returned(SUCCESS, [m'.q.items[0]])
  {
    hide Run, Enabled, Step;
    RunIsFifo(Init(maxSize), before, m);
    RunIsFifo(m, acts, m');
    DeliveredIsRemoved(m, acts, m');
    SamePrefix(m.removed, Delivered(m, acts), m'.q.items, m.q.items);
    forall a | Enabled(m', a) && IsPop(m', a)
      ensures Step(m', a).1 == if m'.q.items == [] then Returned(SHUTDOWN, []) else Returned(SUCCESS, [m'.q.items[0]])
    {
      PopVerdict(m', a);
    }
  }

  lemma SamePrefix<T>(p: seq<T>, a: seq<T>, b: seq<T>, c: seq<T>)
    requires (p + a) + b == p + c
    ensures a + b == c
  {
    assert ((p + a) + b)[|p|..] == a + b;
    assert (p + c)[|p|..] == c;
  }

  // ---------- no lost wakeup ----------

  /** Items waiting are covered by woken consumers whenever a consumer sleeps; free slots dually. */
  predicate Covered<T>(m: Monitor<T>) {
    && (Sleeping(m, false) != {} ==> |m.q.items| <= |Awake(m, false)|)
    && (Sleeping(m, true) != {} ==> m.q.maxSize - |m.q.items| <= |Awake(m, true)|)
  }

  predicate WakeInv<T>(m: Monitor<T>) {
    && (!m.q.down ==> Covered(m))
    && (m.emptyNotified ==> m.q.down && Sleeping(m, false) == {})
    && (m.fullNotified ==> m.q.down && Sleeping(m, true) == {})
  }

  lemma ThreadsUpdate<T>(w: map<Tid, Waiter<T>>, t: Tid, x: Waiter<T>, p: bool, s: bool)
    ensures Threads(w[t := x], p, s) ==
            if x.op.PushOp? == p && x.phase.Asleep? == s then Threads(w, p, s) + {t} else Threads(w, p, s) - {t}
  {
  }

  lemma ThreadsRemove<T>(w: map<Tid, Waiter<T>>, t: Tid, p: bool, s: bool)
    ensures Threads(w - {t}, p, s) == Threads(w, p, s) - {t}
  {
  }

  lemma NotifyAllThreads<T>(w: map<Tid, Waiter<T>>, pushing: bool)
    ensures Threads(NotifyAll(w, pushing), pushing, true) == {}
    ensures Threads(NotifyAll(w, pushing), !pushing, true) == Threads(w, !pushing, true)
    ensures Threads(NotifyAll(w, pushing), !pushing, false) == Threads(w, !pushing, false)
  {
  }

  lemma NotifyOneThreads<T>(w: map<Tid, Waiter<T>>, pushing: bool, wake: Tid)
    requires ValidWake(w, pushing, wake)
    ensures var w' := NotifyOne(w, pushing, wake);
            && Threads(w', !pushing, true) == Threads(w, !pushing, true)
            && Threads(w', !pushing, false) == Threads(w, !pushing, false)
            && Threads(w', pushing, true) <= Threads(w, pushing, true)
            && (Threads(w, pushing, true) != {} ==>
                  |Threads(w', pushing, false)| == |Threads(w, pushing, false)| + 1)
            && (Threads(w, pushing, true) == {} ==> w' == w)
  {
    if Threads(w, pushing, true) != {} {
      var x := w[wake].(phase := Woken(false));
      ThreadsUpdate(w, wake, x, pushing, true);
      ThreadsUpdate(w, wake, x, pushing, false);
      ThreadsUpdate(w, wake, x, !pushing, true);
      ThreadsUpdate(w, wake, x, !pushing, false);
    }
  }

  /** The waiters other than the thread that holds the mutex; that thread was not asleep. */
  ghost predicate Others<T>(w: map<Tid, Waiter<T>>, others: map<Tid, Waiter<T>>, t: Tid, op: Op<T>) {
    if t in w then others == w - {t} && w[t].op == op && w[t].phase.Woken? else others == w
  }

  lemma OthersThreads<T>(w: map<Tid, Waiter<T>>, others: map<Tid, Waiter<T>>, t: Tid, op: Op<T>)
    requires Others(w, others, t, op)
    ensures Threads(others, true, true) == Threads(w, true, true)
    ensures Threads(others, false, true) == Threads(w, false, true)
    ensures Threads(others, !op.PushOp?, false) == Threads(w, !op.PushOp?, false)
    ensures |Threads(others, op.PushOp?, false)| + 1 >= |Threads(w, op.PushOp?, false)|
  {
    var s := Threads(w, op.PushOp?, false);
    if t in w {
      ThreadsRemove(w, t, op.PushOp?, false);
      assert s == (s - {t}) + {t};
    }
  }

  /** A thread that must wait finds its condition false, so its own condition variable is covered again. */
  lemma SleepKeepsCover<T>(m: Monitor<T>, others: map<Tid, Waiter<T>>, t: Tid, op: Op<T>)
    requires Others(m.waiters, others, t, op) && t !in others
    requires Attempt(m.q, op).1.Blocked? && Covered(m) && |m.q.items| <= m.q.maxSize
    ensures Covered(m.(waiters := others[t := Waiter(op, Asleep)]))
    ensures Covered(m.(waiters := others))
  {
    OthersThreads(m.waiters, others, t, op);
    ThreadsUpdate(others, t, Waiter(op, Asleep), true, true);
    ThreadsUpdate(others, t, Waiter(op, Asleep), false, true);
    ThreadsUpdate(others, t, Waiter(op, Asleep), true, false);
    ThreadsUpdate(others, t, Waiter(op, Asleep), false, false);
  }

  /** A thread that succeeds uses up at most one wakeup of its kind and passes one on to the other kind. */
  lemma SuccessKeepsCover<T>(m: Monitor<T>, others: map<Tid, Waiter<T>>, t: Tid, op: Op<T>, wake: Tid)
    requires Others(m.waiters, others, t, op) && ValidWake(m.waiters, op.PopOp?, wake)
    requires var v := Attempt(m.q, op).1; v.Returned? && v.result == SUCCESS
    requires !m.q.down && Covered(m)
    ensures Covered(m.(q := Attempt(m.q, op).0, waiters := NotifyOne(others, op.PopOp?, wake)))
  {
    OthersThreads(m.waiters, others, t, op);
    NotifyOneThreads(others, op.PopOp?, wake);
  }

  lemma PassKeepsWakeInv<T>(m: Monitor<T>, others: map<Tid, Waiter<T>>, t: Tid, op: Op<T>, timedOut: bool, wake: Tid)
    requires Others(m.waiters, others, t, op) && t !in others && ValidWake(m.waiters, op.PopOp?, wake)
    requires WakeInv(m) && |m.q.items| <= m.q.maxSize
    ensures WakeInv(Pass(m, others, t, op, timedOut, wake).0)
  {
    hide Covered, Sleeping, Awake, NotifyOne, ValidWake;
    var v := Attempt(m.q, op).1;
    if m.q.down {
      DownPass(m, others, t, op, timedOut, wake);
    } else if v.Blocked? {
      SleepKeepsCover(m, others, t, op);
    } else {
      SuccessKeepsCover(m, others, t, op, wake);
      CoveredIgnores(m.(q := Attempt(m.q, op).0, waiters := NotifyOne(others, op.PopOp?, wake)),
                     Pass(m, others, t, op, timedOut, wake).0);
    }
  }

  lemma CoveredIgnores<T>(m: Monitor<T>, m': Monitor<T>)
    requires Covered(m) && m'.q == m.q && m'.waiters == m.waiters
    ensures Covered(m')
  {
  }

  /** After shutdown nobody goes to sleep. */
  lemma DownPass<T>(m: Monitor<T>, others: map<Tid, Waiter<T>>, t: Tid, op: Op<T>, timedOut: bool, wake: Tid)
    requires Others(m.waiters, others, t, op) && t !in others && ValidWake(m.waiters, op.PopOp?, wake)
    requires WakeInv(m) && m.q.down
    ensures WakeInv(Pass(m, others, t, op, timedOut, wake).0)
    ensures Pass(m, others, t, op, timedOut, wake).1.Returned?
  {
    OthersThreads(m.waiters, others, t, op);
    NotifyOneThreads(others, op.PopOp?, wake);
  }

  lemma AtLeast(s: set<Tid>, t: Tid)
    ensures |s + {t}| >= |s|
  {
    assert t in s ==> s + {t} == s;
  }

  lemma WakeOne<T>(m: Monitor<T>, t: Tid, timedOut: bool)
    requires t in m.waiters && WakeInv(m)
    ensures WakeInv(m.(waiters := WithPhase(m.waiters, t, Woken(timedOut))))
  {
    hide Threads;
    var x := m.waiters[t].(phase := Woken(timedOut));
    var p := x.op.PushOp?;
    ThreadsUpdate(m.waiters, t, x, true, true);
    ThreadsUpdate(m.waiters, t, x, false, true);
    ThreadsUpdate(m.waiters, t, x, p, false);
    ThreadsUpdate(m.waiters, t, x, !p, false);
    NotOther(m.waiters, t);
    AtLeast(Awake(m, p), t);
  }

  lemma NotOther<T>(w: map<Tid, Waiter<T>>, t: Tid)
    requires t in w
    ensures t !in Threads(w, !w[t].op.PushOp?, false) && t !in Threads(w, !w[t].op.PushOp?, true)
  {
  }

  lemma NotifyAllKeepsWakeInv<T>(m: Monitor<T>, m': Monitor<T>, pushing: bool)
    requires WakeInv(m) && m'.waiters == NotifyAll(m.waiters, pushing) && m'.q.down == m.q.down
    requires m'.q.maxSize == m.q.maxSize
    requires m'.q.items == m.q.items || (pushing && m'.q.items == [])
    requires m'.emptyNotified == (m.emptyNotified || (m.q.down && !pushing && m'.emptyNotified))
    requires m'.fullNotified == (m.fullNotified || (m.q.down && pushing && m'.fullNotified))
    ensures WakeInv(m')
  {
    NotifyAllThreads(m.waiters, pushing);
  }

  lemma StepKeepsWakeInv<T>(m: Monitor<T>, a: Action<T>)
    requires Enabled(m, a) && WakeInv(m) && |m.q.items| <= m.q.maxSize
    ensures WakeInv(Step(m, a).0)
  {
    hide WakeInv, Pass, NotifyAll;
    match a
    case Enter(t, op, wake) => PassKeepsWakeInv(m, m.waiters, t, op, false, wake);
    case Resume(t, wake) =>
      PassKeepsWakeInv(m, m.waiters - {t}, t, m.waiters[t].op, m.waiters[t].phase.timedOut, wake);
    case Spurious(t) => WakeOne(m, t, false);
    case Expire(t) => WakeOne(m, t, true);
    case SetShutdownFlag => ShutdownKeepsWakeInv(m);
    case NotifyAllNotEmpty => NotifyAllKeepsWakeInv(m, Step(m, a).0, false);
    case NotifyAllNotFull => NotifyAllKeepsWakeInv(m, Step(m, a).0, true);
    case ClearQueue => NotifyAllKeepsWakeInv(m, Step(m, a).0, true);
  }

  lemma ShutdownKeepsWakeInv<T>(m: Monitor<T>)
    requires WakeInv(m)
    ensures WakeInv(m.(q := m.q.Shutdown()))
  {
  }

  lemma {:induction false} RunKeepsWakeInv<T>(m: Monitor<T>, acts: seq<Action<T>>, m': Monitor<T>)
    requires Run(m, acts, m') && WakeInv(m) && FifoInv(m)
    ensures WakeInv(m') && FifoInv(m')
    decreases |acts|
  {
    hide WakeInv, Step, Enabled;
    if acts != [] {
      StepKeepsWakeInv(m, acts[0]);
      StepIsFifo(m, acts[0]);
      RunKeepsWakeInv(Step(m, acts[0]).0, acts[1..], m');
    }
  }

  /**
   * No lost wakeup, over every interleaving with barging threads, spurious wakeups, timed waits and
   * Clear: before shutdown sleepers are covered by woken threads, and once a Shutdown has notified
   * both condition variables nobody sleeps.
   */
  lemma NoLostWakeup<T>(maxSize: nat, acts: seq<Action<T>>, m: Monitor<T>)
    requires Run(Init(maxSize), acts, m)
    ensures !m.q.down && Sleeping(m, false) != {} ==> |m.q.items| <= |Awake(m, false)|
    ensures !m.q.down && Sleeping(m, true) != {} ==> maxSize - |m.q.items| <= |Awake(m, true)|
    ensures m.emptyNotified && m.fullNotified ==> forall t :: t in m.waiters ==> m.waiters[t].phase.Woken?
  {
    RunKeepsWakeInv(Init(maxSize), acts, m);
    RunIsFifo(Init(maxSize), acts, m);
    if m.emptyNotified && m.fullNotified {
      forall t | t in m.waiters
        ensures m.waiters[t].phase.Woken?
      {
        assert t !in Sleeping(m, false) && t !in Sleeping(m, true);
      }
    }
  }

  /**
   * When no woken thread is left to run, whoever sleeps has nothing to do: consumers sleep only on an
   * empty queue, producers only on a full one, and never both at once.
   */
  lemma QuietSleepersAreIdle<T>(maxSize: nat, acts: seq<Action<T>>, m: Monitor<T>)
    requires maxSize > 0 && Run(Init(maxSize), acts, m) && !m.q.down
    requires forall t :: t in m.waiters ==> m.waiters[t].phase.Asleep?
    ensures Sleeping(m, false) != {} ==> m.q.items == []
    ensures Sleeping(m, true) != {} ==> |m.q.items| == maxSize
    ensures Sleeping(m, false) == {} || Sleeping(m, true) == {}
  {
    NoLostWakeup(maxSize, acts, m);
    RunIsFifo(Init(maxSize), acts, m);
    assert Awake(m, false) == {} && Awake(m, true) == {};
  }

  /** After shutdown every thread that gets the mutex leaves, so woken threads drain away. */
  lemma ShutdownReleases<T>(m: Monitor<T>, t: Tid, wake: Tid)
    requires m.q.down && Enabled(m, Resume(t, wake))
    ensures var (m', v) := Step(m, Resume(t, wake));
            v.Returned? && v.result != TIMEOUT && m'.waiters.Keys == m.waiters.Keys - {t}
  {
  }
}
