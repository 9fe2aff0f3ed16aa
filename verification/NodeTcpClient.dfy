/**
 * The coordinator's client for one node (src/coordinator/network/node_client/src/NodeTcpClient.cpp):
 * many callers share one connection, and reply, timeout, send failure, push failure and disconnect
 * compete to resolve the same promise.
 */
module NodeTcpClient {
  import opened Bytes
  import opened Framing
  import opened ThreadSafeQueue

  const ID_COUNT := 0x1_0000_0000_0000_0000

  datatype FailureReason = ConnectionClosed | SendFailed | RequestTimeout

  /** How a promise left pending_requests; Broken means it was overwritten by a reused id. */
  datatype Resolution =
    | Fulfilled(response: NetworkMessage)
    | Failed(reason: FailureReason)
    | Abandoned
    | Broken

  /**
   * Calls are numbered 1, 2, ... in the order of fetch_add; the id on the wire is the 64-bit residue.
   * pending maps an id to the call whose promise is stored under it; registered, outcomes and twice
   * record which promises were ever stored, how each was resolved, and whether any was resolved again.
   */
  datatype ClientState = ClientState(
    connected: bool,
    threadsRunning: bool,
    sendQueue: Fifo<NetworkMessage>,
    nextCall: nat,
    pending: map<u64, nat>,
    registered: set<nat>,
    outcomes: map<nat, Resolution>,
    twice: bool)
  {
    /** Takes the promise stored under an id out of the map and resolves it; without one, does nothing. */
    function Resolve(id: u64, r: Resolution): ClientState {
      if id !in pending then this
      else
        this.(pending := pending - {id},
              outcomes := outcomes[pending[id] := r],
              twice := twice || pending[id] in outcomes)
    }

    function TakeId(): ClientState {
      this.(nextCall := nextCall + 1)
    }

    /** Stores a fresh promise; whatever was stored under the same id is destroyed. */
    function Register(call: nat): ClientState {
      var c := Resolve(WireId(call), Broken);
      c.(pending := c.pending[WireId(call) := call], registered := c.registered + {call})
    }

    /** Disconnect, first part: no more connection, no more loops, no more pushes. */
    function BeginDisconnect(): ClientState {
      if !connected then this
      else this.(connected := false, threadsRunning := false, sendQueue := sendQueue.Shutdown())
    }

    /** Disconnect, last part: every remaining promise gets an exception. */
    function FailPending(): ClientState {
      this.(pending := map[],
            outcomes := outcomes + AllFailed(pending.Values),
            twice := twice || pending.Values * outcomes.Keys != {})
    }

    function Connect(): ClientState {
      this.(connected := true, threadsRunning := true)
    }
  }

  function AllFailed(calls: set<nat>): map<nat, Resolution> {
    map call | call in calls :: Failed(ConnectionClosed)
  }

  function WireId(call: nat): u64 {
    call % ID_COUNT
  }

  const Fresh := ClientState(false, false, Fifo([], 100, false), 1, map[], {}, map[], false)

  /** The frame a call sends: its serialized request under its id. */
  function RequestFrame(call: nat, messageType: u16, body: seq<byte>, timestamp: u64): (m: NetworkMessage)
    ensures m.Id() == WireId(call)
  {
    var m := MakeMessage(messageType, body);
    m.(header := m.header.(requestId := WireId(call), timestamp := timestamp))
  }

  /** m is what a call with this id sends for a request of this type, body and time. */
  predicate IsFrameOf(m: NetworkMessage, call: nat, messageType: u16, body: seq<byte>, timestamp: u64) {
    && m.Id() == WireId(call) && m.body == body
    && m.header.messageType == messageType && m.header.timestamp == timestamp
    && (|body| <= 1_048_576 ==> m.Validate() == OK)
  }

  /** The frame carries the caller's request unchanged, and the node will accept it up to one megabyte. */
  lemma FrameCarriesRequest(call: nat, messageType: u16, body: seq<byte>, timestamp: u64)
    ensures IsFrameOf(RequestFrame(call, messageType, body, timestamp), call, messageType, body, timestamp)
  {
    hide Checksum;
    MadeMessageValid(messageType, body, 0);
  }

  class NodeTcpClient {
    var isConnected: bool
    var threadsRunning: bool
    const sendQueue: ThreadSafeQueue<NetworkMessage>
    var nextRequestId: nat
    var pendingRequests: map<u64, nat>
    ghost var registered: set<nat>
    ghost var outcomes: map<nat, Resolution>
    ghost var twice: bool

    ghost function Value(): ClientState
      reads this, sendQueue
    {
      ClientState(isConnected, threadsRunning, sendQueue.Value(), nextRequestId, pendingRequests,
                  registered, outcomes, twice)
    }

    constructor ()
      ensures Value() == Fresh && fresh(sendQueue)
    {
      isConnected, threadsRunning, nextRequestId, pendingRequests := false, false, 1, map[];
      sendQueue := new ThreadSafeQueue(100);
      registered, outcomes, twice := {}, map[], false;
    }

    /** pending_mutex held: find, set the promise, erase. */
    method ResolvePending(id: u64, r: Resolution)
      modifies this`pendingRequests, this`outcomes, this`twice
      ensures Value() == old(Value()).Resolve(id, r)
    {
      if id in pendingRequests {
        var call := pendingRequests[id];
        twice := twice || call in outcomes;
        outcomes := outcomes[call := r];
        pendingRequests := pendingRequests - {id};
      }
    }

    method TakeRequestId() returns (call: nat, id: u64)
      modifies this`nextRequestId
      ensures call == old(nextRequestId) && id == WireId(call) && Value() == old(Value()).TakeId()
    {
      call, id := nextRequestId, WireId(nextRequestId);
      nextRequestId := nextRequestId + 1;
    }

    method RegisterPromise(call: nat)
      modifies this`pendingRequests, this`outcomes, this`twice, this`registered
      ensures Value() == old(Value()).Register(call)
    {
      ResolvePending(WireId(call), Broken);
      pendingRequests := pendingRequests[WireId(call) := call];
      registered := registered + {call};
    }

    /** The TryPush of SendRequestAsync; only its pass under the queue's mutex is atomic. */
    method PushRequest(m: NetworkMessage, timedOut: bool) returns (verdict: Verdict<NetworkMessage>)
      modifies sendQueue
      ensures var (q, v) := old(sendQueue.Value()).Push(m);
              && Value() == old(Value()).(sendQueue := q)
              && verdict == if v.Blocked? && timedOut then Returned(TIMEOUT, []) else v
    {
      verdict := sendQueue.TryPush(m, timedOut);
    }

    /** ReceiveLoop with a response in hand. */
    method DeliverReply(response: NetworkMessage)
      modifies this`pendingRequests, this`outcomes, this`twice
      ensures Value() == old(Value()).Resolve(response.Id(), Fulfilled(response))
    {
      ResolvePending(response.Id(), Fulfilled(response));
    }

    /** Disconnect up to the joins. */
    method BeginDisconnect() returns (closing: bool)
      modifies this`isConnected, this`threadsRunning, sendQueue
      ensures Value() == old(Value()).BeginDisconnect() && closing == old(isConnected)
    {
      if !isConnected {
        return false;
      }
      isConnected := false;
      threadsRunning := false;
      sendQueue.Shutdown();
      closing := true;
    }

    /** Disconnect after the joins: the loop over pending_requests, in whatever order the map has. */
    method FailPending()
      requires Injective(pendingRequests)  // each entry owns its own promise
      modifies this`pendingRequests, this`outcomes, this`twice
      ensures Value() == old(Value()).FailPending()
    {
      hide SweepDone, ClientState.FailPending, Injective;
      ghost var start := Value();
      var left := pendingRequests;
      ghost var done := map[];
      SweepStart(start);
      while left != map[]
        invariant SweepDone(start, left, done, outcomes, twice)
        decreases |left|
      {
        var id :| id in left;
        var call := left[id];
        SweepTurn(start, left, done, outcomes, twice, id);
        twice := twice || call in outcomes;
        outcomes := outcomes[call := Failed(ConnectionClosed)];
        done := done[call := Failed(ConnectionClosed)];
        left := left - {id};
      }
      SweepEnd(start, done, outcomes, twice);
      pendingRequests := map[];
    }
  }

  /** The promises in done have been failed, those in left have not. */
  ghost predicate SweepDone(start: ClientState, left: map<u64, nat>, done: map<nat, Resolution>,
                            outcomes: map<nat, Resolution>, twice: bool) {
    && Injective(left)
    && done.Keys + left.Values == start.pending.Values && done.Keys !! left.Values
    && done == AllFailed(done.Keys)
    && outcomes == start.outcomes + done
    && twice == (start.twice || done.Keys * start.outcomes.Keys != {})
  }

  lemma SweepStart(start: ClientState)
    requires Injective(start.pending)
    ensures SweepDone(start, start.pending, map[], start.outcomes, start.twice)
  {
    assert AllFailed({}) == map[];
  }

  lemma SweepTurn(start: ClientState, left: map<u64, nat>, done: map<nat, Resolution>,
                  outcomes: map<nat, Resolution>, twice: bool, id: u64)
    requires SweepDone(start, left, done, outcomes, twice) && id in left
    ensures var call, f := left[id], Failed(ConnectionClosed);
            SweepDone(start, left - {id}, done[call := f], outcomes[call := f], twice || call in outcomes)
  {
    OneOut(left, id);
    var call := left[id];
    assert call in left.Values;
    var done' := done[call := Failed(ConnectionClosed)];
    assert done' == AllFailed(done'.Keys);
    assert outcomes[call := Failed(ConnectionClosed)] == start.outcomes + done';
    assert done'.Keys == done.Keys + {call};
    if call in start.outcomes {
      assert call in done'.Keys * start.outcomes.Keys;
    } else {
      assert done'.Keys * start.outcomes.Keys == done.Keys * start.outcomes.Keys;
    }
  }

  lemma SweepEnd(start: ClientState, done: map<nat, Resolution>, outcomes: map<nat, Resolution>, twice: bool)
    requires SweepDone(start, map[], done, outcomes, twice)
    ensures start.FailPending() == start.(pending := map[], outcomes := outcomes, twice := twice)
  {
    assert done.Keys == start.pending.Values;
    assert start.(pending := map[], outcomes := outcomes, twice := twice) ==
           start.(pending := map[], outcomes := start.outcomes + AllFailed(start.pending.Values), twice := twice);
  }

  ghost predicate Injective(m: map<u64, nat>) {
    forall i, j :: i in m && j in m && m[i] == m[j] ==> i == j
  }

  lemma OneOut(left: map<u64, nat>, id: u64)
    requires Injective(left) && id in left
    ensures (left - {id}).Values == left.Values - {left[id]} && Injective(left - {id})
  {
    var rest := left - {id};
    forall v | v in left.Values - {left[id]}
      ensures v in rest.Values
    {
      var k :| k in left && left[k] == v;
      assert k in rest && rest[k] == v;
    }
    forall v | v in rest.Values
      ensures v in left.Values - {left[id]}
    {
      var k :| k in rest && rest[k] == v;
      assert k in left && left[k] == v;
    }
  }

  // ---------- promise conservation ----------

  /** Everything that can happen to the promises, in any order and with any message. */
  datatype PromiseEvent =
    | IdTaken
    | Stored(call: nat)
    | PushFailed(call: nat)
    | TimedOut(call: nat)
    | SendError(m: NetworkMessage)
    | ReplyArrived(m: NetworkMessage)
    | Swept

  predicate CanHappen(c: ClientState, e: PromiseEvent) {
    e.Stored? ==> 1 <= e.call < c.nextCall && e.call !in c.registered
  }

  function Happen(c: ClientState, e: PromiseEvent): ClientState {
    match e
    case IdTaken => c.TakeId()
    case Stored(call) => c.Register(call)
    case PushFailed(call) => c.Resolve(WireId(call), Abandoned)
    case TimedOut(call) => c.Resolve(WireId(call), Failed(RequestTimeout))
    case SendError(m) => c.Resolve(m.Id(), Failed(SendFailed))
    case ReplyArrived(m) => c.Resolve(m.Id(), Fulfilled(m))
    case Swept => c.FailPending()
  }

  /** The id an event resolves. */
  function EventId(e: PromiseEvent): u64
    requires !e.IdTaken? && !e.Stored? && !e.Swept?
  {
    match e
    case PushFailed(call) => WireId(call)
    case TimedOut(call) => WireId(call)
    case SendError(m) => m.Id()
    case ReplyArrived(m) => m.Id()
  }

  /**
   * An event whose id is pending takes exactly this promise out and resolves it in its own way: abandoned,
   * failed with its reason, or fulfilled with the reply; with no promise under its id it changes nothing.
   */
  lemma EventResolves(c: ClientState, e: PromiseEvent)
    requires !e.IdTaken? && !e.Stored? && !e.Swept?
    ensures EventId(e) in c.pending ==>
              var id, c' := EventId(e), Happen(c, e);
              var call := c.pending[id];
              && id !in c'.pending && call in c'.outcomes
              && (forall other :: other != id ==>
                    (other in c'.pending <==> other in c.pending)
                    && (other in c.pending ==> c'.pending[other] == c.pending[other]))
              && (forall other :: other != call ==>
                    (other in c'.outcomes <==> other in c.outcomes)
                    && (other in c.outcomes ==> c'.outcomes[other] == c.outcomes[other]))
              && match e {
                   case PushFailed(_) => c'.outcomes[call] == Abandoned
                   case TimedOut(_) => c'.outcomes[call] == Failed(RequestTimeout)
                   case SendError(_) => c'.outcomes[call] == Failed(SendFailed)
                   case ReplyArrived(m) => c'.outcomes[call] == Fulfilled(m)
                   case _ => false
                 }
    ensures EventId(e) !in c.pending ==> Happen(c, e) == c
  {
  }

  /** The sweep fails every promise still pending and touches no other. */
  lemma SweepResolves(c: ClientState, n: nat)
    ensures var c' := c.FailPending();
            && c'.pending == map[]
            && (n in c.pending.Values ==> n in c'.outcomes && c'.outcomes[n] == Failed(ConnectionClosed))
            && (n !in c.pending.Values ==>
                  (n in c'.outcomes <==> n in c.outcomes) && (n in c.outcomes ==> c'.outcomes[n] == c.outcomes[n]))
  {
  }

  predicate Course(c: ClientState, es: seq<PromiseEvent>, c': ClientState)
    decreases |es|
  {
    if es == [] then c' == c else CanHappen(c, es[0]) && Course(Happen(c, es[0]), es[1..], c')
  }

  /** Fewer than 2^64 - 1 ids have been taken, so none was reused and none equals the error id. */
  predicate IdsFresh(c: ClientState) {
    c.nextCall <= ID_COUNT - 1
  }

  /** The keys of pending are exactly the stored, unresolved calls; all were issued; none was resolved twice. */
  ghost predicate PromiseInv(c: ClientState) {
    && 1 <= c.nextCall
    && (forall n :: n in c.registered ==> 1 <= n < c.nextCall)
    && (forall id :: id in c.pending ==> c.pending[id] == id)
    && (forall n :: n in c.registered && n !in c.outcomes ==> n in c.pending)
    && (forall id :: id in c.pending ==> id in c.registered && id !in c.outcomes)
    && c.outcomes.Keys <= c.registered
    && (forall n :: n in c.outcomes && c.outcomes[n].Fulfilled? ==> c.outcomes[n].response.Id() == n)
    && (forall n :: n in c.outcomes ==> !c.outcomes[n].Broken?)
    && !c.twice
  }

  lemma ResolveKeepsPromises(c: ClientState, id: u64, r: Resolution)
    requires PromiseInv(c) && !r.Broken? && (r.Fulfilled? ==> r.response.Id() == id)
    ensures PromiseInv(c.Resolve(id, r))
  {
  }

  lemma RegisterKeepsPromises(c: ClientState, call: nat)
    requires PromiseInv(c) && IdsFresh(c) && 1 <= call < c.nextCall && call !in c.registered
    ensures PromiseInv(c.Register(call)) && call in c.Register(call).pending
  {
    assert WireId(call) == call && call !in c.pending;
  }

  lemma SweepKeepsPromises(c: ClientState)
    requires PromiseInv(c)
    ensures PromiseInv(c.FailPending())
  {
    assert forall n :: n in c.pending.Values ==> n in c.pending && c.pending[n] == n;
    assert forall id :: id in c.pending ==> c.pending[id] in c.pending.Values;
    assert forall n :: n in c.pending ==> n in c.pending.Values;
  }

  lemma HappenKeepsPromises(c: ClientState, e: PromiseEvent)
    requires PromiseInv(c) && CanHappen(c, e) && IdsFresh(Happen(c, e))
    ensures PromiseInv(Happen(c, e)) && c.nextCall <= Happen(c, e).nextCall
  {
    match e
    case IdTaken =>
    case Stored(call) => RegisterKeepsPromises(c, call);
    case PushFailed(call) => ResolveKeepsPromises(c, WireId(call), Abandoned);
    case TimedOut(call) => ResolveKeepsPromises(c, WireId(call), Failed(RequestTimeout));
    case SendError(m) => ResolveKeepsPromises(c, m.Id(), Failed(SendFailed));
    case ReplyArrived(m) => ResolveKeepsPromises(c, m.Id(), Fulfilled(m));
    case Swept => SweepKeepsPromises(c);
  }

  lemma {:induction false} CourseMonotone(c: ClientState, es: seq<PromiseEvent>, c': ClientState)
    requires Course(c, es, c')
    ensures c.nextCall <= c'.nextCall
    decreases |es|
  {
    if es != [] { CourseMonotone(Happen(c, es[0]), es[1..], c'); }
  }

  lemma {:induction false} CourseKeepsPromises(c: ClientState, es: seq<PromiseEvent>, c': ClientState)
    requires Course(c, es, c') && PromiseInv(c) && IdsFresh(c')
    ensures PromiseInv(c')
    decreases |es|
  {
    hide PromiseInv, Happen, CanHappen;
    if es != [] {
      CourseMonotone(Happen(c, es[0]), es[1..], c');
      HappenKeepsPromises(c, es[0]);
      CourseKeepsPromises(Happen(c, es[0]), es[1..], c');
    }
  }

  /**
   * Promise conservation, for every race of replies, timeouts, failures and disconnects: a stored
   * promise is pending or resolved in exactly one way, never twice and never by overwriting; the keys
   * of pending are exactly the unresolved ids, below the next id; a fulfilled promise holds a message
   * with its own id.
   */
  lemma PromiseConservation(es: seq<PromiseEvent>, c: ClientState)
    requires Course(Fresh, es, c) && IdsFresh(c)
    ensures !c.twice
    ensures forall n :: n in c.registered ==> ((n in c.pending) != (n in c.outcomes))
    ensures c.pending.Keys == c.registered - c.outcomes.Keys
    ensures forall id :: id in c.pending ==> c.pending[id] == id && id < c.nextCall
    ensures forall n :: n in c.outcomes && c.outcomes[n].Fulfilled? ==> c.outcomes[n].response.Id() == n
    ensures forall n :: n in c.outcomes ==> !c.outcomes[n].Broken?
  {
    CourseKeepsPromises(Fresh, es, c);
  }

  lemma {:induction false} CourseThen(c: ClientState, es: seq<PromiseEvent>, c': ClientState, e: PromiseEvent)
    requires Course(c, es, c') && CanHappen(c', e)
    ensures Course(c, es + [e], Happen(c', e))
    decreases |es|
  {
    hide Happen, CanHappen;
    if es == [] {
      assert Course(Happen(c', e), [], Happen(c', e));
      assert [e][1..] == [];
    } else {
      CourseThen(Happen(c, es[0]), es[1..], c', e);
      assert (es + [e])[1..] == es[1..] + [e];
    }
  }

  lemma {:induction false} TakeIds(c: ClientState, es: seq<PromiseEvent>, c': ClientState, k: nat)
    returns (es': seq<PromiseEvent>)
    requires Course(c, es, c')
    ensures Course(c, es', c'.(nextCall := c'.nextCall + k))
  {
    hide Course;
    if k == 0 {
      es' := es;
    } else {
      es' := TakeIds(c, es, c', k - 1);
      CourseThen(c, es', c'.(nextCall := c'.nextCall + k - 1), IdTaken);
      es' := es' + [IdTaken];
    }
  }

  /**
   * Without that bound the promises collide. For every call there is a course in which nothing fails and
   * still its promise is destroyed unresolved: the call 2^64 later stores its own under the same id.
   */
  lemma ReusedIdBreaksPromise(call: nat) returns (es: seq<PromiseEvent>, c: ClientState)
    requires call >= 1
    ensures Course(Fresh, es, c) && c.nextCall == call + ID_COUNT + 1
    ensures call in c.outcomes && c.outcomes[call] == Broken
  {
    hide Course;
    assert Course(Fresh, [], Fresh) by { EmptyCourse(); }
    es := TakeIds(Fresh, [], Fresh, call);
    c := Fresh.(nextCall := call + 1);
    CourseThen(Fresh, es, c, Stored(call));
    es, c := es + [Stored(call)], c.Register(call);
    es := TakeIds(Fresh, es, c, ID_COUNT);
    c := c.(nextCall := call + 1 + ID_COUNT);
    CourseThen(Fresh, es, c, Stored(call + ID_COUNT));
    assert WireId(call + ID_COUNT) == WireId(call);
    es, c := es + [Stored(call + ID_COUNT)], c.Register(call + ID_COUNT);
  }

  lemma EmptyCourse()
    ensures Course(Fresh, [], Fresh)
  {
  }
}
