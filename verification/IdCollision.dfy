/**
 * Why correlation needs fewer than 2^64 - 1 requests: a run of client and node at whose end a caller is
 * handed the refusal of another caller's request.
 */
module IdCollision {
  import opened Bytes
  import opened Framing
  import opened ThreadSafeQueue
  import opened NodeTcpClient
  import N = NodeTcpServer
  import C = Correlation

  type System = C.System
  type Action = C.Action

  const LAST_CALL := ID_COUNT - 1

  ghost predicate Reachable(q: nat, s: System) {
    exists acts :: C.Run(C.Init(q), acts, s)
  }

  lemma {:induction false} RunThen(s: System, acts: seq<Action>, s': System, a: Action)
    requires C.Run(s, acts, s') && C.Enabled(s', a)
    ensures C.Run(s, acts + [a], C.Step(s', a))
    decreases |acts|
  {
    hide C.Step, C.Enabled;
    if acts == [] {
      assert C.Run(C.Step(s', a), [], C.Step(s', a));
      assert [a][1..] == [];
    } else {
      RunThen(C.Step(s, acts[0]), acts[1..], s', a);
      assert (acts + [a])[1..] == acts[1..] + [a];
    }
  }

  lemma Reaches(q: nat, s: System, a: Action) returns (s': System)
    requires Reachable(q, s) && C.Enabled(s, a)
    ensures s' == C.Step(s, a) && Reachable(q, s')
  {
    hide C.Run, C.Step, C.Enabled, C.Init;
    var acts :| C.Run(C.Init(q), acts, s);
    RunThen(C.Init(q), acts, s, a);
    s' := C.Step(s, a);
  }

  lemma InitReachable(q: nat)
    ensures Reachable(q, C.Init(q))
  {
    assert C.Run(C.Init(q), [], C.Init(q));
  }

  /** What the node answers to a frame its pool refused. */
  function Refusal(m: NetworkMessage): NetworkMessage {
    N.ErrorResponse(m.header.messageType, "Server busy", N.ERROR_ID)
  }

  lemma FramesParse(m: NetworkMessage)
    requires m.Consistent() && m.Validate() == OK
    ensures Parse([] + Frame(m)) == Message(m, [])
  {
    ParseFrame(m, []);
    assert [] + Frame(m) == Frame(m) + [];
  }

  lemma RequestParses(n: nat, t: u16, body: seq<byte>, ts: u64)
    requires |body| <= MAX_BODY_SIZE
    ensures var m := RequestFrame(n, t, body, ts); Parse([] + Frame(m)) == Message(m, [])
  {
    MadeMessageValid(t, body, 0);
    FramesParse(RequestFrame(n, t, body, ts));
  }

  lemma RefusalParses(m: NetworkMessage)
    ensures Parse([] + Frame(Refusal(m))) == Message(Refusal(m), []) && Refusal(m).Id() == N.ERROR_ID
  {
    N.ErrorValid(m.header.messageType, "Server busy", N.ERROR_ID);
    C.ErrorConsistent(m.header.messageType, "Server busy", N.ERROR_ID);
    FramesParse(Refusal(m));
  }

  lemma KeepsQueue(c: ClientState, n: nat)
    ensures c.Register(n).sendQueue == c.sendQueue
  {
  }

  /** A call takes its id, stores its promise and gets its frame into the queue. */
  lemma Issue(q: nat, s: System, t: u16, body: seq<byte>, ts: u64) returns (s': System)
    requires Reachable(q, s) && s.client.connected && s.client.sendQueue == Fifo([], 100, false)
    requires |body| <= MAX_BODY_SIZE
    ensures var n := s.client.nextCall; var m := RequestFrame(n, t, body, ts);
            && Reachable(q, s')
            && s' == s.(client := s.client.TakeId().Register(n).(sendQueue := Fifo([m], 100, false)),
                        requests := s.requests[n := m], stages := s.stages[n := C.Waiting])
  {
    hide Reachable, RequestFrame, ClientState.Register, C.ClientStep, C.NodeStep;
    var n := s.client.nextCall;
    KeepsQueue(s.client.TakeId(), n);
    s' := Reaches(q, s, C.IssueCall(t, body, ts));
    s' := Reaches(q, s', C.StorePromise(n));
    s' := Reaches(q, s', C.PushRequest(n, false));
    assert s.stages[n := C.Issued][n := C.Registered][n := C.Waiting] == s.stages[n := C.Waiting];
  }

  /** The first call's frame reaches the node. */
  lemma FirstRequest(q: nat, t: u16, body: seq<byte>, ts: u64) returns (s: System)
    requires |body| <= MAX_BODY_SIZE
    ensures Reachable(q, s) && s.client.connected && s.client.sendQueue == Fifo([], 100, false)
    ensures s.client.nextCall == 2 && s.client.pending == map[1 := 1] && s.client.outcomes == map[]
    ensures var m := RequestFrame(1, t, body, ts); s.nodeIn == [m] && s.requests == map[1 := m]
    ensures s.stages == map[1 := C.Waiting] && s.produced == {}
    ensures s.node == N.Start(q) && s.nodeOut == [] && s.clientIn == [] && s.downs == [C.NewWire]
  {
    hide Reachable, RequestFrame, Parse, Frame;
    InitReachable(q);
    s := Issue(q, C.Init(q), t, body, ts);
    s := Reaches(q, s, C.ClientPop);
    s := Reaches(q, s, C.ClientSend(0));
    RequestParses(1, t, body, ts);
    s := Reaches(q, s, C.NodeReceive(0));
  }

  /** k - 1 ids are taken, only the first promise is stored, and the refusal of call 1 waits to be delivered. */
  ghost predicate RefusalWaits(s: System, k: nat) {
    && s.client.connected && s.client.sendQueue == Fifo([], 100, false)
    && s.client.nextCall == k && s.client.pending == map[1 := 1] && s.client.outcomes == map[]
    && s.clientIn == [Refusal(RequestFrame(1, 0, [], 0))] && s.produced == {}
    && 1 in s.requests && s.requests[1] == RequestFrame(1, 0, [], 0)
  }

  /** The node refuses the first call's frame. */
  lemma RefusalQueued(q: nat, s: System) returns (s': System)
    requires q > 0 && Reachable(q, s) && s.node == N.Start(q) && |s.nodeIn| == 1 && s.nodeOut == []
    ensures Reachable(q, s') && s'.nodeOut == [Refusal(s.nodeIn[0])]
    ensures s' == s.(node := s'.node, nodeIn := [], nodeOut := s'.nodeOut)
  {
    hide Reachable, N.ErrorResponse, C.ClientStep, C.CallerStep, Parse;
    s' := Reaches(q, s, C.NodeRefuse(0, false));
    s' := Reaches(q, s', C.NodePop);
  }

  /** The answer, under the error id, reaches the client. */
  lemma RefusalSent(q: nat, s: System, m: NetworkMessage) returns (s': System)
    requires Reachable(q, s) && s.nodeOut == [Refusal(m)] && s.downs == [C.NewWire] && s.clientIn == []
    ensures Reachable(q, s') && s'.clientIn == [Refusal(m)]
    ensures s' == s.(nodeOut := [], downs := s'.downs, clientIn := s'.clientIn)
  {
    hide Reachable, Refusal, Parse, Frame, C.CallerStep;
    s' := Reaches(q, s, C.NodeSend(0, 0));
    RefusalParses(m);
    s' := Reaches(q, s', C.ClientReceive(0));
  }

  lemma RefusalArrives(q: nat) returns (s: System)
    requires q > 0
    ensures Reachable(q, s) && RefusalWaits(s, 2)
  {
    hide Reachable, RequestFrame, Refusal, N.Start;
    s := FirstRequest(q, 0, [], 0);
    s := RefusalQueued(q, s);
    s := RefusalSent(q, s, RequestFrame(1, 0, [], 0));
  }

  lemma OneMoreCall(q: nat, s: System, k: nat) returns (s': System)
    requires Reachable(q, s) && RefusalWaits(s, k) && k > 1
    ensures Reachable(q, s') && RefusalWaits(s', k + 1)
  {
    hide Reachable, RequestFrame, N.ErrorResponse;
    s' := Reaches(q, s, C.IssueCall(0, [], 0));
  }

  lemma {:induction false} ManyCalls(q: nat, k: nat) returns (s: System)
    requires q > 0 && k >= 2
    ensures Reachable(q, s) && RefusalWaits(s, k)
  {
    hide Reachable, RefusalWaits;
    if k == 2 {
      s := RefusalArrives(q);
    } else {
      s := ManyCalls(q, k - 1);
      s := OneMoreCall(q, s, k - 1);
    }
  }

  /** The call whose id is the error id gets the waiting refusal. */
  lemma LastCall(q: nat, s: System) returns (s': System)
    requires Reachable(q, s) && RefusalWaits(s, LAST_CALL)
    ensures var m := Refusal(RequestFrame(1, 0, [], 0));
            && Reachable(q, s') && s'.client.nextCall == ID_COUNT && s'.produced == {}
            && C.At(s', LAST_CALL, C.Done([m])) && LAST_CALL in s'.requests
            && 1 in s'.requests && m == Refusal(s'.requests[1])
  {
    hide Reachable, RequestFrame, N.ErrorResponse, Parse, Frame, C.NodeStep;
    s' := Issue(q, s, 0, [], 0);
    assert WireId(LAST_CALL) == LAST_CALL == N.ERROR_ID;
    s' := Reaches(q, s', C.ClientDeliver(0));
    s' := Reaches(q, s', C.ReturnResult(LAST_CALL));
  }

  /**
   * The bound is sharp. For every size of the node's queue there is a run that takes one id more than
   * correlation allows, at whose end a caller has got a response the node never produced for its request:
   * it is the refusal of call 1.
   */
  lemma ErrorIdCollides(q: nat) returns (acts: seq<Action>, s: System, n: nat)
    requires q > 0
    ensures C.Run(C.Init(q), acts, s) && s.client.nextCall == ID_COUNT
    ensures n in s.stages && n in s.requests && 1 in s.requests && n != 1
    ensures var m := Refusal(s.requests[1]);
            s.stages[n] == C.Done([m]) && (s.requests[n], m) !in s.produced
  {
    hide C.Run, C.Init, RefusalWaits, RequestFrame, N.ErrorResponse;
    s := ManyCalls(q, LAST_CALL);
    s := LastCall(q, s);
    acts :| C.Run(C.Init(q), acts, s);
    n := LAST_CALL;
  }
}
