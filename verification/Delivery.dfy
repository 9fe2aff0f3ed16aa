/**
 * What becomes of a call's promise, over runs of client and node together: each way of resolving it does so
 * at once and for good, and an undisturbed request comes back with the node's answer to it.
 */
module Delivery {
  import opened Bytes
  import opened Framing
  import opened ThreadSafeQueue
  import opened NodeTcpClient
  import N = NodeTcpServer
  import C = Correlation
  import A = AtMostOnce
  import R = IdCollision

  type System = C.System
  type Action = C.Action

  /** The promise of call n is out of the map, resolved in some way. */
  predicate Settled(s: System, n: nat) {
    n !in s.client.pending && n in s.client.outcomes
  }

  /** Resolving under an id settles the call it belongs to, and in the given way if it was pending. */
  lemma ResolveSettles(c: ClientState, n: nat, r: Resolution)
    requires PromiseInv(c) && n in c.registered && n < ID_COUNT
    ensures var c' := c.Resolve(n, r);
            && n !in c'.pending && n in c'.outcomes
            && (n in c.pending ==> c'.outcomes[n] == r)
            && (n !in c.pending ==> c' == c)
  {
  }

  lemma ReachableInv(q: nat, acts: seq<Action>, s: System, n: nat)
    requires C.Run(C.Init(q), acts, s) && IdsFresh(s.client)
    ensures A.Inv(s, n) && C.Inv(s) && C.CallsOk(s) && C.TrafficOk(s) && C.ResultsOk(s)
  {
    hide C.Run, C.Init, C.CallsOk, C.TrafficOk, C.ResultsOk, A.OnceAt, A.FramesOk, A.ProducedOk, N.NodeInv;
    A.InitInv(q, n);
    A.RunKeepsInv(C.Init(q), acts, s, n);
  }

  /** A call a frame of which is anywhere under way has its promise stored. */
  lemma SentIsRegistered(s: System, n: nat)
    requires C.CallsOk(s) && A.OnceAt(s, n) && A.Copies(s, n) > 0
    ensures n in s.client.registered
  {
    hide A.Copies, PromiseInv;
  }

  lemma IdOfCall(s: System, n: nat)
    requires C.CallsOk(s) && IdsFresh(s.client) && n in s.stages
    ensures WireId(n) == n < ID_COUNT
  {
    hide PromiseInv;
  }

  /** wait_for gave up: the promise has failed by the timeout, unless something else was faster. */
  lemma TimeoutSettles(q: nat, acts: seq<Action>, s: System, n: nat)
    requires C.Run(C.Init(q), acts, s) && IdsFresh(s.client) && C.Enabled(s, C.ExpireRequest(n))
    ensures var s' := C.Step(s, C.ExpireRequest(n));
            && Settled(s', n) && C.At(s', n, C.Done([]))
            && (n in s.client.pending ==> s'.client.outcomes[n] == Failed(RequestTimeout))
  {
    hide C.Run, C.Init, PromiseInv, C.ResultsOk, C.TrafficOk, ClientState.Resolve;
    ReachableInv(q, acts, s, n);
    IdOfCall(s, n);
    ResolveSettles(s.client, n, Failed(RequestTimeout));
  }

  /** The push gave up: the promise is abandoned. */
  lemma PushFailureSettles(q: nat, acts: seq<Action>, s: System, n: nat)
    requires C.Run(C.Init(q), acts, s) && IdsFresh(s.client) && C.Enabled(s, C.EraseAfterPushFailure(n))
    ensures var s' := C.Step(s, C.EraseAfterPushFailure(n));
            && Settled(s', n) && C.At(s', n, C.Threw)
            && (n in s.client.pending ==> s'.client.outcomes[n] == Abandoned)
  {
    hide C.Run, C.Init, PromiseInv, C.ResultsOk, C.TrafficOk, ClientState.Resolve;
    ReachableInv(q, acts, s, n);
    IdOfCall(s, n);
    ResolveSettles(s.client, n, Abandoned);
  }

  lemma OutIsCopy(s: System, i: nat)
    requires i < |s.clientOut|
    ensures A.Copies(s, s.clientOut[i].Id()) > 0
  {
    hide A.CountWires, A.CountId;
    A.CountOnce(s.clientOut, i);
  }

  /** The frame could not be sent: the promise has failed by that. */
  lemma SendFailureSettles(q: nat, acts: seq<Action>, s: System, i: nat, k: nat)
    requires C.Run(C.Init(q), acts, s) && IdsFresh(s.client) && C.Enabled(s, C.ClientSendFails(i, k))
    ensures var s' := C.Step(s, C.ClientSendFails(i, k)); var n := s.clientOut[i].Id();
            && Settled(s', n)
            && (n in s.client.pending ==> s'.client.outcomes[n] == Failed(SendFailed))
  {
    hide C.Run, C.Init, PromiseInv, C.ResultsOk, C.TrafficOk, ClientState.Resolve, A.Copies, Frame;
    var n := s.clientOut[i].Id();
    ReachableInv(q, acts, s, n);
    OutIsCopy(s, i);
    SentIsRegistered(s, n);
    ResolveSettles(s.client, n, Failed(SendFailed));
  }

  lemma AcceptedIsCopy(s: System, m: NetworkMessage)
    requires m in s.node.frames
    ensures A.Copies(s, m.Id()) > 0
  {
    hide A.CountWires, A.CountId;
    var i :| 0 <= i < |s.node.frames| && s.node.frames[i] == m;
    A.CountOnce(s.node.frames, i);
  }

  /** A reply with another id than the error id belongs to a call whose promise was stored. */
  lemma ReplyIsForRegistered(s: System, m: NetworkMessage)
    requires C.CallsOk(s) && A.ProducedOk(s) && A.OnceAt(s, m.Id())
    requires C.IsReply(s.requests, s.produced, m) && m.Id() != N.ERROR_ID
    ensures m.Id() in s.client.registered
  {
    hide PromiseInv, A.Copies, A.OnceAt;
    var n := m.Id();
    assert (s.requests[n], m) in s.produced && s.requests[n] in s.node.frames;
    assert s.requests[n].Id() == WireId(n) == n;
    AcceptedIsCopy(s, s.requests[n]);
    SentIsRegistered(s, n);
  }

  /**
   * A reply is delivered: its call is settled, by this very reply if it was pending, and a caller that
   * waits for it gets exactly this reply back. A reply under the error id changes no promise.
   */
  lemma DeliverySettles(q: nat, acts: seq<Action>, s: System, i: nat)
    requires C.Run(C.Init(q), acts, s) && IdsFresh(s.client) && C.Enabled(s, C.ClientDeliver(i))
    ensures var s' := C.Step(s, C.ClientDeliver(i)); var m := s.clientIn[i]; var n := m.Id();
            && (n == N.ERROR_ID ==> s'.client == s.client)
            && (n != N.ERROR_ID ==> Settled(s', n))
            && (n in s.client.pending ==> s'.client.outcomes[n] == Fulfilled(m))
            && (n in s.client.pending && C.At(s, n, C.Waiting) ==>
                  C.Enabled(s', C.ReturnResult(n)) && C.Step(s', C.ReturnResult(n)).stages[n] == C.Done([m]))
  {
    hide C.Run, C.Init, PromiseInv, C.ResultsOk, C.UpsOk, C.DownsOk, C.JobsOk, ClientState.Resolve, A.Copies, C.CallsOk,
         C.IsReply, A.OnceAt, A.ProducedOk, A.FramesOk, N.NodeInv, Parse, Frame;
    var m := s.clientIn[i];
    var n := m.Id();
    ReachableInv(q, acts, s, n);
    assert m in s.clientIn;
    if n == N.ERROR_ID {
      C.SystemPromises(q, acts, s);
    } else {
      ReplyIsForRegistered(s, m);
      assert PromiseInv(s.client) by { CallsHavePromises(s); }
      ResolveSettles(s.client, n, Fulfilled(m));
    }
  }

  lemma CallsHavePromises(s: System)
    requires C.CallsOk(s)
    ensures PromiseInv(s.client)
  {
    hide PromiseInv;
  }

  // ---------- a promise nobody waits for ----------

  /** The call was left by an exception, and its promise is still in the map. */
  predicate Leaked(s: System, n: nat) {
    C.At(s, n, C.Threw) && n in s.client.pending
  }

  lemma NotUnderWay(s: System, n: nat)
    requires A.OnceAt(s, n) && C.At(s, n, C.Threw)
    ensures (forall m :: m in s.clientOut ==> m.Id() != n) && (forall m :: m in s.node.frames ==> m.Id() != n)
  {
    hide A.Copies, A.CountId, A.CountWires;
    forall m | m in s.clientOut
      ensures m.Id() != n
    {
      var i :| 0 <= i < |s.clientOut| && s.clientOut[i] == m;
      OutIsCopy(s, i);
    }
    forall m | m in s.node.frames
      ensures m.Id() != n
    {
      AcceptedIsCopy(s, m);
    }
  }

  lemma NoReplyUnderWay(s: System, n: nat)
    requires A.OnceAt(s, n) && A.ProducedOk(s) && C.CallsOk(s) && IdsFresh(s.client) && C.At(s, n, C.Threw)
    requires C.AllReplies(s.requests, s.produced, s.clientIn)
    ensures forall m :: m in s.clientIn ==> m.Id() != n
  {
    hide A.OnceAt, PromiseInv;
    NotUnderWay(s, n);
    IdOfCall(s, n);
  }

  lemma ResolveKeepsOther(c: ClientState, id: u64, r: Resolution, n: nat)
    requires n in c.pending && id != n
    ensures n in c.Resolve(id, r).pending
  {
  }

  lemma RegisterKeepsOther(c: ClientState, call: nat, n: nat)
    requires n in c.pending
    ensures n in c.Register(call).pending
  {
  }

  lemma CallerLeavesLeak(s: System, a: Action, n: nat)
    requires C.CallsOk(s) && IdsFresh(s.client) && Leaked(s, n) && C.Enabled(s, a) && C.OfCaller(a)
    ensures Leaked(C.CallerStep(s, a), n)
  {
    hide ClientState.Resolve, ClientState.Register, PromiseInv, RequestFrame;
    match a
    case StorePromise(k) => RegisterKeepsOther(s.client, k, n);
    case EraseAfterPushFailure(k) =>
      IdOfCall(s, k);
      ResolveKeepsOther(s.client, k, Abandoned, n);
    case ExpireRequest(k) =>
      IdOfCall(s, k);
      ResolveKeepsOther(s.client, k, Failed(RequestTimeout), n);
    case _ =>
  }

  lemma ClientLeavesLeak(s: System, a: Action, n: nat)
    requires Leaked(s, n) && C.Enabled(s, a) && !C.OfCaller(a) && !C.OfNode(a) && !a.ClientFailPending?
    requires forall m :: m in s.clientOut || m in s.clientIn ==> m.Id() != n
    ensures Leaked(C.ClientStep(s, a), n)
  {
    hide ClientState.Resolve, Parse, Frame;
    match a
    case ClientSendFails(i, _) => ResolveKeepsOther(s.client, s.clientOut[i].Id(), Failed(SendFailed), n);
    case ClientDeliver(i) => ResolveKeepsOther(s.client, s.clientIn[i].Id(), Fulfilled(s.clientIn[i]), n);
    case _ =>
  }

  lemma NodeLeavesLeak(s: System, a: Action, n: nat)
    requires Leaked(s, n) && C.Enabled(s, a) && C.OfNode(a)
    ensures Leaked(C.NodeStep(s, a), n)
  {
    hide Parse, Frame, N.Step;
  }

  lemma StepLeavesLeak(s: System, a: Action, n: nat)
    requires A.Inv(s, n) && IdsFresh(s.client) && Leaked(s, n) && C.Enabled(s, a) && !a.ClientFailPending?
    ensures Leaked(C.Step(s, a), n)
  {
    hide Leaked, A.OnceAt, A.FramesOk, A.ProducedOk, N.NodeInv, C.CallerStep, C.ClientStep, C.NodeStep, C.CallsOk,
         C.ResultsOk, C.AllReplies, C.AllRequests, C.UpsOk, C.DownsOk, C.JobsOk, C.Enabled;
    assert C.At(s, n, C.Threw) by { LeakedThrew(s, n); }
    if C.OfCaller(a) {
      CallerLeavesLeak(s, a, n);
    } else if C.OfNode(a) {
      NodeLeavesLeak(s, a, n);
    } else {
      NotUnderWay(s, n);
      NoReplyUnderWay(s, n);
      ClientLeavesLeak(s, a, n);
    }
  }

  lemma LeakedThrew(s: System, n: nat)
    requires Leaked(s, n)
    ensures C.At(s, n, C.Threw)
  {
  }

  lemma {:induction false} LeakLasts(s: System, acts: seq<Action>, s': System, n: nat)
    requires A.Inv(s, n) && Leaked(s, n) && C.Run(s, acts, s') && IdsFresh(s'.client)
    requires forall a :: a in acts ==> !a.ClientFailPending?
    ensures Leaked(s', n)
    decreases |acts|
  {
    hide A.Inv, Leaked, C.Step, C.Enabled;
    if acts != [] {
      var s1 := C.Step(s, acts[0]);
      assert acts[0] in acts;
      C.RunMonotone(s, acts, s');
      assert C.Run(s1, [], s1);
      OneStepRun(s, acts[0]);
      C.RunMonotone(s1, acts[1..], s');
      A.RunKeepsInv(s, [acts[0]], s1, n);
      StepLeavesLeak(s, acts[0], n);
      LeakLasts(s1, acts[1..], s', n);
    }
  }

  lemma OneStepRun(s: System, a: Action)
    requires C.Enabled(s, a)
    ensures C.Run(s, [a], C.Step(s, a))
  {
    hide C.Step, C.Enabled;
    assert C.Run(C.Step(s, a), [], C.Step(s, a));
    assert [a][1..] == [];
  }

  /**
   * A request whose serialization throws after its promise was stored leaves that promise in the map: over
   * every run it stays there, unresolved, until a disconnect sweeps the map.
   */
  lemma SerializationFailureLeaks(q: nat, before: seq<Action>, s: System, n: nat, acts: seq<Action>, s': System)
    requires C.Run(C.Init(q), before, s) && C.Enabled(s, C.SerializationThrows(n)) && n in s.client.pending
    requires C.Run(C.Step(s, C.SerializationThrows(n)), acts, s') && IdsFresh(s'.client)
    requires forall a :: a in acts ==> !a.ClientFailPending?
    ensures Leaked(s', n) && n !in s'.client.outcomes
  {
    hide C.Run, C.Init, A.Inv, C.Inv, C.CallsOk, C.TrafficOk, C.ResultsOk;
    var a := C.SerializationThrows(n);
    var s1 := C.Step(s, a);
    C.RunMonotone(s1, acts, s');
    C.StepMonotone(s, a);
    A.InitInv(q, n);
    A.RunKeepsInv(C.Init(q), before, s, n);
    OneStepRun(s, a);
    A.RunKeepsInv(s, [a], s1, n);
    LeakLasts(s1, acts, s', n);
    A.RunKeepsInv(s1, acts, s', n);
    PendingUnresolved(s', n);
  }

  lemma PendingUnresolved(s: System, n: nat)
    requires A.Inv(s, n) && n in s.client.pending
    ensures n !in s.client.outcomes
  {
    hide A.OnceAt, A.FramesOk, A.ProducedOk, N.NodeInv, C.TrafficOk, C.ResultsOk;
  }

  // ---------- an undisturbed request ----------

  lemma AnswerParses(request: NetworkMessage, o: N.HandlerOutcome)
    requires o.Replies? ==> |o.body| <= MAX_BODY_SIZE
    ensures Parse([] + Frame(N.Process(request, o))) == Message(N.Process(request, o), [])
  {
    hide N.Process, Parse, Frame, NetworkMessage.Validate;
    N.ResponsesValid(request, o);
    C.ProcessConsistent(request, o);
    R.FramesParse(N.Process(request, o));
  }

  /** The node accepts the only frame it has and processes it. */
  lemma NodeBegins(q: nat, s: System, o: N.HandlerOutcome) returns (s': System)
    requires R.Reachable(q, s) && s.node == N.Start(q) && |s.nodeIn| == 1
    requires o.Replies? ==> |o.body| <= MAX_BODY_SIZE
    ensures R.Reachable(q, s') && s'.node.sendQueue == Fifo([], q, false)
    ensures s'.node.jobs == map[0 := N.Job(s.nodeIn[0], N.Replying(N.Process(s.nodeIn[0], o), true))]
    ensures s' == s.(node := s'.node, nodeIn := [], produced := s'.produced)
  {
    hide R.Reachable, N.Process, C.ClientStep, C.CallerStep, Parse, Frame, NetworkMessage.Validate;
    s' := R.Reaches(q, s, C.NodeAccept(0));
    s' := R.Reaches(q, s', C.NodeWork(N.Begin(0, o)));
  }

  /** The answer goes through the send queue. */
  lemma NodeReplies(q: nat, s: System, m: NetworkMessage) returns (s': System)
    requires q > 0 && R.Reachable(q, s) && s.node.sendQueue == Fifo([], q, false) && s.nodeOut == []
    requires 0 in s.node.jobs && s.node.jobs[0].stage == N.Replying(m, true)
    ensures R.Reachable(q, s') && s'.nodeOut == [m]
    ensures s' == s.(node := s'.node, nodeOut := s'.nodeOut)
  {
    hide R.Reachable, C.ClientStep, C.CallerStep, Parse, Frame;
    s' := R.Reaches(q, s, C.NodeWork(N.PushReply(0, false)));
    s' := R.Reaches(q, s', C.NodePop);
  }

  lemma AnswerTravels(q: nat, s: System, m: NetworkMessage) returns (s': System)
    requires R.Reachable(q, s) && s.nodeOut == [m] && s.downs == [C.NewWire] && s.clientIn == []
    requires Parse([] + Frame(m)) == Message(m, [])
    ensures R.Reachable(q, s') && s'.clientIn == [m]
    ensures s' == s.(nodeOut := [], downs := s'.downs, clientIn := s'.clientIn)
  {
    hide R.Reachable, Parse, Frame, C.CallerStep;
    s' := R.Reaches(q, s, C.NodeSend(0, 0));
    s' := R.Reaches(q, s', C.ClientReceive(0));
  }

  /**
   * For every request and whatever the handler does with it, within the size limit, there is a run in which
   * the caller gets back exactly the node's answer to this request.
   */
  lemma RequestIsAnswered(q: nat, t: u16, body: seq<byte>, ts: u64, o: N.HandlerOutcome)
    returns (acts: seq<Action>, s: System)
    requires q > 0 && |body| <= MAX_BODY_SIZE && (o.Replies? ==> |o.body| <= MAX_BODY_SIZE)
    ensures C.Run(C.Init(q), acts, s) && 1 in s.requests && IsFrameOf(s.requests[1], 1, t, body, ts)
    ensures C.At(s, 1, C.Done([N.Process(s.requests[1], o)]))
  {
    hide R.Reachable, RequestFrame, N.Process, IsFrameOf, Parse, Frame, N.Start, C.Run, C.Init;
    var m := RequestFrame(1, t, body, ts);
    s := R.FirstRequest(q, t, body, ts);
    s := NodeBegins(q, s, o);
    s := NodeReplies(q, s, N.Process(m, o));
    AnswerParses(m, o);
    s := AnswerTravels(q, s, N.Process(m, o));
    s := AnswerReturns(q, s, N.Process(m, o));
    FrameCarriesRequest(1, t, body, ts);
    acts := RunTo(q, s);
  }

  lemma RunTo(q: nat, s: System) returns (acts: seq<Action>)
    requires R.Reachable(q, s)
    ensures C.Run(C.Init(q), acts, s)
  {
    hide C.Run, C.Init;
    acts :| C.Run(C.Init(q), acts, s);
  }

  lemma AnswerReturns(q: nat, s: System, m: NetworkMessage) returns (s': System)
    requires R.Reachable(q, s) && s.clientIn == [m] && m.Id() == 1
    requires s.client.pending == map[1 := 1] && s.stages == map[1 := C.Waiting]
    ensures R.Reachable(q, s') && C.At(s', 1, C.Done([m])) && s'.requests == s.requests
  {
    hide R.Reachable, Parse, Frame, C.NodeStep;
    s' := R.Reaches(q, s, C.ClientDeliver(0));
    s' := R.Reaches(q, s', C.ReturnResult(1));
  }
}
