/**
 * Client and node joined by two byte streams: callers, send and receive loops, worker pool, timeouts,
 * failures, disconnects and reconnects, in every interleaving. The theorem: what a caller gets back is
 * what the node produced from that caller's own request.
 */
module Correlation {
  import opened Bytes
  import opened Framing
  import opened ThreadSafeQueue
  import opened NodeTcpClient
  import NodeTcpServer

  type NodeState = NodeTcpServer.NodeState

  // ---------- one direction of a connection ----------

  /** Bytes under way; sent lists the messages they stem from, oldest first; a failed write closes the wire. */
  datatype Wire = Wire(bytes: seq<byte>, sent: seq<NetworkMessage>, open: bool) {
    function Put(m: NetworkMessage): Wire {
      Wire(bytes + Frame(m), sent + [m], open)
    }

    /** A write that fails after k bytes; on a closed wire nothing happens. */
    function PutFails(m: NetworkMessage, k: nat): Wire
      requires open ==> k < |Frame(m)|
    {
      if open then Wire(bytes + Frame(m)[..k], sent + [m], false) else this
    }

    function Take(): Wire
      requires Parse(bytes).Message?
    {
      Wire(Parse(bytes).rest, if sent == [] then [] else sent[1..], open)
    }
  }

  const NewWire := Wire([], [], true)

  /** The wire of the newest connection. */
  function Last(wires: seq<Wire>): Wire {
    if wires == [] then NewWire.(open := false) else wires[|wires| - 1]
  }

  function SetLast(wires: seq<Wire>, w: Wire): seq<Wire> {
    if wires == [] then wires else wires[|wires| - 1 := w]
  }

  ghost predicate WireOk(w: Wire) {
    && (forall m :: m in w.sent ==> m.Consistent())
    && w.bytes <= Frames(w.sent)
    && (w.open ==> w.bytes == Frames(w.sent))
  }

  lemma PutKeepsWire(w: Wire, m: NetworkMessage)
    requires WireOk(w) && w.open && m.Consistent()
    ensures WireOk(w.Put(m))
  {
    hide Frame;
    FramesAppend(w.sent, [m]);
    assert Frames([m]) == Frame(m) + Frames([]);
    assert Frames([m]) == Frame(m);
  }

  lemma PutFailsKeepsWire(w: Wire, m: NetworkMessage, k: nat)
    requires WireOk(w) && m.Consistent() && (w.open ==> k < |Frame(m)|)
    ensures WireOk(w.PutFails(m, k))
  {
    hide Frame;
    FramesAppend(w.sent, [m]);
    assert Frames([m]) == Frame(m) + Frames([]);
    assert Frames([m]) == Frame(m);
    assert w.open ==> Frame(m) == Frame(m)[..k] + Frame(m)[k..];
  }

  /** The next message read off the bytes is the oldest message sent. */
  lemma TakeKeepsWire(w: Wire)
    requires WireOk(w) && Parse(w.bytes).Message?
    ensures WireOk(w.Take()) && w.sent != [] && Parse(w.bytes).m == w.sent[0] && Parse(w.bytes).m.Consistent()
  {
    hide Parse, Frame;
    var m, rest := Parse(w.bytes).m, Parse(w.bytes).rest;
    var more := Frames(w.sent)[|w.bytes|..];
    ParseSound(w.bytes);
    assert Frames(w.sent) == Frame(m) + (rest + more) by { assert w.bytes + more == Frames(w.sent); }
    assert w.sent != [] by { FrameNotEmpty(m); }
    ParseFrame(m, rest + more);
    ParseFrame(w.sent[0], Frames(w.sent[1..]));
    assert Frames(w.sent[1..]) == rest + more;
    assert w.open ==> more == [];
  }

  lemma FrameNotEmpty(m: NetworkMessage)
    ensures |Frame(m)| > 0
  {
  }

  // ---------- the system ----------

  /** Where a call of SendRequest is. */
  datatype CallStage =
    | Issued        // id taken, promise not stored yet
    | Registered    // promise stored, request not pushed yet
    | NotPushed     // TryPush gave up, promise not erased yet
    | Threw         // left by an exception
    | Waiting       // holds the future
    | GaveUp        // wait_for gave up, pending_mutex not taken yet
    | Done(result: seq<NetworkMessage>)  // [] stands for the null pointer

  datatype System = System(
    client: ClientState,
    node: NodeState,
    requests: map<nat, NetworkMessage>,
    stages: map<nat, CallStage>,
    ups: seq<Wire>,
    downs: seq<Wire>,
    clientOut: seq<NetworkMessage>,
    clientIn: seq<NetworkMessage>,
    nodeIn: seq<NetworkMessage>,
    nodeOut: seq<NetworkMessage>,
    produced: set<(NetworkMessage, NetworkMessage)>)

  datatype Action =
    // callers
    | IssueCall(messageType: u16, body: seq<byte>, timestamp: u64)
    | StorePromise(n: nat)
    | SerializationThrows(n: nat)
    | PushRequest(n: nat, timedOut: bool)
    | EraseAfterPushFailure(n: nat)
    | GiveUpWaiting(n: nat)
    | ExpireRequest(n: nat)
    | ReturnResult(n: nat)
    // client threads
    | ClientPop
    | ClientSend(i: nat)
    | ClientSendFails(i: nat, k: nat)
    | ClientReceive(j: nat)
    | ClientDeliver(i: nat)
    | ClientBeginDisconnect
    | ClientFailPending
    | Reconnect
    // node threads
    | NodeReceive(j: nat)
    | NodeAccept(i: nat)
    | NodeRefuse(i: nat, stopping: bool)
    | NodeWork(a: NodeTcpServer.NodeAction)
    | NodePop
    | NodeSend(i: nat, j: nat)
    | NodeSendFails(i: nat, j: nat, k: nat)

  function Init(nodeQueueSize: nat): System {
    System(Fresh.Connect(), NodeTcpServer.Start(nodeQueueSize), map[], map[], [NewWire], [NewWire], [], [], [], [], {})
  }

  function Without(ms: seq<NetworkMessage>, i: nat): seq<NetworkMessage>
    requires i < |ms|
  {
    ms[..i] + ms[i + 1..]
  }

  predicate At(s: System, n: nat, stage: CallStage) {
    n in s.stages && s.stages[n] == stage
  }

  predicate Enabled(s: System, a: Action) {
    match a
    case IssueCall(_, body, _) => s.client.connected && |body| < 0x8000_0000
    case StorePromise(n) => At(s, n, Issued)
    case SerializationThrows(n) => At(s, n, Registered)
    case PushRequest(n, _) => At(s, n, Registered) && n in s.requests
    case EraseAfterPushFailure(n) => At(s, n, NotPushed)
    case GiveUpWaiting(n) => At(s, n, Waiting)
    case ExpireRequest(n) => At(s, n, GaveUp)
    case ReturnResult(n) => At(s, n, Waiting) && n in s.client.outcomes
    case ClientPop => s.client.threadsRunning
    case ClientSend(i) => i < |s.clientOut| && s.client.connected && Last(s.ups).open
    case ClientSendFails(i, k) => i < |s.clientOut| && (Last(s.ups).open ==> k < |Frame(s.clientOut[i])|)
    case ClientReceive(j) => j < |s.downs| && Parse(s.downs[j].bytes).Message?
    case ClientDeliver(i) => i < |s.clientIn|
    case Reconnect => !s.client.connected
    case NodeReceive(j) => j < |s.ups| && Parse(s.ups[j].bytes).Message?
    case NodeAccept(i) => i < |s.nodeIn|
    case NodeRefuse(i, _) => i < |s.nodeIn|
    case NodeWork(b) => !b.Accept? && !b.Refuse? && !b.Pop? && NodeTcpServer.Enabled(s.node, b)
    case NodeSend(i, j) => i < |s.nodeOut| && j < |s.downs| && s.downs[j].open
    case NodeSendFails(i, j, k) =>
      i < |s.nodeOut| && j < |s.downs| && (s.downs[j].open ==> k < |Frame(s.nodeOut[i])|)
    case _ => true
  }

  function CallerStep(s: System, a: Action): System
    requires Enabled(s, a)
  {
    match a
    case IssueCall(t, body, ts) =>
      var n := s.client.nextCall;
      s.(client := s.client.TakeId(), requests := s.requests[n := RequestFrame(n, t, body, ts)],
         stages := s.stages[n := Issued])
    case StorePromise(n) => s.(client := s.client.Register(n), stages := s.stages[n := Registered])
    case SerializationThrows(n) => s.(stages := s.stages[n := Threw])
    case PushRequest(n, timedOut) =>
      var (q, v) := s.client.sendQueue.Push(s.requests[n]);
      if v.Blocked? && !timedOut then s
      else if v == Returned(SUCCESS, [])
      then s.(client := s.client.(sendQueue := q), stages := s.stages[n := Waiting])
      else s.(stages := s.stages[n := NotPushed])
    case EraseAfterPushFailure(n) =>
      s.(client := s.client.Resolve(WireId(n), Abandoned), stages := s.stages[n := Threw])
    case GiveUpWaiting(n) => s.(stages := s.stages[n := GaveUp])
    case ExpireRequest(n) =>
      s.(client := s.client.Resolve(WireId(n), Failed(RequestTimeout)), stages := s.stages[n := Done([])])
    case ReturnResult(n) =>
      var r := s.client.outcomes[n];
      s.(stages := s.stages[n := Done(if r.Fulfilled? then [r.response] else [])])
    case _ => s
  }

  function ClientStep(s: System, a: Action): System
    requires Enabled(s, a)
  {
    match a
    case ClientPop =>
      var (q, v) := s.client.sendQueue.Pop();
      if v.Returned? then s.(client := s.client.(sendQueue := q), clientOut := s.clientOut + v.got) else s
    case ClientSend(i) =>
      s.(ups := SetLast(s.ups, Last(s.ups).Put(s.clientOut[i])), clientOut := Without(s.clientOut, i))
    case ClientSendFails(i, k) =>
      s.(client := s.client.Resolve(s.clientOut[i].Id(), Failed(SendFailed)),
         ups := SetLast(s.ups, Last(s.ups).PutFails(s.clientOut[i], k)),
         clientOut := Without(s.clientOut, i))
    case ClientReceive(j) =>
      s.(downs := s.downs[j := s.downs[j].Take()], clientIn := s.clientIn + [Parse(s.downs[j].bytes).m])
    case ClientDeliver(i) =>
      s.(client := s.client.Resolve(s.clientIn[i].Id(), Fulfilled(s.clientIn[i])), clientIn := Without(s.clientIn, i))
    case ClientBeginDisconnect =>
      s.(client := s.client.BeginDisconnect(), ups := SetLast(s.ups, Last(s.ups).(open := false)))
    case ClientFailPending => s.(client := s.client.FailPending())
    case Reconnect => s.(client := s.client.Connect(), ups := s.ups + [NewWire], downs := s.downs + [NewWire])
    case _ => s
  }

  function NodeStep(s: System, a: Action): System
    requires Enabled(s, a)
  {
    match a
    case NodeReceive(j) =>
      s.(ups := s.ups[j := s.ups[j].Take()], nodeIn := s.nodeIn + [Parse(s.ups[j].bytes).m])
    case NodeAccept(i) => s.(node := s.node.Accept(s.nodeIn[i]), nodeIn := Without(s.nodeIn, i))
    case NodeRefuse(i, stopping) =>
      var (node, v) := s.node.Refuse(s.nodeIn[i], if stopping then "Server shutting down" else "Server busy");
      s.(node := node, nodeIn := if v.Blocked? then s.nodeIn else Without(s.nodeIn, i))
    case NodeWork(b) =>
      var node := NodeTcpServer.Step(s.node, b);
      s.(node := node,
         produced := if b.Begin? || b.PushThrew?
                     then s.produced + {(node.jobs[b.n].request, node.jobs[b.n].stage.response)}
                     else s.produced)
    case NodePop =>
      var (node, v) := s.node.Pop();
      if v.Returned? then s.(node := node, nodeOut := s.nodeOut + v.got) else s
    case NodeSend(i, j) =>
      s.(downs := s.downs[j := s.downs[j].Put(s.nodeOut[i])], nodeOut := Without(s.nodeOut, i))
    case NodeSendFails(i, j, k) =>
      s.(downs := s.downs[j := s.downs[j].PutFails(s.nodeOut[i], k)], nodeOut := Without(s.nodeOut, i))
    case _ => s
  }

  predicate OfCaller(a: Action) {
    a.IssueCall? || a.StorePromise? || a.SerializationThrows? || a.PushRequest? || a.EraseAfterPushFailure?
    || a.GiveUpWaiting? || a.ExpireRequest? || a.ReturnResult?
  }

  predicate OfNode(a: Action) {
    a.NodeReceive? || a.NodeAccept? || a.NodeRefuse? || a.NodeWork? || a.NodePop? || a.NodeSend? || a.NodeSendFails?
  }

  function Step(s: System, a: Action): System
    requires Enabled(s, a)
  {
    if OfCaller(a) then CallerStep(s, a) else if OfNode(a) then NodeStep(s, a) else ClientStep(s, a)
  }

  predicate Run(s: System, acts: seq<Action>, s': System)
    decreases |acts|
  {
    if acts == [] then s' == s else Enabled(s, acts[0]) && Run(Step(s, acts[0]), acts[1..], s')
  }

  // ---------- provenance ----------

  /** m is the frame of the call whose id it carries. */
  predicate IsRequest(requests: map<nat, NetworkMessage>, m: NetworkMessage) {
    m.Id() in requests && requests[m.Id()] == m
  }

  /** m carries the error id, or was produced by the node from the frame of the call whose id it carries. */
  predicate IsReply(requests: map<nat, NetworkMessage>, produced: set<(NetworkMessage, NetworkMessage)>,
                    m: NetworkMessage) {
    m.Id() == NodeTcpServer.ERROR_ID || (m.Id() in requests && (requests[m.Id()], m) in produced)
  }

  ghost predicate AllRequests(requests: map<nat, NetworkMessage>, ms: seq<NetworkMessage>) {
    forall m :: m in ms ==> IsRequest(requests, m)
  }

  ghost predicate AllReplies(requests: map<nat, NetworkMessage>, produced: set<(NetworkMessage, NetworkMessage)>,
                             ms: seq<NetworkMessage>) {
    forall m :: m in ms ==> m.Consistent() && IsReply(requests, produced, m)
  }

  /** What the node may make of a request. */
  ghost predicate IsAnswer(request: NetworkMessage, response: NetworkMessage) {
    || response == NodeTcpServer.Apology(request)
    || exists o :: response == NodeTcpServer.Process(request, o)
  }

  ghost predicate CallsOk(s: System) {
    && PromiseInv(s.client)
    && s.requests.Keys == s.stages.Keys
    && (forall n :: n in s.requests ==> 1 <= n < s.client.nextCall)
    && (forall n :: n in s.requests ==> s.requests[n].Id() == WireId(n) && s.requests[n].Consistent())
    && (forall n :: n in s.client.registered <==> n in s.stages && s.stages[n] != Issued)
  }

  ghost predicate UpsOk(requests: map<nat, NetworkMessage>, ups: seq<Wire>) {
    forall w :: w in ups ==> WireOk(w) && AllRequests(requests, w.sent)
  }

  ghost predicate DownsOk(requests: map<nat, NetworkMessage>, produced: set<(NetworkMessage, NetworkMessage)>,
                          downs: seq<Wire>) {
    forall w :: w in downs ==> WireOk(w) && AllReplies(requests, produced, w.sent)
  }

  ghost predicate JobsOk(requests: map<nat, NetworkMessage>, produced: set<(NetworkMessage, NetworkMessage)>,
                         jobs: map<nat, NodeTcpServer.Job>) {
    forall n :: n in jobs ==>
      && IsRequest(requests, jobs[n].request)
      && (jobs[n].stage.Replying? ==>
            && jobs[n].stage.response.Consistent()
            && IsReply(requests, produced, jobs[n].stage.response))
  }

  /** Every message under way is a caller's request or a reply the node produced. */
  ghost predicate TrafficOk(s: System) {
    && AllRequests(s.requests, s.client.sendQueue.items)
    && AllRequests(s.requests, s.clientOut)
    && UpsOk(s.requests, s.ups)
    && AllRequests(s.requests, s.nodeIn)
    && JobsOk(s.requests, s.produced, s.node.jobs)
    && AllReplies(s.requests, s.produced, s.node.sendQueue.items)
    && AllReplies(s.requests, s.produced, s.nodeOut)
    && DownsOk(s.requests, s.produced, s.downs)
    && AllReplies(s.requests, s.produced, s.clientIn)
  }

  ghost predicate ResultsOk(s: System) {
    && (forall p :: p in s.produced ==> IsAnswer(p.0, p.1))
    && (forall n :: n in s.client.outcomes && s.client.outcomes[n].Fulfilled? ==>
          IsReply(s.requests, s.produced, s.client.outcomes[n].response))
    && (forall n :: n in s.stages && s.stages[n].Done? && s.stages[n].result != [] ==>
          n in s.client.outcomes && s.client.outcomes[n].Fulfilled?
          && s.stages[n].result == [s.client.outcomes[n].response])
  }

  ghost predicate Inv(s: System) {
    CallsOk(s) && TrafficOk(s) && ResultsOk(s)
  }

  // ---------- what a step leaves alone ----------

  /** Requests and productions only accumulate. */
  ghost predicate Grows(s: System, s': System) {
    && (forall n :: n in s.requests ==> n in s'.requests && s'.requests[n] == s.requests[n])
    && s.produced <= s'.produced
  }

  /** Nothing moved between queues, threads and wires. */
  ghost predicate SameTraffic(s: System, s': System) {
    && s'.client.sendQueue == s.client.sendQueue && s'.node == s.node
    && s'.ups == s.ups && s'.downs == s.downs
    && s'.clientOut == s.clientOut && s'.clientIn == s.clientIn
    && s'.nodeIn == s.nodeIn && s'.nodeOut == s.nodeOut
  }

  lemma GrownRequests(s: System, s': System, ms: seq<NetworkMessage>)
    requires Grows(s, s') && AllRequests(s.requests, ms)
    ensures AllRequests(s'.requests, ms)
  {
  }

  lemma GrownReplies(s: System, s': System, ms: seq<NetworkMessage>)
    requires Grows(s, s') && AllReplies(s.requests, s.produced, ms)
    ensures AllReplies(s'.requests, s'.produced, ms)
  {
  }

  lemma GrownUps(s: System, s': System, ups: seq<Wire>)
    requires Grows(s, s') && UpsOk(s.requests, ups)
    ensures UpsOk(s'.requests, ups)
  {
    hide WireOk;
    forall w | w in ups ensures AllRequests(s'.requests, w.sent) { GrownRequests(s, s', w.sent); }
  }

  lemma GrownDowns(s: System, s': System, downs: seq<Wire>)
    requires Grows(s, s') && DownsOk(s.requests, s.produced, downs)
    ensures DownsOk(s'.requests, s'.produced, downs)
  {
    hide WireOk;
    forall w | w in downs ensures AllReplies(s'.requests, s'.produced, w.sent) { GrownReplies(s, s', w.sent); }
  }

  lemma GrownJobs(s: System, s': System, jobs: map<nat, NodeTcpServer.Job>)
    requires Grows(s, s') && JobsOk(s.requests, s.produced, jobs)
    ensures JobsOk(s'.requests, s'.produced, jobs)
  {
  }

  lemma GrownTraffic(s: System, s': System)
    requires Grows(s, s') && SameTraffic(s, s') && TrafficOk(s)
    ensures TrafficOk(s')
  {
    hide UpsOk, DownsOk, JobsOk, AllRequests, AllReplies, Grows;
    GrownUps(s, s', s.ups);
    GrownDowns(s, s', s.downs);
    GrownJobs(s, s', s.node.jobs);
    GrownRequests(s, s', s.client.sendQueue.items);
    GrownRequests(s, s', s.clientOut);
    GrownRequests(s, s', s.nodeIn);
    GrownReplies(s, s', s.node.sendQueue.items);
    GrownReplies(s, s', s.nodeOut);
    GrownReplies(s, s', s.clientIn);
  }

  /** The client's promises changed by resolving at most one of them. */
  ghost predicate Resolved(c: ClientState, c': ClientState, id: u64, r: Resolution) {
    && PromiseInv(c')
    && c'.nextCall == c.nextCall && c'.registered == c.registered && c'.sendQueue == c.sendQueue
    && (forall n :: n in c.outcomes ==> n in c'.outcomes && c'.outcomes[n] == c.outcomes[n])
    && (forall n :: n in c'.outcomes && n !in c.outcomes ==> n == id && c'.outcomes[n] == r)
  }

  lemma ResolveOne(c: ClientState, id: u64, r: Resolution)
    requires PromiseInv(c) && !r.Broken? && (r.Fulfilled? ==> r.response.Id() == id)
    ensures Resolved(c, c.Resolve(id, r), id, r)
  {
    ResolveKeepsPromises(c, id, r);
  }

  // ---------- callers ----------

  lemma GrownResults(s: System, s': System)
    requires Grows(s, s') && ResultsOk(s)
    requires s'.produced == s.produced && s'.client.outcomes == s.client.outcomes
    requires forall n :: n in s'.stages && s'.stages[n].Done? ==> n in s.stages && s'.stages[n] == s.stages[n]
    ensures ResultsOk(s')
  {
    hide IsAnswer;
  }

  lemma TakeIdKeepsPromises(c: ClientState)
    requires PromiseInv(c)
    ensures PromiseInv(c.TakeId()) && c.nextCall !in c.registered && 1 <= c.nextCall
  {
  }

  lemma IssueKeepsCalls(s: System, t: u16, body: seq<byte>, ts: u64)
    requires CallsOk(s) && ResultsOk(s) && Enabled(s, IssueCall(t, body, ts))
    ensures var s' := CallerStep(s, IssueCall(t, body, ts));
            CallsOk(s') && ResultsOk(s') && Grows(s, s') && SameTraffic(s, s')
  {
    hide RequestFrame, ResultsOk, PromiseInv, NetworkMessage.Consistent;
    var n := s.client.nextCall;
    var s' := CallerStep(s, IssueCall(t, body, ts));
    FrameConsistent(n, t, body, ts);
    TakeIdKeepsPromises(s.client);
    assert n !in s.requests && n !in s.stages;
    GrownResults(s, s');
  }

  lemma FrameConsistent(n: nat, t: u16, body: seq<byte>, ts: u64)
    requires |body| < 0x8000_0000
    ensures RequestFrame(n, t, body, ts).Consistent()
  {
    MadeMessageValid(t, body, 0);
  }

  lemma StoreKeepsCalls(s: System, n: nat)
    requires CallsOk(s) && ResultsOk(s) && Enabled(s, StorePromise(n)) && IdsFresh(s.client)
    ensures var s' := Step(s, StorePromise(n));
            CallsOk(s') && ResultsOk(s') && Grows(s, s') && SameTraffic(s, s')
  {
    hide IsAnswer, PromiseInv, IsReply;
    RegisterKeepsPromises(s.client, n);
    RegisterFrame(s.client, n);
  }

  lemma RegisterFrame(c: ClientState, n: nat)
    requires PromiseInv(c) && IdsFresh(c) && 1 <= n < c.nextCall && n !in c.registered
    ensures c.Register(n).outcomes == c.outcomes && c.Register(n).registered == c.registered + {n}
    ensures c.Register(n).nextCall == c.nextCall && c.Register(n).sendQueue == c.sendQueue
  {
    assert WireId(n) == n && n !in c.pending;
  }

  lemma StageKeepsCalls(s: System, n: nat, stage: CallStage)
    requires CallsOk(s) && ResultsOk(s) && n in s.stages && s.stages[n] != Issued && stage != Issued
    requires stage.Done? && stage.result != [] ==>
               n in s.client.outcomes && s.client.outcomes[n].Fulfilled?
               && stage.result == [s.client.outcomes[n].response]
    ensures var s' := s.(stages := s.stages[n := stage]);
            CallsOk(s') && ResultsOk(s') && Grows(s, s') && SameTraffic(s, s')
  {
    hide IsAnswer, PromiseInv, IsReply;
  }

  lemma ResolveKeepsCalls(s: System, id: u64, r: Resolution)
    requires CallsOk(s) && ResultsOk(s) && !r.Broken?
    requires r.Fulfilled? ==> r.response.Id() == id && IsReply(s.requests, s.produced, r.response)
    ensures var s' := s.(client := s.client.Resolve(id, r));
            CallsOk(s') && ResultsOk(s') && Grows(s, s') && SameTraffic(s, s')
  {
    hide IsAnswer, PromiseInv, IsReply;
    ResolveOne(s.client, id, r);
    ResolvedResults(s.client, s.client.Resolve(id, r), id, r);
  }

  lemma ResolvedResults(c: ClientState, c': ClientState, id: u64, r: Resolution)
    requires Resolved(c, c', id, r)
    ensures forall n :: n in c'.outcomes ==> (n in c.outcomes && c'.outcomes[n] == c.outcomes[n]) || c'.outcomes[n] == r
  {
  }

  lemma PromisesIgnoreQueue(c: ClientState, q: Fifo<NetworkMessage>)
    requires PromiseInv(c)
    ensures PromiseInv(c.(sendQueue := q))
  {
  }

  /** The call's own frame enters the queue. */
  lemma PushKeepsTraffic(s: System, n: nat)
    requires TrafficOk(s) && n in s.requests && IsRequest(s.requests, s.requests[n])
    ensures TrafficOk(s.(client := s.client.(sendQueue := s.client.sendQueue.Push(s.requests[n]).0)))
  {
    hide IsReply, UpsOk, DownsOk, JobsOk, AllReplies, IsRequest;
  }

  lemma QueueKeepsCalls(s: System, q: Fifo<NetworkMessage>)
    requires CallsOk(s) && ResultsOk(s)
    ensures var s' := s.(client := s.client.(sendQueue := q)); CallsOk(s') && ResultsOk(s')
  {
    hide PromiseInv, IsReply, IsAnswer;
    PromisesIgnoreQueue(s.client, q);
  }

  lemma PushKeepsInv(s: System, n: nat, timedOut: bool)
    requires Inv(s) && Enabled(s, PushRequest(n, timedOut)) && IdsFresh(s.client)
    ensures Inv(CallerStep(s, PushRequest(n, timedOut)))
  {
    hide CallsOk, ResultsOk, TrafficOk, Grows, SameTraffic;
    var (q, v) := s.client.sendQueue.Push(s.requests[n]);
    OwnFrame(s, n);
    PushKeepsTraffic(s, n);
    QueueKeepsCalls(s, q);
    var s1 := s.(client := s.client.(sendQueue := q));
    var stage := if v == Returned(SUCCESS, []) then Waiting else NotPushed;
    StageKeepsCalls(s1, n, stage);
    GrownTraffic(s1, s1.(stages := s1.stages[n := stage]));
  }

  lemma OwnFrame(s: System, n: nat)
    requires CallsOk(s) && IdsFresh(s.client) && n in s.requests
    ensures IsRequest(s.requests, s.requests[n])
  {
    assert WireId(n) == n;
  }

  lemma CallerKeepsInv(s: System, a: Action)
    requires Inv(s) && Enabled(s, a) && OfCaller(a) && IdsFresh(Step(s, a).client)
    ensures Inv(Step(s, a))
  {
    hide CallsOk, ResultsOk, TrafficOk, Grows, SameTraffic;
    var s' := Step(s, a);
    match a
    case IssueCall(t, body, ts) => IssueKeepsCalls(s, t, body, ts); GrownTraffic(s, s');
    case StorePromise(n) => StoreKeepsCalls(s, n); GrownTraffic(s, s');
    case SerializationThrows(n) => StageKeepsCalls(s, n, Threw); GrownTraffic(s, s');
    case PushRequest(n, timedOut) => PushKeepsInv(s, n, timedOut);
    case EraseAfterPushFailure(n) => LeaveKeepsInv(s, n, Abandoned, Threw);
    case GiveUpWaiting(n) => StageKeepsCalls(s, n, GaveUp); GrownTraffic(s, s');
    case ExpireRequest(n) => LeaveKeepsInv(s, n, Failed(RequestTimeout), Done([]));
    case ReturnResult(n) => StageKeepsCalls(s, n, s'.stages[n]); GrownTraffic(s, s');
  }

  lemma LeaveKeepsInv(s: System, n: nat, r: Resolution, stage: CallStage)
    requires Inv(s) && n in s.stages && s.stages[n] != Issued && !r.Fulfilled? && !r.Broken?
    requires stage == Threw || stage == Done([])
    ensures Inv(s.(client := s.client.Resolve(WireId(n), r), stages := s.stages[n := stage]))
  {
    hide CallsOk, ResultsOk, TrafficOk, Grows, SameTraffic;
    var s1 := s.(client := s.client.Resolve(WireId(n), r));
    ResolveKeepsCalls(s, WireId(n), r);
    GrownTraffic(s, s1);
    StageKeepsCalls(s1, n, stage);
    GrownTraffic(s1, s1.(stages := s1.stages[n := stage]));
  }

  // ---------- client threads ----------

  lemma WireReplaced(requests: map<nat, NetworkMessage>, ups: seq<Wire>, j: nat, w: Wire)
    requires UpsOk(requests, ups) && j < |ups| && WireOk(w) && AllRequests(requests, w.sent)
    ensures UpsOk(requests, ups[j := w])
  {
    hide WireOk, AllRequests;
  }

  lemma DownReplaced(requests: map<nat, NetworkMessage>, produced: set<(NetworkMessage, NetworkMessage)>,
                     downs: seq<Wire>, j: nat, w: Wire)
    requires DownsOk(requests, produced, downs) && j < |downs| && WireOk(w) && AllReplies(requests, produced, w.sent)
    ensures DownsOk(requests, produced, downs[j := w])
  {
    hide WireOk, AllReplies;
  }

  lemma WithoutRequests(requests: map<nat, NetworkMessage>, ms: seq<NetworkMessage>, i: nat)
    requires AllRequests(requests, ms) && i < |ms|
    ensures AllRequests(requests, Without(ms, i)) && IsRequest(requests, ms[i])
  {
    hide IsRequest;
  }

  lemma WithoutReplies(requests: map<nat, NetworkMessage>, produced: set<(NetworkMessage, NetworkMessage)>,
                       ms: seq<NetworkMessage>, i: nat)
    requires AllReplies(requests, produced, ms) && i < |ms|
    ensures AllReplies(requests, produced, Without(ms, i))
    ensures IsReply(requests, produced, ms[i]) && ms[i].Consistent()
  {
    hide IsReply;
  }

  /** The newest up wire after a write of m, whole or failed. */
  lemma UpWritten(requests: map<nat, NetworkMessage>, ups: seq<Wire>, m: NetworkMessage, k: nat)
    requires UpsOk(requests, ups) && IsRequest(requests, m) && m.Consistent()
    requires Last(ups).open ==> k < |Frame(m)|
    ensures Last(ups).open ==> UpsOk(requests, SetLast(ups, Last(ups).Put(m)))
    ensures UpsOk(requests, SetLast(ups, Last(ups).PutFails(m, k)))
    ensures UpsOk(requests, SetLast(ups, Last(ups).(open := false)))
  {
    hide WireOk, Frame, IsRequest;
    if ups != [] {
      var w := Last(ups);
      assert w in ups;
      if w.open { PutKeepsWire(w, m); }
      PutFailsKeepsWire(w, m, k);
      ClosedKeepsWire(w);
    }
  }

  lemma ClosedKeepsWire(w: Wire)
    requires WireOk(w)
    ensures WireOk(w.(open := false))
  {
  }

  lemma UpsClosed(requests: map<nat, NetworkMessage>, ups: seq<Wire>)
    requires UpsOk(requests, ups)
    ensures UpsOk(requests, SetLast(ups, Last(ups).(open := false)))
  {
    hide WireOk, AllRequests;
    if ups != [] { ClosedKeepsWire(Last(ups)); }
  }

  lemma ClientPopKeepsInv(s: System)
    requires Inv(s) && Enabled(s, ClientPop)
    ensures Inv(ClientStep(s, ClientPop))
  {
    hide CallsOk, ResultsOk, UpsOk, DownsOk, JobsOk, AllReplies, IsRequest;
    QueueKeepsCalls(s, s.client.sendQueue.Pop().0);
    SameCalls(s.(client := s.client.(sendQueue := s.client.sendQueue.Pop().0)), ClientStep(s, ClientPop));
  }

  /** Calls and results do not depend on where messages are. */
  lemma SameCalls(s: System, s': System)
    requires CallsOk(s) && ResultsOk(s)
    requires s'.client == s.client && s'.requests == s.requests && s'.stages == s.stages && s'.produced == s.produced
    ensures CallsOk(s') && ResultsOk(s')
  {
    hide PromiseInv, IsReply, IsAnswer;
  }

  lemma ConsistentRequest(s: System, m: NetworkMessage)
    requires CallsOk(s) && IsRequest(s.requests, m)
    ensures m.Consistent()
  {
  }

  lemma ClientSendKeepsInv(s: System, i: nat)
    requires Inv(s) && Enabled(s, ClientSend(i))
    ensures Inv(ClientStep(s, ClientSend(i)))
  {
    hide CallsOk, ResultsOk, UpsOk, DownsOk, JobsOk, AllReplies, AllRequests, IsRequest, Frame, Last, SetLast;
    var m := s.clientOut[i];
    WithoutRequests(s.requests, s.clientOut, i);
    ConsistentRequest(s, m);
    FrameNotEmpty(m);
    UpWritten(s.requests, s.ups, m, 0);
    SameCalls(s, ClientStep(s, ClientSend(i)));
  }

  lemma ClientSendFailsKeepsInv(s: System, i: nat, k: nat)
    requires Inv(s) && Enabled(s, ClientSendFails(i, k))
    ensures Inv(ClientStep(s, ClientSendFails(i, k)))
  {
    hide CallsOk, ResultsOk, UpsOk, DownsOk, JobsOk, AllReplies, AllRequests, IsRequest, Frame, Last, SetLast, Grows;
    var m := s.clientOut[i];
    WithoutRequests(s.requests, s.clientOut, i);
    ConsistentRequest(s, m);
    UpWritten(s.requests, s.ups, m, k);
    ResolveKeepsCalls(s, m.Id(), Failed(SendFailed));
    SameCalls(s.(client := s.client.Resolve(m.Id(), Failed(SendFailed))), ClientStep(s, ClientSendFails(i, k)));
  }

  lemma ClientReceiveKeepsInv(s: System, j: nat)
    requires Inv(s) && Enabled(s, ClientReceive(j))
    ensures Inv(ClientStep(s, ClientReceive(j)))
  {
    hide CallsOk, ResultsOk, UpsOk, JobsOk, AllRequests, IsReply, Parse, WireOk;
    var w := s.downs[j];
    assert w in s.downs;
    TakeKeepsWire(w);
    DownReplaced(s.requests, s.produced, s.downs, j, w.Take());
    SameCalls(s, ClientStep(s, ClientReceive(j)));
  }

  lemma ClientDeliverKeepsInv(s: System, i: nat)
    requires Inv(s) && Enabled(s, ClientDeliver(i))
    ensures Inv(ClientStep(s, ClientDeliver(i)))
  {
    hide CallsOk, ResultsOk, UpsOk, DownsOk, JobsOk, AllReplies, AllRequests, IsReply, Grows;
    var m := s.clientIn[i];
    WithoutReplies(s.requests, s.produced, s.clientIn, i);
    ResolveKeepsCalls(s, m.Id(), Fulfilled(m));
    SameCalls(s.(client := s.client.Resolve(m.Id(), Fulfilled(m))), ClientStep(s, ClientDeliver(i)));
  }

  lemma SwitchKeepsCalls(s: System, connected: bool, running: bool, q: Fifo<NetworkMessage>)
    requires CallsOk(s) && ResultsOk(s)
    ensures var s' := s.(client := s.client.(connected := connected, threadsRunning := running, sendQueue := q));
            CallsOk(s') && ResultsOk(s')
  {
    hide IsReply, IsAnswer;
  }

  lemma SweepKeepsCalls(s: System)
    requires CallsOk(s) && ResultsOk(s)
    ensures var s' := s.(client := s.client.FailPending()); CallsOk(s') && ResultsOk(s')
  {
    hide IsReply, IsAnswer, PromiseInv;
    SweepKeepsPromises(s.client);
    SweepFrame(s.client);
  }

  lemma SweepFrame(c: ClientState)
    requires PromiseInv(c)
    ensures forall n :: n in c.outcomes ==>
              n in c.FailPending().outcomes && c.FailPending().outcomes[n] == c.outcomes[n]
    ensures forall n :: n in c.FailPending().outcomes && n !in c.outcomes ==>
              c.FailPending().outcomes[n] == Failed(ConnectionClosed)
  {
    assert forall n :: n in c.pending.Values ==> n in c.pending && c.pending[n] == n;
  }

  lemma ConnectionKeepsInv(s: System, a: Action)
    requires Inv(s) && Enabled(s, a) && (a.ClientBeginDisconnect? || a.ClientFailPending? || a.Reconnect?)
    ensures Inv(ClientStep(s, a))
  {
    hide CallsOk, ResultsOk, JobsOk, AllReplies, AllRequests, UpsOk, DownsOk, Last, SetLast;
    match a
    case ClientBeginDisconnect =>
      UpsClosed(s.requests, s.ups);
      var c := s.client.BeginDisconnect();
      SwitchKeepsCalls(s, c.connected, c.threadsRunning, c.sendQueue);
      SameCalls(s.(client := c), ClientStep(s, a));
    case ClientFailPending =>
      SweepKeepsCalls(s);
    case Reconnect =>
      SwitchKeepsCalls(s, true, true, s.client.sendQueue);
      SameCalls(s.(client := s.client.Connect()), ClientStep(s, a));
      NewConnection(s);
  }

  lemma NewConnection(s: System)
    requires UpsOk(s.requests, s.ups) && DownsOk(s.requests, s.produced, s.downs)
    ensures UpsOk(s.requests, s.ups + [NewWire]) && DownsOk(s.requests, s.produced, s.downs + [NewWire])
  {
  }

  lemma ClientKeepsInv(s: System, a: Action)
    requires Inv(s) && Enabled(s, a) && !OfCaller(a) && !OfNode(a)
    ensures Inv(ClientStep(s, a))
  {
    hide Inv, ClientStep;
    match a
    case ClientPop => ClientPopKeepsInv(s);
    case ClientSend(i) => ClientSendKeepsInv(s, i);
    case ClientSendFails(i, k) => ClientSendFailsKeepsInv(s, i, k);
    case ClientReceive(j) => ClientReceiveKeepsInv(s, j);
    case ClientDeliver(i) => ClientDeliverKeepsInv(s, i);
    case _ => ConnectionKeepsInv(s, a);
  }

  // ---------- node threads ----------

  lemma NodeReceiveKeepsInv(s: System, j: nat)
    requires Inv(s) && Enabled(s, NodeReceive(j))
    ensures Inv(NodeStep(s, NodeReceive(j)))
  {
    hide CallsOk, ResultsOk, DownsOk, JobsOk, AllReplies, IsRequest, Parse, WireOk;
    var w := s.ups[j];
    assert w in s.ups;
    TakeKeepsWire(w);
    WireReplaced(s.requests, s.ups, j, w.Take());
    SameCalls(s, NodeStep(s, NodeReceive(j)));
  }

  lemma NodeAcceptKeepsInv(s: System, i: nat)
    requires Inv(s) && Enabled(s, NodeAccept(i))
    ensures Inv(NodeStep(s, NodeAccept(i)))
  {
    hide CallsOk, ResultsOk, UpsOk, DownsOk, AllReplies, AllRequests, IsRequest, IsReply;
    WithoutRequests(s.requests, s.nodeIn, i);
    SameCalls(s, NodeStep(s, NodeAccept(i)));
  }

  lemma EnqueuedReply(s: System, q: Fifo<NetworkMessage>, m: NetworkMessage)
    requires AllReplies(s.requests, s.produced, q.items) && m.Consistent() && IsReply(s.requests, s.produced, m)
    ensures AllReplies(s.requests, s.produced, q.Push(m).0.items)
  {
    hide IsReply;
  }

  lemma ErrorConsistent(t: u16, text: string, id: u64)
    requires |text| < 1000
    ensures NodeTcpServer.ErrorResponse(t, text, id).Consistent()
  {
    MadeMessageValid(t, NodeTcpServer.Ascii("success=false|error=" + text), id);
  }

  lemma NodeRefuseKeepsInv(s: System, i: nat, stopping: bool)
    requires Inv(s) && Enabled(s, NodeRefuse(i, stopping))
    ensures Inv(NodeStep(s, NodeRefuse(i, stopping)))
  {
    hide CallsOk, ResultsOk, UpsOk, DownsOk, JobsOk, AllReplies, AllRequests, IsRequest, NodeTcpServer.ErrorResponse;
    var text := if stopping then "Server shutting down" else "Server busy";
    var t := s.nodeIn[i].header.messageType;
    WithoutRequests(s.requests, s.nodeIn, i);
    ErrorConsistent(t, text, NodeTcpServer.ERROR_ID);
    EnqueuedReply(s, s.node.sendQueue, NodeTcpServer.ErrorResponse(t, text, NodeTcpServer.ERROR_ID));
    SameCalls(s, NodeStep(s, NodeRefuse(i, stopping)));
  }

  lemma ProcessConsistent(request: NetworkMessage, o: NodeTcpServer.HandlerOutcome)
    requires o.Replies? ==> |o.body| < 0x8000_0000
    ensures NodeTcpServer.Process(request, o).Consistent()
  {
    hide NodeTcpServer.ErrorResponse, Checksum;
    var id, t := request.Id(), request.header.messageType;
    ErrorConsistent(t, "Invalid request: " + NodeTcpServer.Reason(request.Validate()), id);
    ErrorConsistent(t, "Handler not configured", id);
    ErrorConsistent(t, "Internal error", id);
    if o.Replies? { MadeMessageValid(o.messageType, o.body, id); }
  }

  /** The node produced a response to an accepted request: it is recorded, and its job holds a proper reply. */
  lemma ProducedKeepsInv(s: System, s': System, n: nat, response: NetworkMessage, first: bool)
    requires Inv(s) && n in s.node.jobs
    requires var request := s.node.jobs[n].request;
             && IsAnswer(request, response) && response.Consistent() && response.Id() == request.Id()
             && s' == s.(node := s'.node, produced := s.produced + {(request, response)})
             && s'.node.jobs == s.node.jobs[n := NodeTcpServer.Job(request, NodeTcpServer.Replying(response, first))]
             && s'.node.sendQueue == s.node.sendQueue
    ensures Inv(s')
  {
    hide CallsOk, ResultsOk, UpsOk, DownsOk, JobsOk, AllReplies, AllRequests, IsAnswer, IsReply;
    var s1 := s.(produced := s'.produced);
    assert Grows(s, s1);
    GrownTraffic(s, s1);
    MoreProduced(s, s1, s.node.jobs[n].request, response);
    JobReplies(s1.requests, s1.produced, s.node.jobs, n, response, first);
    SameCalls(s1, s');
  }

  lemma MoreProduced(s: System, s1: System, request: NetworkMessage, response: NetworkMessage)
    requires CallsOk(s) && ResultsOk(s) && IsAnswer(request, response)
    requires s1 == s.(produced := s.produced + {(request, response)})
    ensures CallsOk(s1) && ResultsOk(s1)
  {
    hide PromiseInv, IsAnswer;
  }

  lemma JobReplies(requests: map<nat, NetworkMessage>, produced: set<(NetworkMessage, NetworkMessage)>,
                   jobs: map<nat, NodeTcpServer.Job>, n: nat, response: NetworkMessage, first: bool)
    requires JobsOk(requests, produced, jobs) && n in jobs
    requires (jobs[n].request, response) in produced
    requires response.Consistent() && response.Id() == jobs[n].request.Id()
    ensures JobsOk(requests, produced,
                   jobs[n := NodeTcpServer.Job(jobs[n].request, NodeTcpServer.Replying(response, first))])
  {
  }

  lemma NodeBeginKeepsInv(s: System, n: nat, o: NodeTcpServer.HandlerOutcome)
    requires var a := NodeWork(NodeTcpServer.Begin(n, o)); Inv(s) && Enabled(s, a)
    ensures Inv(NodeStep(s, NodeWork(NodeTcpServer.Begin(n, o))))
  {
    hide Inv, NodeTcpServer.Process;
    var request := s.node.jobs[n].request;
    ProcessConsistent(request, o);
    ProducedKeepsInv(s, NodeStep(s, NodeWork(NodeTcpServer.Begin(n, o))), n, NodeTcpServer.Process(request, o), true);
  }

  lemma NodePushThrewKeepsInv(s: System, n: nat)
    requires var a := NodeWork(NodeTcpServer.PushThrew(n)); Inv(s) && Enabled(s, a)
    ensures Inv(NodeStep(s, NodeWork(NodeTcpServer.PushThrew(n))))
  {
    hide Inv, NodeTcpServer.ErrorResponse;
    var request := s.node.jobs[n].request;
    ErrorConsistent(request.header.messageType, "Internal error", request.Id());
    ProducedKeepsInv(s, NodeStep(s, NodeWork(NodeTcpServer.PushThrew(n))), n, NodeTcpServer.Apology(request), false);
  }

  lemma NodePushReplyKeepsInv(s: System, n: nat, timedOut: bool)
    requires var a := NodeWork(NodeTcpServer.PushReply(n, timedOut)); Inv(s) && Enabled(s, a)
    ensures Inv(NodeStep(s, NodeWork(NodeTcpServer.PushReply(n, timedOut))))
  {
    hide CallsOk, ResultsOk, UpsOk, DownsOk, AllReplies, AllRequests, IsRequest, IsReply;
    EnqueuedReply(s, s.node.sendQueue, s.node.jobs[n].stage.response);
    SameCalls(s, NodeStep(s, NodeWork(NodeTcpServer.PushReply(n, timedOut))));
  }

  lemma NodeOtherWorkKeepsInv(s: System, b: NodeTcpServer.NodeAction)
    requires Inv(s) && Enabled(s, NodeWork(b)) && (b.Drop? || b.ShutdownQueue?)
    ensures Inv(NodeStep(s, NodeWork(b)))
  {
    hide CallsOk, ResultsOk, UpsOk, DownsOk, AllReplies, AllRequests, IsRequest, IsReply;
    SameCalls(s, NodeStep(s, NodeWork(b)));
  }

  lemma NodePopKeepsInv(s: System)
    requires Inv(s) && Enabled(s, NodePop)
    ensures Inv(NodeStep(s, NodePop))
  {
    hide CallsOk, ResultsOk, UpsOk, DownsOk, JobsOk, AllRequests, IsReply;
    SameCalls(s, NodeStep(s, NodePop));
  }

  /** A down wire after a write of m, whole or failed. */
  lemma DownWritten(s: System, j: nat, m: NetworkMessage, k: nat)
    requires DownsOk(s.requests, s.produced, s.downs) && j < |s.downs|
    requires m.Consistent() && IsReply(s.requests, s.produced, m) && (s.downs[j].open ==> k < |Frame(m)|)
    ensures s.downs[j].open ==> DownsOk(s.requests, s.produced, s.downs[j := s.downs[j].Put(m)])
    ensures DownsOk(s.requests, s.produced, s.downs[j := s.downs[j].PutFails(m, k)])
  {
    hide WireOk, Frame, IsReply;
    var w := s.downs[j];
    assert w in s.downs;
    if w.open { PutKeepsWire(w, m); }
    PutFailsKeepsWire(w, m, k);
  }

  lemma NodeSendKeepsInv(s: System, i: nat, j: nat)
    requires Inv(s) && Enabled(s, NodeSend(i, j))
    ensures Inv(NodeStep(s, NodeSend(i, j)))
  {
    hide CallsOk, ResultsOk, UpsOk, DownsOk, JobsOk, AllReplies, AllRequests, IsReply, Frame;
    FrameNotEmpty(s.nodeOut[i]);
    WithoutReplies(s.requests, s.produced, s.nodeOut, i);
    DownWritten(s, j, s.nodeOut[i], 0);
    SameCalls(s, NodeStep(s, NodeSend(i, j)));
  }

  lemma NodeSendFailsKeepsInv(s: System, i: nat, j: nat, k: nat)
    requires Inv(s) && Enabled(s, NodeSendFails(i, j, k))
    ensures Inv(NodeStep(s, NodeSendFails(i, j, k)))
  {
    hide CallsOk, ResultsOk, UpsOk, DownsOk, JobsOk, AllReplies, AllRequests, IsReply, Frame;
    WithoutReplies(s.requests, s.produced, s.nodeOut, i);
    DownWritten(s, j, s.nodeOut[i], k);
    SameCalls(s, NodeStep(s, NodeSendFails(i, j, k)));
  }

  lemma NodeKeepsInv(s: System, a: Action)
    requires Inv(s) && Enabled(s, a) && OfNode(a)
    ensures Inv(NodeStep(s, a))
  {
    hide Inv, NodeStep;
    match a
    case NodeReceive(j) => NodeReceiveKeepsInv(s, j);
    case NodeAccept(i) => NodeAcceptKeepsInv(s, i);
    case NodeRefuse(i, stopping) => NodeRefuseKeepsInv(s, i, stopping);
    case NodeWork(b) =>
      match b {
        case Begin(n, o) => NodeBeginKeepsInv(s, n, o);
        case PushThrew(n) => NodePushThrewKeepsInv(s, n);
        case PushReply(n, timedOut) => NodePushReplyKeepsInv(s, n, timedOut);
        case _ => NodeOtherWorkKeepsInv(s, b);
      }
    case NodePop => NodePopKeepsInv(s);
    case NodeSend(i, j) => NodeSendKeepsInv(s, i, j);
    case NodeSendFails(i, j, k) => NodeSendFailsKeepsInv(s, i, j, k);
  }

  // ---------- the theorem ----------

  lemma StepKeepsInv(s: System, a: Action)
    requires Inv(s) && Enabled(s, a) && IdsFresh(Step(s, a).client)
    ensures Inv(Step(s, a))
  {
    hide Inv, CallerStep, NodeStep, ClientStep;
    if OfCaller(a) {
      CallerKeepsInv(s, a);
    } else if OfNode(a) {
      NodeKeepsInv(s, a);
    } else {
      ClientKeepsInv(s, a);
    }
  }

  lemma {:induction false} RunMonotone(s: System, acts: seq<Action>, s': System)
    requires Run(s, acts, s')
    ensures s.client.nextCall <= s'.client.nextCall
    decreases |acts|
  {
    hide Step, Enabled;
    if acts != [] {
      StepMonotone(s, acts[0]);
      RunMonotone(Step(s, acts[0]), acts[1..], s');
    }
  }

  lemma {:induction false} RunKeepsInv(s: System, acts: seq<Action>, s': System)
    requires Run(s, acts, s') && Inv(s) && IdsFresh(s'.client)
    ensures Inv(s')
    decreases |acts|
  {
    hide Inv, Step, Enabled;
    if acts != [] {
      RunMonotone(Step(s, acts[0]), acts[1..], s');
      StepKeepsInv(s, acts[0]);
      RunKeepsInv(Step(s, acts[0]), acts[1..], s');
    }
  }

  lemma InitInv(nodeQueueSize: nat)
    ensures Inv(Init(nodeQueueSize))
  {
  }

  lemma ResultOfCall(s: System, n: nat)
    requires CallsOk(s) && ResultsOk(s) && IdsFresh(s.client)
    requires n in s.stages && s.stages[n].Done? && s.stages[n].result != []
    ensures n in s.requests && |s.stages[n].result| == 1
    ensures var response := s.stages[n].result[0];
            && response.Id() == n
            && (s.requests[n], response) in s.produced
            && IsAnswer(s.requests[n], response)
  {
    hide IsAnswer, NetworkMessage.Consistent;
    assert n in s.client.registered;
    assert WireId(n) == n;
  }

  /** The calls issued in a run, in order: the n-th of them takes id n. */
  function Issues(acts: seq<Action>): (issues: seq<Action>)
    ensures forall i :: 0 <= i < |issues| ==> issues[i].IssueCall?
  {
    if acts == [] then [] else (if acts[0].IssueCall? then [acts[0]] else []) + Issues(acts[1..])
  }

  /** m is the frame of the request that call n was issued with. */
  predicate IsIssued(m: NetworkMessage, n: nat, issue: Action)
    requires issue.IssueCall?
  {
    IsFrameOf(m, n, issue.messageType, issue.body, issue.timestamp)
  }

  lemma IssueIssues(s: System, a: Action)
    requires Enabled(s, a) && a.IssueCall?
    ensures var s' := Step(s, a); var n := s.client.nextCall;
            && s'.client.nextCall == n + 1 && n in s'.requests && IsIssued(s'.requests[n], n, a)
            && s'.requests == s.requests[n := s'.requests[n]]
  {
    hide RequestFrame, IsFrameOf;
    FrameCarriesRequest(s.client.nextCall, a.messageType, a.body, a.timestamp);
  }

  /** No other step takes an id or touches a frame. */
  lemma OthersIssueNothing(s: System, a: Action)
    requires Enabled(s, a) && !a.IssueCall?
    ensures Step(s, a).client.nextCall == s.client.nextCall && Step(s, a).requests == s.requests
  {
    hide CallerStep, ClientStep, NodeStep;
    if OfCaller(a) { CallersIssueNothing(s, a); } else if OfNode(a) { NodeIssuesNothing(s, a); } else {
      ClientIssuesNothing(s, a);
    }
  }

  lemma CallersIssueNothing(s: System, a: Action)
    requires Enabled(s, a) && OfCaller(a) && !a.IssueCall?
    ensures CallerStep(s, a).client.nextCall == s.client.nextCall && CallerStep(s, a).requests == s.requests
  {
  }

  lemma ClientIssuesNothing(s: System, a: Action)
    requires Enabled(s, a) && !OfCaller(a) && !OfNode(a)
    ensures ClientStep(s, a).client.nextCall == s.client.nextCall && ClientStep(s, a).requests == s.requests
  {
    hide Parse, Frame;
  }

  lemma NodeIssuesNothing(s: System, a: Action)
    requires Enabled(s, a) && OfNode(a)
    ensures NodeStep(s, a).client == s.client && NodeStep(s, a).requests == s.requests
  {
    hide Parse, Frame, NodeTcpServer.Step;
  }

  lemma StepMonotone(s: System, a: Action)
    requires Enabled(s, a)
    ensures s.client.nextCall <= Step(s, a).client.nextCall
  {
    hide Step, Enabled, IsIssued;
    if a.IssueCall? { IssueIssues(s, a); } else { OthersIssueNothing(s, a); }
  }

  /** after has the frames of before, and those of the issues, which took the ids from the given one on. */
  ghost predicate FramesOf(before: map<nat, NetworkMessage>, from: nat, issues: seq<Action>,
                         after: map<nat, NetworkMessage>)
    requires forall i :: 0 <= i < |issues| ==> issues[i].IssueCall?
  {
    && (forall n :: n in after <==> n in before || from <= n < from + |issues|)
    && (forall n :: n in before ==> after[n] == before[n])
    && (forall i :: 0 <= i < |issues| ==> IsIssued(after[from + i], from + i, issues[i]))
  }

  lemma IssuedFirst(before: map<nat, NetworkMessage>, n: nat, m: NetworkMessage, a: Action, issues: seq<Action>,
                    after: map<nat, NetworkMessage>)
    requires a.IssueCall? && n !in before && IsIssued(m, n, a)
    requires forall i :: 0 <= i < |issues| ==> issues[i].IssueCall?
    requires FramesOf(before[n := m], n + 1, issues, after)
    ensures FramesOf(before, n, [a] + issues, after)
  {
    hide IsIssued;
    forall i | 0 <= i < |[a] + issues|
      ensures n + i in after && IsIssued(after[n + i], n + i, ([a] + issues)[i])
    {
      if i > 0 { assert IsIssued(after[n + 1 + (i - 1)], n + 1 + (i - 1), issues[i - 1]); }
    }
  }

  lemma {:induction false} RunIssues(s: System, acts: seq<Action>, s': System)
    requires Run(s, acts, s') && forall n :: n in s.requests ==> n < s.client.nextCall
    ensures s'.client.nextCall == s.client.nextCall + |Issues(acts)|
    ensures FramesOf(s.requests, s.client.nextCall, Issues(acts), s'.requests)
    decreases |acts|
  {
    hide Step, Enabled, IsIssued, FramesOf;
    if acts == [] {
      NothingIssued(s);
    } else {
      var a, s1, n := acts[0], Step(s, acts[0]), s.client.nextCall;
      if a.IssueCall? {
        IssueIssues(s, a);
        RunIssues(s1, acts[1..], s');
        IssuedFirst(s.requests, n, s1.requests[n], a, Issues(acts[1..]), s'.requests);
      } else {
        OthersIssueNothing(s, a);
        RunIssues(s1, acts[1..], s');
        assert Issues(acts) == Issues(acts[1..]);
      }
    }
  }

  lemma NothingIssued(s: System)
    ensures FramesOf(s.requests, s.client.nextCall, [], s.requests)
  {
  }

  /** Every frame there is belongs to exactly one call of the run, the one that took its id, and carries its request. */
  lemma RequestsAreIssued(nodeQueueSize: nat, acts: seq<Action>, s: System)
    requires Run(Init(nodeQueueSize), acts, s)
    ensures forall n :: n in s.requests <==> 1 <= n <= |Issues(acts)|
    ensures forall n :: 1 <= n <= |Issues(acts)| ==> IsIssued(s.requests[n], n, Issues(acts)[n - 1])
  {
    hide Run, IsIssued;
    RunIssues(Init(nodeQueueSize), acts, s);
    forall n | 1 <= n <= |Issues(acts)|
      ensures n in s.requests && IsIssued(s.requests[n], n, Issues(acts)[n - 1])
    {
      assert IsIssued(s.requests[1 + (n - 1)], 1 + (n - 1), Issues(acts)[n - 1]);
    }
  }

  /**
   * End-to-end correlation. In every reachable state of a client that has taken fewer than 2^64 - 1
   * ids, whatever the interleaving, the failures and the reconnects: if a caller got a response back,
   * then the response carries the caller's id, and the node produced it, as an answer, from exactly
   * the frame that this call sent, which carries the request the call was issued with.
   */
  lemma EndToEndCorrelation(nodeQueueSize: nat, acts: seq<Action>, s: System, n: nat)
    requires Run(Init(nodeQueueSize), acts, s) && IdsFresh(s.client)
    requires n in s.stages && s.stages[n].Done? && s.stages[n].result != []
    ensures n in s.requests && |s.stages[n].result| == 1
    ensures var response := s.stages[n].result[0];
            && response.Id() == n
            && (s.requests[n], response) in s.produced
            && IsAnswer(s.requests[n], response)
    ensures 1 <= n <= |Issues(acts)| && IsIssued(s.requests[n], n, Issues(acts)[n - 1])
  {
    hide Run, CallsOk, TrafficOk, ResultsOk, Init, IsAnswer, IdsFresh, IsIssued;
    RequestsAreIssued(nodeQueueSize, acts, s);
    InitInv(nodeQueueSize);
    RunKeepsInv(Init(nodeQueueSize), acts, s);
    ResultOfCall(s, n);
  }

  /** In every such state the promises are conserved, and an id -1 reply finds no promise. */
  lemma SystemPromises(nodeQueueSize: nat, acts: seq<Action>, s: System)
    requires Run(Init(nodeQueueSize), acts, s) && IdsFresh(s.client)
    ensures PromiseInv(s.client)
    ensures forall m: NetworkMessage :: m.Id() == NodeTcpServer.ERROR_ID || m.Id() !in s.requests ==>
              s.client.Resolve(m.Id(), Fulfilled(m)) == s.client
  {
    InitInv(nodeQueueSize);
    RunKeepsInv(Init(nodeQueueSize), acts, s);
  }
}
