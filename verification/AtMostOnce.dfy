/**
 * No call is processed twice: over every run of client and node together, each call's frame is accepted
 * by the node at most once, so that the handler runs at most once for it.
 */
module AtMostOnce {
  import opened Framing
  import opened NodeTcpClient
  import N = NodeTcpServer
  import C = Correlation

  type System = C.System
  type Action = C.Action

  // ---------- copies of a frame under way ----------

  function CountId(ms: seq<NetworkMessage>, id: nat): nat {
    if ms == [] then 0 else (if ms[0].Id() == id then 1 else 0) + CountId(ms[1..], id)
  }

  function CountWires(ws: seq<C.Wire>, id: nat): nat {
    if ws == [] then 0 else CountId(ws[0].sent, id) + CountWires(ws[1..], id)
  }

  /** Frames with this id queued, being sent, on the wires, received, or accepted. */
  function Copies(s: System, id: nat): nat {
    CountId(s.client.sendQueue.items, id) + CountId(s.clientOut, id) + CountWires(s.ups, id)
    + CountId(s.nodeIn, id) + CountId(s.node.frames, id)
  }

  /** Its TryPush has succeeded. */
  predicate Sent(s: System, id: nat) {
    id in s.stages && (s.stages[id].Waiting? || s.stages[id].GaveUp? || s.stages[id].Done?)
  }

  predicate OnceAt(s: System, id: nat) {
    Copies(s, id) <= if Sent(s, id) then 1 else 0
  }

  lemma {:induction false} CountAppend(a: seq<NetworkMessage>, b: seq<NetworkMessage>, id: nat)
    ensures CountId(a + b, id) == CountId(a, id) + CountId(b, id)
  {
    if a == [] {
      assert a + b == b;
    } else {
      assert (a + b)[1..] == a[1..] + b;
      CountAppend(a[1..], b, id);
    }
  }

  lemma CountSnoc(a: seq<NetworkMessage>, m: NetworkMessage, id: nat)
    ensures CountId(a + [m], id) == CountId(a, id) + if m.Id() == id then 1 else 0
  {
    CountAppend(a, [m], id);
    assert CountId([m], id) == (if m.Id() == id then 1 else 0) + CountId([], id);
  }

  lemma CountWithout(ms: seq<NetworkMessage>, i: nat, id: nat)
    requires i < |ms|
    ensures CountId(C.Without(ms, i), id) == CountId(ms, id) - if ms[i].Id() == id then 1 else 0
  {
    CountSnoc(ms[..i], ms[i], id);
    CountAppend(ms[..i] + [ms[i]], ms[i + 1..], id);
    assert ms == ms[..i] + [ms[i]] + ms[i + 1..];
    CountAppend(ms[..i], ms[i + 1..], id);
  }

  lemma {:induction false} WiresUpdate(ws: seq<C.Wire>, j: nat, w: C.Wire, id: nat)
    requires j < |ws|
    ensures CountWires(ws[j := w], id) == CountWires(ws, id) - CountId(ws[j].sent, id) + CountId(w.sent, id)
  {
    hide CountId;
    if j == 0 {
      assert ws[0 := w][1..] == ws[1..];
    } else {
      assert ws[j := w][1..] == ws[1..][j - 1 := w];
      WiresUpdate(ws[1..], j - 1, w, id);
    }
  }

  lemma {:induction false} WiresAppend(ws: seq<C.Wire>, w: C.Wire, id: nat)
    ensures CountWires(ws + [w], id) == CountWires(ws, id) + CountId(w.sent, id)
  {
    hide CountId;
    if ws == [] {
      assert ws + [w] == [w];
      assert CountWires([w], id) == CountId(w.sent, id) + CountWires([], id);
    } else {
      assert (ws + [w])[1..] == ws[1..] + [w];
      WiresAppend(ws[1..], w, id);
    }
  }

  /** Replacing the newest wire by one that lists at most m in addition. */
  lemma LastWritten(ws: seq<C.Wire>, w: C.Wire, m: NetworkMessage, id: nat)
    requires ws == [] || w.sent == C.Last(ws).sent || w.sent == C.Last(ws).sent + [m]
    ensures CountWires(C.SetLast(ws, w), id) <= CountWires(ws, id) + if m.Id() == id then 1 else 0
  {
    if ws != [] {
      WiresUpdate(ws, |ws| - 1, w, id);
      CountSnoc(C.Last(ws).sent, m, id);
    }
  }

  lemma {:induction false} CountTwice(ms: seq<NetworkMessage>, i: nat, j: nat)
    requires i < j < |ms| && ms[i].Id() == ms[j].Id()
    ensures CountId(ms, ms[i].Id()) >= 2
  {
    var id := ms[i].Id();
    CountAppend(ms[..j], ms[j..], id);
    assert ms == ms[..j] + ms[j..];
    CountOnce(ms[..j], i);
    CountOnce(ms[j..], 0);
  }

  lemma {:induction false} CountOnce(ms: seq<NetworkMessage>, i: nat)
    requires i < |ms|
    ensures CountId(ms, ms[i].Id()) >= 1
  {
    if i > 0 { CountOnce(ms[1..], i - 1); }
  }

  // ---------- steps ----------

  lemma SentKept(s: System, a: Action, id: nat)
    requires C.Inv(s) && C.Enabled(s, a) && Sent(s, id)
    ensures Sent(C.Step(s, a), id)
  {
    hide C.TrafficOk, C.ResultsOk, PromiseInv;
  }

  lemma CallerCopies(s: System, a: Action, id: nat)
    requires C.Enabled(s, a) && C.OfCaller(a) && !a.PushRequest?
    ensures Copies(C.CallerStep(s, a), id) == Copies(s, id)
  {
    hide CountId, CountWires, RequestFrame;
  }

  lemma PushCopies(s: System, n: nat, timedOut: bool, id: nat)
    requires C.CallsOk(s) && C.Enabled(s, C.PushRequest(n, timedOut)) && IdsFresh(s.client) && OnceAt(s, id)
    ensures OnceAt(C.CallerStep(s, C.PushRequest(n, timedOut)), id)
  {
    hide CountId, CountWires, PromiseInv;
    assert s.requests[n].Id() == n;
    CountSnoc(s.client.sendQueue.items, s.requests[n], id);
  }

  lemma ClientPopCopies(s: System, id: nat)
    requires C.Enabled(s, C.ClientPop)
    ensures Copies(C.ClientStep(s, C.ClientPop), id) == Copies(s, id)
  {
    hide CountWires;
    var items := s.client.sendQueue.items;
    if items != [] { CountSnoc(s.clientOut, items[0], id); }
    CountAppend(s.clientOut, [], id);
  }

  lemma ClientSendCopies(s: System, a: Action, id: nat)
    requires C.Enabled(s, a) && (a.ClientSend? || a.ClientSendFails?)
    ensures Copies(C.ClientStep(s, a), id) <= Copies(s, id)
  {
    hide CountId, CountWires, C.Last, C.SetLast, Frame, C.Without;
    var m := s.clientOut[a.i];
    CountWithout(s.clientOut, a.i, id);
    if a.ClientSend? {
      LastWritten(s.ups, C.Last(s.ups).Put(m), m, id);
    } else {
      LastWritten(s.ups, C.Last(s.ups).PutFails(m, a.k), m, id);
    }
  }

  lemma ConnectionCopies(s: System, a: Action, id: nat)
    requires C.Enabled(s, a) && (a.ClientBeginDisconnect? || a.Reconnect?)
    ensures Copies(C.ClientStep(s, a), id) <= Copies(s, id)
  {
    hide CountId, CountWires;
    WiresAppend(s.ups, C.NewWire, id);
    assert CountId([], id) == 0 by { NothingCounts(id); }
    if s.ups != [] { WiresUpdate(s.ups, |s.ups| - 1, C.Last(s.ups).(open := false), id); }
  }

  lemma NothingCounts(id: nat)
    ensures CountId([], id) == 0
  {
  }

  lemma ClientCopies(s: System, a: Action, id: nat)
    requires C.Enabled(s, a) && !C.OfCaller(a) && !C.OfNode(a)
    ensures Copies(C.ClientStep(s, a), id) <= Copies(s, id)
  {
    if a.ClientPop? {
      ClientPopCopies(s, id);
    } else if a.ClientSend? || a.ClientSendFails? {
      ClientSendCopies(s, a, id);
    } else if a.ClientBeginDisconnect? || a.Reconnect? {
      ConnectionCopies(s, a, id);
    } else {
      hide CountId, CountWires, Parse;
    }
  }

  lemma NodeReceiveCopies(s: System, j: nat, id: nat)
    requires C.TrafficOk(s) && C.Enabled(s, C.NodeReceive(j))
    ensures Copies(C.NodeStep(s, C.NodeReceive(j)), id) == Copies(s, id)
  {
    hide CountWires, Parse, C.WireOk;
    var w := s.ups[j];
    assert w in s.ups;
    C.TakeKeepsWire(w);
    CountSnoc(s.nodeIn, w.sent[0], id);
    WiresUpdate(s.ups, j, w.Take(), id);
  }

  lemma NodeTakesCopies(s: System, a: Action, id: nat)
    requires C.Enabled(s, a) && (a.NodeAccept? || a.NodeRefuse?)
    ensures Copies(C.NodeStep(s, a), id) <= Copies(s, id)
  {
    hide CountId, CountWires, C.Without, N.ErrorResponse;
    CountWithout(s.nodeIn, a.i, id);
    CountSnoc(s.node.frames, s.nodeIn[a.i], id);
  }

  lemma NodeCopies(s: System, a: Action, id: nat)
    requires C.TrafficOk(s) && C.Enabled(s, a) && C.OfNode(a)
    ensures Copies(C.NodeStep(s, a), id) <= Copies(s, id)
  {
    hide C.TrafficOk;
    if a.NodeReceive? {
      NodeReceiveCopies(s, a.j, id);
    } else if a.NodeAccept? || a.NodeRefuse? {
      NodeTakesCopies(s, a, id);
    } else {
      hide CountId, CountWires, N.Process;
    }
  }

  lemma OnceKept(s: System, a: Action, id: nat)
    requires C.Inv(s) && C.Enabled(s, a) && IdsFresh(s.client) && OnceAt(s, id)
    ensures OnceAt(C.Step(s, a), id)
  {
    hide C.CallsOk, C.TrafficOk, C.ResultsOk, Copies, C.CallerStep, C.ClientStep, C.NodeStep, Sent;
    if Sent(s, id) { SentKept(s, a, id); }
    if a.PushRequest? {
      PushCopies(s, a.n, a.timedOut, id);
    } else if C.OfCaller(a) {
      CallerCopies(s, a, id);
    } else if C.OfNode(a) {
      NodeCopies(s, a, id);
    } else {
      ClientCopies(s, a, id);
    }
  }

  /** What the node accepted is the frame of the call whose id it carries. */
  ghost predicate FramesOk(s: System) {
    C.AllRequests(s.requests, s.node.frames)
  }

  /** Every response produced belongs to an accepted frame. */
  ghost predicate ProducedOk(s: System) {
    forall p :: p in s.produced ==> p.0 in s.node.frames
  }

  lemma CallerKeepsNode(s: System, a: Action)
    requires C.CallsOk(s) && C.Enabled(s, a) && C.OfCaller(a)
    ensures var s' := C.CallerStep(s, a);
            && s'.node == s.node && s'.produced == s.produced
            && forall n :: n in s.requests ==> n in s'.requests && s'.requests[n] == s.requests[n]
  {
    hide PromiseInv, RequestFrame;
  }

  lemma ClientKeepsNode(s: System, a: Action)
    requires C.Enabled(s, a) && !C.OfCaller(a) && !C.OfNode(a)
    ensures var s' := C.ClientStep(s, a);
            s'.node == s.node && s'.produced == s.produced && s'.requests == s.requests
  {
    hide Parse, Frame;
  }

  /** Accepted frames are only added to, by NodeAccept; productions only by a job of an accepted frame. */
  lemma NodeFrames(s: System, a: Action)
    requires C.Enabled(s, a) && C.OfNode(a)
    ensures var s' := C.NodeStep(s, a);
            && s'.requests == s.requests
            && s'.node.frames == s.node.frames + (if a.NodeAccept? then [s.nodeIn[a.i]] else [])
            && forall p :: p in s'.produced ==>
                 p in s.produced || exists n :: n in s.node.jobs && p.0 == s.node.jobs[n].request
  {
    hide Parse, Frame, N.Process, N.ErrorResponse;
  }

  lemma FramesKept(s: System, a: Action)
    requires C.Inv(s) && C.Enabled(s, a) && FramesOk(s) && ProducedOk(s) && N.NodeInv(s.node)
    ensures FramesOk(C.Step(s, a)) && ProducedOk(C.Step(s, a))
  {
    hide C.CallsOk, C.ResultsOk, C.UpsOk, C.DownsOk, C.JobsOk, C.AllReplies, C.CallerStep, C.ClientStep, C.NodeStep,
         C.Enabled, N.Answers, N.RightId;
    if C.OfCaller(a) {
      CallerKeepsNode(s, a);
    } else if C.OfNode(a) {
      assert C.Enabled(s, a);
      NodeFrames(s, a);
      if a.NodeAccept? { assert a.i < |s.nodeIn| by { AcceptInside(s, a); } }
    } else {
      ClientKeepsNode(s, a);
    }
  }

  lemma AcceptInside(s: System, a: Action)
    requires a.NodeAccept? && C.Enabled(s, a)
    ensures a.i < |s.nodeIn|
  {
  }

  lemma NodeInvKept(s: System, a: Action)
    requires C.Enabled(s, a) && C.OfNode(a) && N.NodeInv(s.node)
    ensures N.NodeInv(C.NodeStep(s, a).node)
  {
    hide N.NodeInv, Parse, Frame;
    if a.NodeAccept? || a.NodeRefuse? {
      QueueingKeepsNodeInv(s, a);
    } else if a.NodeWork? {
      N.StepKeepsInv(s.node, a.a);
    } else if a.NodePop? {
      N.StepKeepsInv(s.node, N.Pop);
    }
  }

  lemma QueueingKeepsNodeInv(s: System, a: Action)
    requires C.Enabled(s, a) && (a.NodeAccept? || a.NodeRefuse?) && N.NodeInv(s.node)
    ensures N.NodeInv(C.NodeStep(s, a).node)
  {
    hide N.NodeInv, N.ErrorResponse;
    var m := s.nodeIn[a.i];
    if a.NodeAccept? {
      N.StepKeepsInv(s.node, N.Accept(m));
    } else {
      N.StepKeepsInv(s.node, N.Refuse(m, if a.stopping then "Server shutting down" else "Server busy"));
    }
  }

  lemma NodeKept(s: System, a: Action)
    requires C.Inv(s) && C.Enabled(s, a) && N.NodeInv(s.node)
    ensures N.NodeInv(C.Step(s, a).node)
  {
    hide N.NodeInv, C.TrafficOk, C.ResultsOk, C.CallsOk, C.Enabled, C.CallerStep, C.NodeStep, C.ClientStep;
    if C.OfCaller(a) {
      CallerKeepsNode(s, a);
    } else if C.OfNode(a) {
      NodeInvKept(s, a);
    } else {
      ClientKeepsNode(s, a);
    }
  }

  ghost predicate Inv(s: System, id: nat) {
    C.Inv(s) && OnceAt(s, id) && FramesOk(s) && ProducedOk(s) && N.NodeInv(s.node)
  }

  lemma {:induction false} RunKeepsInv(s: System, acts: seq<Action>, s': System, id: nat)
    requires C.Run(s, acts, s') && Inv(s, id) && IdsFresh(s'.client)
    ensures Inv(s', id)
    decreases |acts|
  {
    hide C.Inv, OnceAt, FramesOk, ProducedOk, N.NodeInv, C.Step, C.Enabled;
    if acts != [] {
      var s1 := C.Step(s, acts[0]);
      C.RunMonotone(s, acts, s');
      C.RunMonotone(s1, acts[1..], s');
      C.StepKeepsInv(s, acts[0]);
      OnceKept(s, acts[0], id);
      FramesKept(s, acts[0]);
      NodeKept(s, acts[0]);
      RunKeepsInv(s1, acts[1..], s', id);
    }
  }

  lemma InitInv(nodeQueueSize: nat, id: nat)
    ensures Inv(C.Init(nodeQueueSize), id)
  {
    hide C.Inv;
    C.InitInv(nodeQueueSize);
    assert CountWires([C.NewWire], id) == CountId([], id) + CountWires([], id);
  }

  /**
   * End-to-end at most once. Over every run of a client that has taken fewer than 2^64 - 1 ids: a frame
   * the node has accepted is the frame of the call whose id it carries, no two accepted frames belong to
   * the same call, and for each the handler ran at most once and at most one response was queued.
   */
  lemma EndToEndAtMostOnce(nodeQueueSize: nat, acts: seq<Action>, s: System)
    requires C.Run(C.Init(nodeQueueSize), acts, s) && IdsFresh(s.client)
    ensures forall i :: 0 <= i < |s.node.frames| ==> C.IsRequest(s.requests, s.node.frames[i])
    ensures forall i, j :: 0 <= i < j < |s.node.frames| ==> s.node.frames[i].Id() != s.node.frames[j].Id()
    ensures forall i: nat :: s.node.handled[i] <= 1 && N.Answers(s.node.enqueued, i) <= 1
  {
    hide C.Run, C.Init, C.Inv, C.IsRequest, CountId, CountWires;
    InitInv(nodeQueueSize, 0);
    RunKeepsInv(C.Init(nodeQueueSize), acts, s, 0);
    forall i, j | 0 <= i < j < |s.node.frames|
      ensures s.node.frames[i].Id() != s.node.frames[j].Id()
    {
      var id := s.node.frames[i].Id();
      InitInv(nodeQueueSize, id);
      RunKeepsInv(C.Init(nodeQueueSize), acts, s, id);
      if s.node.frames[j].Id() == id { CountTwice(s.node.frames, i, j); }
    }
  }

  /** A caller that got a response back: the node accepted exactly one frame of this call, and it is its request. */
  lemma DeliveredWasAcceptedOnce(nodeQueueSize: nat, acts: seq<Action>, s: System, n: nat)
    requires C.Run(C.Init(nodeQueueSize), acts, s) && IdsFresh(s.client)
    requires n in s.stages && s.stages[n].Done? && s.stages[n].result != []
    ensures n in s.requests && s.requests[n] in s.node.frames
    ensures forall i, j :: 0 <= i < j < |s.node.frames| && s.node.frames[i].Id() == n ==> s.node.frames[j].Id() != n
  {
    hide C.Run, C.Init, C.Inv, C.IsRequest, C.IsAnswer, Copies, N.NodeInv;
    C.EndToEndCorrelation(nodeQueueSize, acts, s, n);
    EndToEndAtMostOnce(nodeQueueSize, acts, s);
    InitInv(nodeQueueSize, n);
    RunKeepsInv(C.Init(nodeQueueSize), acts, s, n);
  }
}
