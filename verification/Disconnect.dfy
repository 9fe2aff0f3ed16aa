/**
 * A disconnect releases the callers: once it has failed the pending promises, nobody waits for a response
 * that cannot come, whatever happens later, reconnects included.
 */
module Disconnect {
  import opened Framing
  import opened NodeTcpClient
  import C = Correlation

  type System = C.System
  type Action = C.Action

  /** A client that is not connected, or was not at some time, pushes no more. */
  predicate DownOrConnected(s: System) {
    s.client.connected || s.client.sendQueue.down
  }

  predicate AtFuture(s: System, n: nat) {
    n in s.stages && (s.stages[n].Waiting? || s.stages[n].GaveUp?)
  }

  /** No request enters the queue any more, and everybody who holds a future finds it resolved. */
  ghost predicate Released(s: System) {
    s.client.sendQueue.down && forall n :: AtFuture(s, n) ==> n in s.client.outcomes
  }

  lemma CallerKeeps(s: System, a: Action)
    requires C.Enabled(s, a) && C.OfCaller(a)
    ensures var s' := C.CallerStep(s, a);
            && s'.client.connected == s.client.connected && s'.client.sendQueue.down == s.client.sendQueue.down
            && (Released(s) ==> Released(s'))
  {
    hide RequestFrame;
  }

  lemma ClientKeeps(s: System, a: Action)
    requires C.Enabled(s, a) && !C.OfCaller(a) && !C.OfNode(a)
    ensures var s' := C.ClientStep(s, a);
            && (s.client.sendQueue.down ==> s'.client.sendQueue.down)
            && (DownOrConnected(s) ==> DownOrConnected(s'))
            && (a.ClientBeginDisconnect? && DownOrConnected(s) ==> s'.client.sendQueue.down)
            && (Released(s) ==> Released(s'))
  {
    hide Parse, Frame;
  }

  lemma NodeKeeps(s: System, a: Action)
    requires C.Enabled(s, a) && C.OfNode(a)
    ensures C.NodeStep(s, a).client == s.client && C.NodeStep(s, a).stages == s.stages
  {
    hide Parse, Frame;
  }

  lemma StepKeeps(s: System, a: Action)
    requires C.Enabled(s, a)
    ensures var s' := C.Step(s, a);
            && (s.client.sendQueue.down ==> s'.client.sendQueue.down)
            && (DownOrConnected(s) ==> DownOrConnected(s'))
            && (Released(s) ==> Released(s'))
  {
    hide C.CallerStep, C.ClientStep, C.NodeStep, C.Enabled;
    if C.OfCaller(a) {
      CallerKeeps(s, a);
    } else if C.OfNode(a) {
      NodeKeeps(s, a);
    } else {
      ClientKeeps(s, a);
    }
  }

  lemma {:induction false} RunKeeps(s: System, acts: seq<Action>, s': System)
    requires C.Run(s, acts, s')
    ensures s.client.sendQueue.down ==> s'.client.sendQueue.down
    ensures DownOrConnected(s) ==> DownOrConnected(s')
    ensures Released(s) ==> Released(s')
    decreases |acts|
  {
    hide C.Step, C.Enabled, Released;
    if acts != [] {
      StepKeeps(s, acts[0]);
      RunKeeps(C.Step(s, acts[0]), acts[1..], s');
    }
  }

  /** The sweep resolves the promise of everybody who waits. */
  lemma SweepReleases(s: System)
    requires C.CallsOk(s) && s.client.sendQueue.down
    ensures Released(C.Step(s, C.ClientFailPending))
  {
    var s' := C.Step(s, C.ClientFailPending);
    SweepKeepsPromises(s.client);
    forall n | AtFuture(s', n)
      ensures n in s'.client.outcomes
    {
      assert n in s.client.registered;
    }
  }

  /**
   * Both parts of a disconnect, with anything between them, before them and after them: from then on each
   * call that waits, or has given up waiting, has its promise resolved.
   */
  lemma DisconnectReleases(q: nat, before: seq<Action>, s0: System, between: seq<Action>, s: System,
                           after: seq<Action>, s': System)
    requires C.Run(C.Init(q), before, s0)
    requires C.Run(C.Step(s0, C.ClientBeginDisconnect), between, s) && IdsFresh(s.client)
    requires C.Run(C.Step(s, C.ClientFailPending), after, s')
    ensures s'.client.sendQueue.down
    ensures forall n :: AtFuture(s', n) ==> n in s'.client.outcomes
    ensures forall n :: n in s'.stages && s'.stages[n].Waiting? ==> C.Enabled(s', C.ReturnResult(n))
  {
    hide C.Run, C.Init, C.Inv, C.Step;
    assert DownOrConnected(C.Init(q)) by { StartsConnected(q); }
    RunKeeps(C.Init(q), before, s0);
    assert C.Step(s0, C.ClientBeginDisconnect).client.sendQueue.down by { DisconnectShuts(s0); }
    RunKeeps(C.Step(s0, C.ClientBeginDisconnect), between, s);
    assert C.CallsOk(s) by { CallsStayOk(q, before, s0, between, s); }
    SweepReleases(s);
    RunKeeps(C.Step(s, C.ClientFailPending), after, s');
  }

  lemma StartsConnected(q: nat)
    ensures DownOrConnected(C.Init(q))
  {
  }

  lemma DisconnectShuts(s: System)
    requires DownOrConnected(s)
    ensures C.Step(s, C.ClientBeginDisconnect).client.sendQueue.down
  {
  }

  lemma CallsStayOk(q: nat, before: seq<Action>, s0: System, between: seq<Action>, s: System)
    requires C.Run(C.Init(q), before, s0)
    requires C.Run(C.Step(s0, C.ClientBeginDisconnect), between, s) && IdsFresh(s.client)
    ensures C.CallsOk(s)
  {
    hide C.Run, C.Init, C.CallsOk, C.TrafficOk, C.ResultsOk;
    var s1 := C.Step(s0, C.ClientBeginDisconnect);
    C.RunMonotone(s1, between, s);
    C.StepMonotone(s0, C.ClientBeginDisconnect);
    C.InitInv(q);
    C.RunKeepsInv(C.Init(q), before, s0);
    C.StepKeepsInv(s0, C.ClientBeginDisconnect);
    C.RunKeepsInv(s1, between, s);
  }

  // ---------- nothing is sent in between ----------

  /** Calls are refused, the send loop is over, nothing is sent and the wire takes no more bytes. */
  ghost predicate Cut(s: System) {
    && !s.client.connected && !s.client.threadsRunning
    && (s.ups != [] ==> !s.ups[|s.ups| - 1].open)
    && (forall t, body, ts :: !C.Enabled(s, C.IssueCall(t, body, ts)))
    && !C.Enabled(s, C.ClientPop)
    && (forall i :: !C.Enabled(s, C.ClientSend(i)))
  }

  predicate Apart(s: System) {
    !s.client.connected && !s.client.threadsRunning && (s.ups != [] ==> !s.ups[|s.ups| - 1].open)
  }

  lemma CutWhileApart(s: System)
    requires Apart(s)
    ensures Cut(s)
  {
  }

  /** The loops run exactly while the client is connected. */
  predicate LoopsMatch(s: System) {
    s.client.threadsRunning == s.client.connected
  }

  lemma LoopsKept(s: System, a: Action)
    requires C.Enabled(s, a)
    ensures LoopsMatch(s) ==> LoopsMatch(C.Step(s, a))
    ensures Apart(s) && !a.Reconnect? ==> Apart(C.Step(s, a))
  {
    hide C.CallerStep, C.NodeStep, C.ClientStep, C.Enabled;
    if C.OfCaller(a) { CallerKeepsLoops(s, a); } else if C.OfNode(a) { NodeKeepsLoops(s, a); } else {
      ClientKeepsLoops(s, a);
    }
  }

  lemma CallerKeepsLoops(s: System, a: Action)
    requires C.Enabled(s, a) && C.OfCaller(a)
    ensures var s' := C.CallerStep(s, a);
            s'.client.connected == s.client.connected && s'.client.threadsRunning == s.client.threadsRunning
            && s'.ups == s.ups
  {
    hide RequestFrame;
  }

  lemma NodeKeepsLoops(s: System, a: Action)
    requires C.Enabled(s, a) && C.OfNode(a)
    ensures var s' := C.NodeStep(s, a);
            && s'.client == s.client && |s'.ups| == |s.ups|
            && forall j :: 0 <= j < |s.ups| ==> s'.ups[j].open == s.ups[j].open
  {
    hide Parse, Frame;
  }

  lemma ClientKeepsLoops(s: System, a: Action)
    requires C.Enabled(s, a) && !C.OfCaller(a) && !C.OfNode(a)
    ensures LoopsMatch(s) ==> LoopsMatch(C.ClientStep(s, a))
    ensures Apart(s) && !a.Reconnect? ==> Apart(C.ClientStep(s, a))
  {
    hide Parse, Frame;
  }

  lemma {:induction false} RunKeepsLoops(s: System, acts: seq<Action>, s': System)
    requires C.Run(s, acts, s')
    ensures LoopsMatch(s) ==> LoopsMatch(s')
    ensures Apart(s) && (forall a :: a in acts ==> !a.Reconnect?) ==> Apart(s')
    decreases |acts|
  {
    hide C.Step, C.Enabled, LoopsMatch, Apart;
    if acts != [] {
      assert acts[0] in acts;
      LoopsKept(s, acts[0]);
      RunKeepsLoops(C.Step(s, acts[0]), acts[1..], s');
    }
  }

  /** From a disconnect until the next connection no call is issued and nothing is popped or sent. */
  lemma NothingSentUntilReconnect(q: nat, before: seq<Action>, s: System, acts: seq<Action>, s': System)
    requires C.Run(C.Init(q), before, s)
    requires C.Run(C.Step(s, C.ClientBeginDisconnect), acts, s') && forall a :: a in acts ==> !a.Reconnect?
    ensures Cut(s')
  {
    hide C.Run, C.Init, C.Step, Cut, Apart, LoopsMatch;
    assert LoopsMatch(C.Init(q)) by { LoopsAtStart(q); }
    RunKeepsLoops(C.Init(q), before, s);
    assert Apart(C.Step(s, C.ClientBeginDisconnect)) by { DisconnectParts(s); }
    RunKeepsLoops(C.Step(s, C.ClientBeginDisconnect), acts, s');
    CutWhileApart(s');
  }

  lemma LoopsAtStart(q: nat)
    ensures LoopsMatch(C.Init(q))
  {
  }

  lemma DisconnectParts(s: System)
    requires LoopsMatch(s)
    ensures Apart(C.Step(s, C.ClientBeginDisconnect))
  {
  }
}
