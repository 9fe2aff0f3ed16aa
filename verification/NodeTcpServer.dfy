/**
 * The node's server (src/node/network/src/NodeTcpServer.cpp): request frames are accepted one by one,
 * processed by the worker pool in any order, and answered through a bounded send queue.
 */
module NodeTcpServer {
  import opened Bytes
  import opened Framing
  import opened ThreadSafeQueue

  /** The id given to replies that answer no particular request: -1 as an unsigned 64-bit word. */
  const ERROR_ID: u64 := 0xFFFF_FFFF_FFFF_FFFF

  /** What processing meets: no handler, a handler's reply, or an exception from the handler. */
  datatype HandlerOutcome =
    | NoHandler
    | Replies(messageType: u16, body: seq<byte>)
    | Throws

  function Ascii(s: string): seq<byte> {
    seq(|s|, i requires 0 <= i < |s| => s[i] as int % 256)
  }

  function ErrorResponse(messageType: u16, text: string, id: u64): (m: NetworkMessage)
    ensures m.Id() == id
  {
    MakeMessage(messageType, Ascii("success=false|error=" + text)).WithId(id)
  }

  function Reason(r: ValidationResult): string {
    match r
    case OK => "OK"
    case InvalidMagic => "Invalid magic number"
    case InvalidVersion => "Invalid version"
    case BodyTooLarge => "Body too large"
    case BodySizeMismatch => "Body size mismatch"
    case ChecksumMismatch => "Checksum mismatch"
  }

  /** The response ProcessMessage tries to enqueue first. */
  function Process(request: NetworkMessage, o: HandlerOutcome): (m: NetworkMessage)
    ensures m.Id() == request.Id()
  {
    var id, t := request.Id(), request.header.messageType;
    if request.Validate() != OK then ErrorResponse(t, "Invalid request: " + Reason(request.Validate()), id)
    else
      match o
      case NoHandler => ErrorResponse(t, "Handler not configured", id)
      case Replies(messageType, body) => MakeMessage(messageType, body).WithId(id)
      case Throws => ErrorResponse(t, "Internal error", id)
  }

  /** The error response of the catch block. */
  function Apology(request: NetworkMessage): NetworkMessage {
    ErrorResponse(request.header.messageType, "Internal error", request.Id())
  }

  /**
   * Every response passes the client's validation, error responses too, except a handler's reply above one
   * megabyte; a handler's reply to a valid request goes out unchanged under the request's id.
   */
  lemma ResponsesValid(request: NetworkMessage, o: HandlerOutcome)
    ensures var handled := request.Validate() == OK && o.Replies?;
            var response := Process(request, o);
            && (response.Validate() == OK <==> (handled ==> |o.body| <= MAX_BODY_SIZE))
            && (handled ==> response.body == o.body && response.header.messageType == o.messageType)
            && response.Id() == request.Id()
            && Apology(request).Validate() == OK && Apology(request).Id() == request.Id()
  {
    hide Checksum;
    var id, t := request.Id(), request.header.messageType;
    ErrorValid(t, "Invalid request: " + Reason(request.Validate()), id);
    ErrorValid(t, "Handler not configured", id);
    ErrorValid(t, "Internal error", id);
    if o.Replies? { MadeMessageValid(o.messageType, o.body, id); }
  }

  /** The bytes of "success=false|error=". */
  const ERROR_PREFIX: seq<byte> :=
    [115, 117, 99, 99, 101, 115, 115, 61, 102, 97, 108, 115, 101, 124, 101, 114, 114, 111, 114, 61]

  /** m is the error response of this text to a message of type t. */
  predicate IsError(m: NetworkMessage, t: u16, text: string) {
    && m.header.messageType == t
    && |m.body| == 20 + |text| && m.body[..20] == ERROR_PREFIX
    && forall i :: 0 <= i < |text| ==> m.body[20 + i] == text[i] as int % 256
  }

  lemma AsciiConcat(a: string, b: string)
    ensures Ascii(a + b) == Ascii(a) + Ascii(b)
  {
  }

  lemma PrefixBytes()
    ensures Ascii("success=false|error=") == ERROR_PREFIX
  {
  }

  lemma ErrorSays(t: u16, text: string, id: u64)
    ensures IsError(ErrorResponse(t, text, id), t, text)
  {
    hide Checksum, Ascii;
    AsciiConcat("success=false|error=", text);
    PrefixBytes();
    AsciiBytes(text);
  }

  lemma AsciiBytes(text: string)
    ensures |Ascii(text)| == |text| && forall i :: 0 <= i < |text| ==> Ascii(text)[i] == text[i] as int % 256
  {
  }

  /** What the caller is told when no handler replied. */
  function Grievance(v: ValidationResult, o: HandlerOutcome): string {
    match v
    case InvalidMagic => "Invalid request: " + "Invalid magic number"
    case InvalidVersion => "Invalid request: " + "Invalid version"
    case BodyTooLarge => "Invalid request: " + "Body too large"
    case BodySizeMismatch => "Invalid request: " + "Body size mismatch"
    case ChecksumMismatch => "Invalid request: " + "Checksum mismatch"
    case OK => if o.NoHandler? then "Handler not configured" else "Internal error"
  }

  lemma GrievanceText(v: ValidationResult, o: HandlerOutcome)
    ensures v != OK ==> "Invalid request: " + Reason(v) == Grievance(v, o)
  {
  }

  lemma ErrorPath(request: NetworkMessage, o: HandlerOutcome)
    requires request.Validate() != OK || !o.Replies?
    ensures Process(request, o) ==
            ErrorResponse(request.header.messageType, Grievance(request.Validate(), o), request.Id())
  {
    hide NetworkMessage.Validate, ErrorResponse, Reason;
    GrievanceText(request.Validate(), o);
  }

  /** Whenever no handler replied the answer is the error of that path, under the request's type and id. */
  lemma ErrorsSayWhy(request: NetworkMessage, o: HandlerOutcome)
    ensures request.Validate() != OK || !o.Replies? ==>
              IsError(Process(request, o), request.header.messageType, Grievance(request.Validate(), o))
    ensures IsError(Apology(request), request.header.messageType, "Internal error")
    ensures Process(request, o).Id() == Apology(request).Id() == request.Id()
  {
    hide NetworkMessage.Validate, ErrorResponse, IsError, Process, Grievance;
    var id, t := request.Id(), request.header.messageType;
    if request.Validate() != OK || !o.Replies? {
      ErrorPath(request, o);
      ErrorSays(t, Grievance(request.Validate(), o), id);
    }
    ErrorSays(t, "Internal error", id);
  }

  lemma ErrorValid(t: u16, text: string, id: u64)
    requires |text| < 1000
    ensures ErrorResponse(t, text, id).Validate() == OK
  {
    MadeMessageValid(t, Ascii("success=false|error=" + text), id);
  }

  predicate CallsHandler(request: NetworkMessage, o: HandlerOutcome) {
    request.Validate() == OK && !o.NoHandler?
  }

  /** A context in the pool: not started, or with a response to enqueue (the first one, or the apology). */
  datatype JobStage = Queued | Replying(response: NetworkMessage, first: bool)
  datatype Job = Job(request: NetworkMessage, stage: JobStage)

  /** Where a queued response came from: the job of an accepted frame, or the receive loop. */
  datatype Origin = FromJob(n: nat) | FromReceiveLoop
  datatype Enqueued = Enqueued(origin: Origin, m: NetworkMessage)

  /**
   * Accepted frames are numbered in order of arrival. handled counts handler calls per frame and
   * enqueued lists every response that ever entered the send queue.
   */
  datatype NodeState = NodeState(
    frames: seq<NetworkMessage>,
    jobs: map<nat, Job>,
    sendQueue: Fifo<NetworkMessage>,
    handled: multiset<nat>,
    enqueued: seq<Enqueued>)
  {
    function Accept(m: NetworkMessage): NodeState {
      this.(frames := frames + [m], jobs := jobs[|frames| := Job(m, Queued)])
    }

    function Enqueue(origin: Origin, m: NetworkMessage): (NodeState, Verdict<NetworkMessage>) {
      var (q, v) := sendQueue.Push(m);
      if v == Returned(SUCCESS, [])
      then (this.(sendQueue := q, enqueued := enqueued + [Enqueued(origin, m)]), v)
      else (this, v)
    }

    /** A frame that could not be handed to the pool is answered without its id. */
    function Refuse(m: NetworkMessage, text: string): (NodeState, Verdict<NetworkMessage>) {
      Enqueue(FromReceiveLoop, ErrorResponse(m.header.messageType, text, ERROR_ID))
    }

    function Start(n: nat, o: HandlerOutcome): NodeState
      requires n in jobs
    {
      var request := jobs[n].request;
      this.(jobs := jobs[n := Job(request, Replying(Process(request, o), true))],
            handled := if CallsHandler(request, o) then handled + multiset{n} else handled)
    }

    /** The first TryPush threw before pushing: the catch block answers with an apology. */
    function PushThrew(n: nat): NodeState
      requires n in jobs
    {
      this.(jobs := jobs[n := Job(jobs[n].request, Replying(Apology(jobs[n].request), false))])
    }

    /** The TryPush of a response: on any verdict but Blocked the job is over. */
    function PushReply(n: nat, timedOut: bool): NodeState
      requires n in jobs && jobs[n].stage.Replying?
    {
      var (s, v) := Enqueue(FromJob(n), jobs[n].stage.response);
      if v.Blocked? && !timedOut then this else s.(jobs := jobs - {n})
    }

    /** The context is destroyed without (further) processing. */
    function Drop(n: nat): NodeState {
      this.(jobs := jobs - {n})
    }

    function Pop(): (NodeState, Verdict<NetworkMessage>) {
      var (q, v) := sendQueue.Pop();
      (this.(sendQueue := q), v)
    }

    function ShutdownQueue(): NodeState {
      this.(sendQueue := sendQueue.Shutdown())
    }
  }

  function Start(maxSize: nat): NodeState {
    NodeState([], map[], Fifo([], maxSize, false), multiset{}, [])
  }

  class NodeTcpServer {
    const sendQueue: ThreadSafeQueue<NetworkMessage>
    ghost var frames: seq<NetworkMessage>
    var jobs: map<nat, Job>
    var accepted: nat
    ghost var handled: multiset<nat>
    ghost var enqueued: seq<Enqueued>

    ghost predicate Valid()
      reads this
    {
      accepted == |frames|
    }

    ghost function Value(): NodeState
      reads this, sendQueue
    {
      NodeState(frames, jobs, sendQueue.Value(), handled, enqueued)
    }

    constructor (queueSize: nat)
      requires queueSize > 0
      ensures Valid() && Value() == Start(queueSize) && fresh(sendQueue)
    {
      sendQueue := new ThreadSafeQueue(queueSize);
      frames, jobs, accepted, handled, enqueued := [], map[], 0, multiset{}, [];
    }

    /** ReceiveLoop with a valid request in hand and the pool accepting it. */
    method AcceptRequest(request: NetworkMessage)
      requires Valid()
      modifies this`frames, this`jobs, this`accepted
      ensures Valid() && Value() == old(Value()).Accept(request)
    {
      jobs := jobs[accepted := Job(request, Queued)];
      frames := frames + [request];
      accepted := accepted + 1;
    }

    method Enqueue(ghost origin: Origin, m: NetworkMessage, timedOut: bool) returns (verdict: Verdict<NetworkMessage>)
      modifies this`enqueued, sendQueue
      ensures var (s, v) := old(Value()).Enqueue(origin, m);
              && Value() == s
              && verdict == if v.Blocked? && timedOut then Returned(TIMEOUT, []) else v
    {
      verdict := sendQueue.TryPush(m, timedOut);
      if verdict.Returned? && verdict.result == SUCCESS {
        enqueued := enqueued + [Enqueued(origin, m)];
      }
    }

    /** ReceiveLoop when SubmitOwned threw. */
    method RefuseRequest(request: NetworkMessage, text: string, timedOut: bool)
      returns (verdict: Verdict<NetworkMessage>)
      modifies this`enqueued, sendQueue
      ensures Value() == old(Value()).Refuse(request, text).0
    {
      verdict := Enqueue(FromReceiveLoop, ErrorResponse(request.header.messageType, text, ERROR_ID), timedOut);
    }

    /** ProcessMessage on a worker up to its first TryPush; the handler is an oracle. */
    method ProcessMessage(n: nat, o: HandlerOutcome) returns (response: NetworkMessage)
      requires n in jobs
      modifies this`jobs, this`handled
      ensures Value() == old(Value()).Start(n, o) && response == Process(old(jobs)[n].request, o)
    {
      var request := jobs[n].request;
      var requestId := request.Id();
      var validation := request.Validate();
      if validation != OK {
        response := ErrorResponse(request.header.messageType, "Invalid request: " + Reason(validation), requestId);
      } else if o.NoHandler? {
        response := ErrorResponse(request.header.messageType, "Handler not configured", requestId);
      } else {
        handled := handled + multiset{n};
        if o.Throws? {
          response := ErrorResponse(request.header.messageType, "Internal error", requestId);
        } else {
          response := MakeMessage(o.messageType, o.body);
          response := response.WithId(requestId);
        }
      }
      jobs := jobs[n := Job(request, Replying(response, true))];
    }

    /** The TryPush that ends ProcessMessage. */
    method PushResponse(n: nat, timedOut: bool)
      requires n in jobs && jobs[n].stage.Replying?
      modifies this`jobs, this`enqueued, sendQueue
      ensures Value() == old(Value()).PushReply(n, timedOut)
    {
      var verdict := Enqueue(FromJob(n), jobs[n].stage.response, timedOut);
      if verdict.Returned? {
        jobs := jobs - {n};
      }
    }
  }

  // ---------- what the operations do ----------

  /** The handler is called for this frame exactly if the request is valid and there is a handler. */
  lemma HandlerCalledExactly(s: NodeState, n: nat, o: HandlerOutcome)
    requires n in s.jobs
    ensures var s' := s.Start(n, o);
            && s'.handled[n] == s.handled[n] + (if s.jobs[n].request.Validate() == OK && !o.NoHandler? then 1 else 0)
            && (forall other :: other != n ==> s'.handled[other] == s.handled[other])
            && s'.sendQueue == s.sendQueue && s'.frames == s.frames
  {
    hide NetworkMessage.Validate, Process;
  }

  /** A response enters an open queue that has room, and nothing else does; its job is over unless it waits. */
  lemma ReplyQueued(s: NodeState, n: nat, timedOut: bool)
    requires n in s.jobs && s.jobs[n].stage.Replying?
    ensures var s' := s.PushReply(n, timedOut);
            var open := !s.sendQueue.down && |s.sendQueue.items| < s.sendQueue.maxSize;
            && (s'.sendQueue.items ==
                  if open then s.sendQueue.items + [s.jobs[n].stage.response] else s.sendQueue.items)
            && s'.sendQueue.down == s.sendQueue.down && s'.sendQueue.maxSize == s.sendQueue.maxSize
            && (n in s'.jobs <==> !open && !s.sendQueue.down && !timedOut)
            && s'.jobs - {n} == s.jobs - {n}
  {
  }

  /** A refusal goes under the id -1 into an open queue that has room, and says what it is. */
  lemma RefusalQueued(s: NodeState, m: NetworkMessage, text: string)
    ensures var s' := s.Refuse(m, text).0;
            if !s.sendQueue.down && |s.sendQueue.items| < s.sendQueue.maxSize
            then
              && |s'.sendQueue.items| == |s.sendQueue.items| + 1
              && s'.sendQueue.items[..|s.sendQueue.items|] == s.sendQueue.items
              && var refusal := s'.sendQueue.items[|s.sendQueue.items|];
                 refusal.Id() == 0xFFFF_FFFF_FFFF_FFFF && IsError(refusal, m.header.messageType, text)
            else s' == s
  {
    hide IsError, ErrorResponse;
    ErrorSays(m.header.messageType, text, ERROR_ID);
  }

  // ---------- at most once ----------

  datatype NodeAction =
    | Accept(m: NetworkMessage)
    | Refuse(m: NetworkMessage, text: string)
    | Begin(n: nat, o: HandlerOutcome)
    | PushThrew(n: nat)
    | PushReply(n: nat, timedOut: bool)
    | Drop(n: nat)
    | Pop
    | ShutdownQueue

  predicate Enabled(s: NodeState, a: NodeAction) {
    match a
    case Begin(n, o) =>
      n in s.jobs && s.jobs[n].stage.Queued? && (o.Replies? ==> |o.body| < 0x8000_0000)
    case PushThrew(n) => n in s.jobs && s.jobs[n].stage.Replying? && s.jobs[n].stage.first
    case PushReply(n, _) => n in s.jobs && s.jobs[n].stage.Replying?
    case _ => true
  }

  function Step(s: NodeState, a: NodeAction): NodeState
    requires Enabled(s, a)
  {
    match a
    case Accept(m) => s.Accept(m)
    case Refuse(m, text) => s.Refuse(m, text).0
    case Begin(n, o) => s.Start(n, o)
    case PushThrew(n) => s.PushThrew(n)
    case PushReply(n, timedOut) => s.PushReply(n, timedOut)
    case Drop(n) => s.Drop(n)
    case Pop => s.Pop().0
    case ShutdownQueue => s.ShutdownQueue()
  }

  predicate Run(s: NodeState, acts: seq<NodeAction>, s': NodeState)
    decreases |acts|
  {
    if acts == [] then s' == s else Enabled(s, acts[0]) && Run(Step(s, acts[0]), acts[1..], s')
  }

  /** The responses of frame n that entered the send queue. */
  function Answers(log: seq<Enqueued>, n: nat): nat {
    if log == [] then 0
    else Answers(log[..|log| - 1], n) + if log[|log| - 1].origin == FromJob(n) then 1 else 0
  }

  lemma AnswersSnoc(log: seq<Enqueued>, e: Enqueued, n: nat)
    ensures Answers(log + [e], n) == Answers(log, n) + if e.origin == FromJob(n) then 1 else 0
  {
    assert (log + [e])[..|log|] == log;
  }

  /** An enqueued response carries the id of the frame it answers, or the error id. */
  predicate RightId(frames: seq<NetworkMessage>, e: Enqueued) {
    match e.origin
    case FromJob(n) => n < |frames| && e.m.Id() == frames[n].Id()
    case FromReceiveLoop => e.m.Id() == ERROR_ID
  }

  ghost predicate NodeInv(s: NodeState) {
    && (forall n :: n in s.jobs ==>
          && n < |s.frames| && s.jobs[n].request == s.frames[n]
          && (s.jobs[n].stage.Queued? ==> s.handled[n] == 0)
          && (s.jobs[n].stage.Replying? ==> s.jobs[n].stage.response.Id() == s.frames[n].Id())
          && Answers(s.enqueued, n) == 0)
    && (forall n: nat :: s.handled[n] <= 1 && (n >= |s.frames| ==> s.handled[n] == 0))
    && (forall n: nat :: Answers(s.enqueued, n) <= 1 && (n >= |s.frames| ==> Answers(s.enqueued, n) == 0))
    && (forall i :: 0 <= i < |s.enqueued| ==> RightId(s.frames, s.enqueued[i]))
  }

  lemma EnqueueKeepsInv(s: NodeState, origin: Origin, m: NetworkMessage)
    requires NodeInv(s) && RightId(s.frames, Enqueued(origin, m))
    requires origin.FromJob? ==>
               origin.n !in s.jobs && origin.n < |s.frames| && Answers(s.enqueued, origin.n) == 0
    ensures NodeInv(s.Enqueue(origin, m).0)
  {
    hide Answers, RightId;
    forall n: nat
      ensures Answers(s.enqueued + [Enqueued(origin, m)], n) ==
              Answers(s.enqueued, n) + if origin == FromJob(n) then 1 else 0
    {
      AnswersSnoc(s.enqueued, Enqueued(origin, m), n);
    }
  }

  lemma AcceptKeepsInv(s: NodeState, m: NetworkMessage)
    requires NodeInv(s)
    ensures NodeInv(s.Accept(m))
  {
    hide Answers;
  }

  lemma StartKeepsInv(s: NodeState, n: nat, o: HandlerOutcome)
    requires NodeInv(s) && n in s.jobs && s.jobs[n].stage.Queued?
    ensures NodeInv(s.Start(n, o))
  {
    hide Answers, RightId, Process;
  }

  lemma PushReplyKeepsInv(s: NodeState, n: nat, timedOut: bool)
    requires NodeInv(s) && n in s.jobs && s.jobs[n].stage.Replying?
    ensures NodeInv(s.PushReply(n, timedOut))
  {
    hide Answers;
    var response := s.jobs[n].stage.response;
    DropKeepsInv(s, n);
    EnqueueKeepsInv(s.Drop(n), FromJob(n), response);
    assert s.Enqueue(FromJob(n), response).0.(jobs := s.jobs - {n}) == s.Drop(n).Enqueue(FromJob(n), response).0;
  }

  lemma DropKeepsInv(s: NodeState, n: nat)
    requires NodeInv(s)
    ensures NodeInv(s.Drop(n))
  {
    hide Answers, RightId;
  }

  lemma OthersKeepInv(s: NodeState, a: NodeAction)
    requires NodeInv(s) && Enabled(s, a) && (a.PushThrew? || a.Pop? || a.ShutdownQueue?)
    ensures NodeInv(Step(s, a))
  {
    hide Answers, RightId;
  }

  lemma StepKeepsInv(s: NodeState, a: NodeAction)
    requires Enabled(s, a) && NodeInv(s)
    ensures NodeInv(Step(s, a))
  {
    hide NodeInv;
    match a
    case Accept(m) => AcceptKeepsInv(s, m);
    case Refuse(m, text) =>
      EnqueueKeepsInv(s, FromReceiveLoop, ErrorResponse(m.header.messageType, text, ERROR_ID));
    case Begin(n, o) => StartKeepsInv(s, n, o);
    case PushReply(n, timedOut) => PushReplyKeepsInv(s, n, timedOut);
    case Drop(n) => DropKeepsInv(s, n);
    case _ => OthersKeepInv(s, a);
  }

  lemma {:induction false} RunKeepsInv(s: NodeState, acts: seq<NodeAction>, s': NodeState)
    requires Run(s, acts, s') && NodeInv(s)
    ensures NodeInv(s')
    decreases |acts|
  {
    hide NodeInv, Step, Enabled;
    if acts != [] {
      StepKeepsInv(s, acts[0]);
      RunKeepsInv(Step(s, acts[0]), acts[1..], s');
    }
  }

  lemma StartInv(maxSize: nat)
    ensures NodeInv(Start(maxSize))
  {
  }

  lemma QueuedNotHandled(s: NodeState, n: nat)
    requires NodeInv(s) && n in s.jobs && s.jobs[n].stage.Queued?
    ensures s.handled[n] == 0
  {
  }

  /**
   * Over every run, for every accepted frame the handler is called at most once and at most one
   * response enters the send queue; that response carries the frame's id, every other one the error id.
   */
  lemma NodeAtMostOnce(maxSize: nat, acts: seq<NodeAction>, s: NodeState)
    requires Run(Start(maxSize), acts, s)
    ensures forall n: nat :: s.handled[n] <= 1 && Answers(s.enqueued, n) <= 1
    ensures forall i :: 0 <= i < |s.enqueued| ==> RightId(s.frames, s.enqueued[i])
  {
    RunKeepsInv(Start(maxSize), acts, s);
  }
}
