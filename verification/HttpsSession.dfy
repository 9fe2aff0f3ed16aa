/**
 * Pipelined responses on one HTTPS connection
 * (src/coordinator/network/wallet_server/src/HttpsSession.cpp): a queue of futures, a compare-and-swap
 * writer token, and completion handlers on any number of I/O threads.
 */
module HttpsSession {
  import opened Bytes

  // ---------- requests and their answers ----------

  /** A request body, as protobuf parsing sees it. */
  datatype Request = Malformed | Proto(message: seq<byte>)

  /** What the wallet router does with a request. */
  datatype RouterOutcome = Replies(message: seq<byte>) | ReturnsNull | Throws

  datatype Response = Response(status: nat, body: seq<byte>)

  const BadRequest := Response(400, [])

  /** ProcessRequest, and for a malformed body the reply made by OnRead itself. */
  function Answer(r: Request, o: RouterOutcome): Response {
    if r.Malformed? then BadRequest
    else if o.Replies? then Response(200, o.message)
    else Response(500, [])
  }

  // ---------- the session object ----------

  /** The fields the handlers share; pending holds the arrival indices of the queued futures. */
  datatype Core = Core(active: bool, pending: seq<nat>, token: bool, handled: nat, max: int) {
    function Push(index: nat): Core {
      this.(pending := pending + [index])
    }

    function Count(): Core {
      this.(handled := handled + 1)
    }

    /** compare_exchange_strong(false, true). */
    function TryToken(): (Core, bool) {
      (this.(token := true), !token)
    }

    /** The locked part of DoWrite: the front future, or on an empty queue the token given back. */
    function Next(): (Core, seq<nat>) {
      if pending == [] then (this.(token := false), []) else (this.(pending := pending[1..]), pending[..1])
    }

    function KeepAlive(expired: bool): bool {
      handled < max && !expired
    }

    function Close(): Core {
      this.(active := false)
    }
  }

  class HttpsSession {
    var active: bool
    var pendingQueue: seq<nat>
    var writeInProgress: bool
    var requestsHandled: nat
    const maxRequests: int

    ghost function Value(): Core
      reads this
    {
      Core(active, pendingQueue, writeInProgress, requestsHandled, maxRequests)
    }

    constructor (maxRequests: int)
      ensures Value() == Core(true, [], false, 0, maxRequests)
    {
      this.maxRequests := maxRequests;
      active, pendingQueue, writeInProgress, requestsHandled := true, [], false, 0;
    }

    method PushFuture(index: nat)
      modifies this`pendingQueue
      ensures Value() == old(Value()).Push(index)
    {
      pendingQueue := pendingQueue + [index];
    }

    method CountRequest()
      modifies this`requestsHandled
      ensures Value() == old(Value()).Count()
    {
      requestsHandled := requestsHandled + 1;
    }

    method TryStartWriting() returns (won: bool)
      modifies this`writeInProgress
      ensures (Value(), won) == old(Value()).TryToken()
    {
      var expected := false;
      won := writeInProgress == expected;
      if won {
        writeInProgress := true;
      }
    }

    method TakeFuture() returns (future: seq<nat>)
      modifies this`pendingQueue, this`writeInProgress
      ensures (Value(), future) == old(Value()).Next()
    {
      if pendingQueue == [] {
        writeInProgress := false;
        return [];
      }
      future := pendingQueue[..1];
      pendingQueue := pendingQueue[1..];
    }

    method ShouldKeepAlive(expired: bool) returns (keepAlive: bool)
      ensures keepAlive == Value().KeepAlive(expired)
    {
      if requestsHandled >= maxRequests {
        return false;
      }
      return !expired;
    }

    method DoClose()
      modifies this`active
      ensures Value() == old(Value()).Close()
    {
      if !active {
        return;
      }
      active := false;
    }
  }

  // ---------- all handlers of one connection ----------

  datatype Promise = Unset | Value(response: Response) | Broken

  /** Where one invocation of OnRead is. */
  datatype ReadStage =
    | Arrived      // before the push
    | Pushed       // future queued, request not handed over
    | Handed       // promise set or task submitted, not counted yet
    | SubmitFailed // about to close
    | Counted      // before DoRead
    | Reread       // before the compare-and-swap
    | Returned

  /** Where one writer is, from winning the token on. */
  datatype Writer =
    | Taking                     // before the locked part of DoWrite
    | Getting(index: nat)        // in future.get()
    | Writing(keepAlive: bool)   // async_write under way
    | Halted

  datatype Sent = Sent(index: nat, response: Response, keepAlive: bool)

  datatype Session = Session(
    core: Core,
    reading: nat,                // async_reads under way
    frames: seq<ReadStage>,     // the invocations of OnRead that got a request, in order
    arrived: seq<Request>,
    promises: seq<Promise>,     // by arrival
    submitted: set<nat>,        // requests whose task is in the pool
    outcomes: map<nat, RouterOutcome>,  // what the router did with each request it was given
    writers: seq<Writer>,
    written: seq<Sent>)

  datatype Action =
    | Arrive(request: Request)
    | ReadFails
    | Push(f: nat)
    | SetBadRequest(f: nat)
    | Submit(f: nat, ok: bool)
    | CloseAfterFailure(f: nat)
    | Count(f: nat)
    | ReadAgain(f: nat)
    | TryWrite(f: nat)
    | Complete(i: nat, outcome: RouterOutcome)
    | DropTask(i: nat)
    | Take(w: nat)
    | Write(w: nat, serialized: bool, expired: bool)
    | WriteDone(w: nat, ok: bool)
    | Stop

  /** After the TLS handshake: one read under way. */
  function Init(max: int): Session {
    Session(Core(true, [], false, 0, max), 1, [], [], [], {}, map[], [], [])
  }

  predicate FrameAt(s: Session, f: nat, stage: ReadStage) {
    f < |s.frames| && s.frames[f] == stage
  }

  predicate Enabled(s: Session, a: Action) {
    match a
    case Arrive(_) => s.reading > 0
    case ReadFails => s.reading > 0
    case Push(f) => FrameAt(s, f, Arrived)
    case SetBadRequest(f) => FrameAt(s, f, Pushed) && f < |s.arrived| && f < |s.promises| && s.arrived[f].Malformed?
    case Submit(f, _) => FrameAt(s, f, Pushed) && f < |s.arrived| && s.arrived[f].Proto?
    case CloseAfterFailure(f) => FrameAt(s, f, SubmitFailed) && f < |s.promises|
    case Count(f) => FrameAt(s, f, Handed)
    case ReadAgain(f) => FrameAt(s, f, Counted)
    case TryWrite(f) => FrameAt(s, f, Reread)
    case Complete(i, _) => i in s.submitted && i < |s.promises| && i < |s.arrived|
    case DropTask(i) => i in s.submitted && i < |s.promises|
    case Take(w) => w < |s.writers| && s.writers[w].Taking?
    case Write(w, _, _) =>
      w < |s.writers| && s.writers[w].Getting? && s.writers[w].index < |s.promises|
      && !s.promises[s.writers[w].index].Unset?
    case WriteDone(w, _) => w < |s.writers| && s.writers[w].Writing?
    case Stop => true
  }

  function SetFrame(s: Session, f: nat, stage: ReadStage): Session
    requires f < |s.frames|
  {
    s.(frames := s.frames[f := stage])
  }

  function SetWriter(s: Session, w: nat, writer: Writer): Session
    requires w < |s.writers|
  {
    s.(writers := s.writers[w := writer])
  }

  function ReadStep(s: Session, a: Action): Session
    requires Enabled(s, a)
  {
    match a
    case Arrive(r) => s.(reading := s.reading - 1, arrived := s.arrived + [r], frames := s.frames + [Arrived])
    case ReadFails => s.(reading := s.reading - 1, core := s.core.Close())
    case Push(f) => SetFrame(s, f, Pushed).(promises := s.promises + [Unset], core := s.core.Push(|s.promises|))
    case SetBadRequest(f) => SetFrame(s, f, Handed).(promises := s.promises[f := Value(BadRequest)])
    case Submit(f, ok) =>
      if ok then SetFrame(s, f, Handed).(submitted := s.submitted + {f}) else SetFrame(s, f, SubmitFailed)
    case CloseAfterFailure(f) =>
      SetFrame(s, f, Returned).(core := s.core.Close(), promises := s.promises[f := Broken])
    case Count(f) => SetFrame(s, f, Counted).(core := s.core.Count())
    case ReadAgain(f) => SetFrame(s, f, Reread).(reading := if s.core.active then s.reading + 1 else s.reading)
    case TryWrite(f) =>
      var (core, won) := s.core.TryToken();
      SetFrame(s, f, Returned).(core := core, writers := if won then s.writers + [Taking] else s.writers)
    case _ => s
  }

  function WriteStep(s: Session, a: Action): Session
    requires Enabled(s, a)
  {
    match a
    case Complete(i, o) =>
      s.(promises := s.promises[i := Value(Answer(s.arrived[i], o))], submitted := s.submitted - {i},
         outcomes := s.outcomes[i := o])
    case DropTask(i) => s.(promises := s.promises[i := Broken], submitted := s.submitted - {i})
    case Take(w) =>
      var (core, future) := s.core.Next();
      SetWriter(s, w, if future == [] then Halted else Getting(future[0])).(core := core)
    case Write(w, serialized, expired) =>
      var i := s.writers[w].index;
      if s.promises[i].Broken? || !serialized then SetWriter(s, w, Halted).(core := s.core.Close())
      else
        var keepAlive := s.core.KeepAlive(expired);
        SetWriter(s, w, Writing(keepAlive)).(written := s.written + [Sent(i, s.promises[i].response, keepAlive)])
    case WriteDone(w, ok) =>
      if ok && s.writers[w].keepAlive then SetWriter(s, w, Taking)
      else SetWriter(s, w, Halted).(core := s.core.Close())
    case Stop => s.(core := s.core.Close())
    case _ => s
  }

  predicate OfReader(a: Action) {
    a.Arrive? || a.ReadFails? || a.Push? || a.SetBadRequest? || a.Submit? || a.CloseAfterFailure? || a.Count?
    || a.ReadAgain? || a.TryWrite?
  }

  function Step(s: Session, a: Action): Session
    requires Enabled(s, a)
  {
    if OfReader(a) then ReadStep(s, a) else WriteStep(s, a)
  }

  predicate Run(s: Session, acts: seq<Action>, s': Session)
    decreases |acts|
  {
    if acts == [] then s' == s else Enabled(s, acts[0]) && Run(Step(s, acts[0]), acts[1..], s')
  }

  // ---------- invariants ----------

  /** An invocation that has not started the next read yet. */
  predicate Head(f: ReadStage) {
    !f.Reread? && !f.Returned?
  }

  /** Between its push and its compare-and-swap. */
  predicate InWindow(f: ReadStage) {
    !f.Arrived? && !f.Returned?
  }

  predicate LastFrame(s: Session, stage: ReadStage) {
    s.frames != [] && s.frames[|s.frames| - 1] == stage
  }

  /** Reads are serial: only the newest invocation can be before DoRead, and counting lags by at most one. */
  ghost predicate ReaderOk(s: Session) {
    && |s.frames| == |s.arrived|
    && s.reading <= 1
    && (forall f :: 0 <= f < |s.frames| && Head(s.frames[f]) ==> f == |s.frames| - 1 && s.reading == 0)
    && |s.promises| == |s.arrived| - (if LastFrame(s, Arrived) then 1 else 0)
    && s.core.handled <= |s.promises| <= s.core.handled + 1
    && (s.reading == 1 || LastFrame(s, Arrived) || LastFrame(s, Counted) ==> s.core.handled == |s.promises|)
    && (LastFrame(s, Pushed) || LastFrame(s, Handed) ==> s.core.handled + 1 == |s.promises|)
    && (forall f :: 0 <= f < |s.frames| && s.frames[f].Reread? ==> s.core.handled >= 1)
  }

  predicate Busy(w: Writer) {
    !w.Halted?
  }

  /** 400 for what is no protobuf message; otherwise what the router made of this very request, or 500. */
  predicate IsAnswer(s: Session, i: nat, response: Response)
    requires i < |s.arrived|
  {
    match s.arrived[i]
    case Malformed => response.status == 400 && response.body == []
    case Proto(_) =>
      i in s.outcomes
      && match s.outcomes[i] {
           case Replies(message) => response.status == 200 && response.body == message
           case _ => response.status == 500 && response.body == []
         }
  }

  ghost predicate PromisesOk(s: Session) {
    && |s.promises| <= |s.arrived|
    && (forall i :: 0 <= i < |s.promises| && s.promises[i].Value? ==> IsAnswer(s, i, s.promises[i].response))
    && (forall i :: i in s.submitted ==> i < |s.promises| && s.promises[i].Unset? && s.arrived[i].Proto?)
    && (LastFrame(s, Pushed) || LastFrame(s, SubmitFailed) ==>
          |s.promises| == |s.frames| && s.promises[|s.frames| - 1].Unset? && |s.frames| - 1 !in s.submitted)
  }

  /** Futures taken off the queue so far. */
  function Taken(s: Session): int {
    |s.promises| - |s.core.pending|
  }

  ghost predicate QueueOk(s: Session) {
    && 0 <= Taken(s)
    && forall k :: 0 <= k < |s.core.pending| ==> s.core.pending[k] == Taken(s) + k
  }

  predicate AllKeptAlive(sent: seq<Sent>) {
    forall k :: 0 <= k < |sent| ==> sent[k].keepAlive
  }

  /** Only the newest writer can be busy, it holds the token, and the queue stands where it left it. */
  ghost predicate WriterOk(s: Session) {
    && (forall w :: 0 <= w < |s.writers| && Busy(s.writers[w]) ==> w == |s.writers| - 1 && s.core.token)
    && (s.core.token ==> s.writers != [])
    && (s.core.token && s.core.active ==> Busy(s.writers[|s.writers| - 1]))
    && (!s.core.token ==> |s.written| == Taken(s) && AllKeptAlive(s.written))
    && (s.writers != [] ==> s.core.handled >= 1 && Progress(s, s.writers[|s.writers| - 1]))
  }

  ghost predicate Progress(s: Session, w: Writer) {
    match w
    case Taking => |s.written| == Taken(s) && AllKeptAlive(s.written)
    case Getting(i) => |s.written| + 1 == Taken(s) && i == |s.written| && AllKeptAlive(s.written)
    case Writing(keepAlive) =>
      && |s.written| == Taken(s) && s.written != []
      && AllKeptAlive(s.written[..|s.written| - 1])
      && s.written[|s.written| - 1].keepAlive == keepAlive
    case Halted => |s.written| <= Taken(s)
  }

  ghost predicate WrittenOk(s: Session) {
    && |s.written| <= |s.promises|
    && (forall k :: 0 <= k < |s.written| ==>
          s.written[k].index == k && s.promises[k] == Value(s.written[k].response))
    && (forall k :: 0 <= k < |s.written| && s.written[k].keepAlive ==> k < s.core.max && 1 < s.core.max)
    && (forall k :: 0 <= k < |s.written| && !s.written[k].keepAlive ==> k == |s.written| - 1)
  }

  /** While the session is open, a free token and a queued future mean an OnRead is about to try for the token. */
  ghost predicate Covered(s: Session) {
    s.core.active && !s.core.token && s.core.pending != [] ==>
      exists f :: 0 <= f < |s.frames| && InWindow(s.frames[f])
  }

  ghost predicate Inv(s: Session) {
    ReaderOk(s) && PromisesOk(s) && QueueOk(s) && WriterOk(s) && WrittenOk(s) && Covered(s)
  }

  // ---------- every step keeps them ----------

  /** The steps of OnRead before a request is handed over. */
  predicate Early(a: Action) {
    a.Arrive? || a.ReadFails? || a.Push? || a.SetBadRequest? || a.Submit?
  }

  lemma ReaderKeptEarly(s: Session, a: Action)
    requires ReaderOk(s) && Enabled(s, a) && OfReader(a) && Early(a)
    ensures ReaderOk(ReadStep(s, a))
  {
  }

  lemma ReaderKeptLate(s: Session, a: Action)
    requires ReaderOk(s) && Enabled(s, a) && OfReader(a) && !Early(a)
    ensures ReaderOk(ReadStep(s, a))
  {
  }

  lemma ReaderKept(s: Session, a: Action)
    requires ReaderOk(s) && Enabled(s, a) && !OfReader(a)
    ensures ReaderOk(WriteStep(s, a))
  {
    hide Answer;
  }

  lemma AnswerKept(s: Session, s': Session, i: nat, response: Response)
    requires i < |s.arrived| && IsAnswer(s, i, response)
    requires s.arrived <= s'.arrived && (i in s.outcomes ==> i in s'.outcomes && s'.outcomes[i] == s.outcomes[i])
    ensures IsAnswer(s', i, response)
  {
  }

  lemma AnswersKept(s: Session, s': Session)
    requires PromisesOk(s) && s.arrived <= s'.arrived && s'.outcomes == s.outcomes
    ensures forall i :: 0 <= i < |s.promises| && s.promises[i].Value? ==> IsAnswer(s', i, s.promises[i].response)
  {
    hide IsAnswer;
    forall i | 0 <= i < |s.promises| && s.promises[i].Value?
      ensures IsAnswer(s', i, s.promises[i].response)
    {
      AnswerKept(s, s', i, s.promises[i].response);
    }
  }

  lemma BadRequestAnswers(s: Session, i: nat)
    requires i < |s.arrived| && s.arrived[i].Malformed?
    ensures IsAnswer(s, i, BadRequest)
  {
  }

  lemma PromisesKeptByReader(s: Session, a: Action)
    requires ReaderOk(s) && PromisesOk(s) && Enabled(s, a) && OfReader(a)
    ensures PromisesOk(ReadStep(s, a))
  {
    hide IsAnswer;
    var s' := ReadStep(s, a);
    AnswersKept(s, s');
    if a.SetBadRequest? { BadRequestAnswers(s', a.f); }
  }

  /** A task answers its own request, once. */
  lemma CompleteKeepsPromises(s: Session, i: nat, o: RouterOutcome)
    requires PromisesOk(s) && Enabled(s, Complete(i, o))
    ensures PromisesOk(WriteStep(s, Complete(i, o)))
  {
    var s' := WriteStep(s, Complete(i, o));
    forall k | 0 <= k < |s'.promises| && s'.promises[k].Value?
      ensures IsAnswer(s', k, s'.promises[k].response)
    {
      if k != i { AnswerKept(s, s', k, s.promises[k].response); }
    }
  }

  lemma PromisesKept(s: Session, a: Action)
    requires PromisesOk(s) && Enabled(s, a) && !OfReader(a)
    ensures PromisesOk(WriteStep(s, a))
  {
    if a.Complete? {
      CompleteKeepsPromises(s, a.i, a.outcome);
    } else {
      hide IsAnswer, Answer;
      AnswersKept(s, WriteStep(s, a));
    }
  }

  lemma QueueKept(s: Session, a: Action)
    requires ReaderOk(s) && QueueOk(s) && Enabled(s, a)
    ensures QueueOk(Step(s, a))
  {
    hide Answer;
  }

  /** The steps of OnRead leave the writer and its log alone, until one wins the token. */
  lemma WriterKeptByReader(s: Session, a: Action)
    requires ReaderOk(s) && WriterOk(s) && Enabled(s, a) && OfReader(a) && !a.TryWrite?
    ensures WriterOk(ReadStep(s, a))
  {
    hide AllKeptAlive;
  }

  lemma TryWriteKeepsWriter(s: Session, f: nat)
    requires ReaderOk(s) && WriterOk(s) && Enabled(s, TryWrite(f))
    ensures WriterOk(ReadStep(s, TryWrite(f)))
  {
    hide AllKeptAlive;
  }

  lemma WriterKept(s: Session, a: Action)
    requires ReaderOk(s) && QueueOk(s) && WriterOk(s) && Enabled(s, a) && !OfReader(a) && !a.Write?
    ensures WriterOk(Step(s, a))
  {
    hide Answer;
  }

  lemma WriteKeepsWriter(s: Session, a: Action)
    requires ReaderOk(s) && WriterOk(s) && Enabled(s, a) && a.Write?
    ensures WriterOk(Step(s, a))
  {
    hide ReaderOk, AllKeptAlive;
    var s' := Step(s, a);
    if |s'.written| > |s.written| {
      assert s'.written[..|s'.written| - 1] == s.written;
    }
  }

  lemma WrittenKept(s: Session, a: Action)
    requires ReaderOk(s) && PromisesOk(s) && WrittenOk(s) && Enabled(s, a) && !a.Write?
    ensures WrittenOk(Step(s, a))
  {
    hide Answer, IsAnswer;
  }

  /** A response kept alive was written while handled < max, and its index is at most handled. */
  lemma WriteKeepsWritten(s: Session, a: Action)
    requires ReaderOk(s) && QueueOk(s) && WriterOk(s) && WrittenOk(s) && Enabled(s, a) && a.Write?
    ensures WrittenOk(Step(s, a))
  {
  }

  lemma CoveredKept(s: Session, a: Action)
    requires Covered(s) && Enabled(s, a)
    ensures Covered(Step(s, a))
  {
    hide Answer;
    var s' := Step(s, a);
    if s'.core.active && !s'.core.token && s'.core.pending != [] {
      if a.Push? {
        assert InWindow(s'.frames[a.f]);
      } else {
        var f :| 0 <= f < |s.frames| && InWindow(s.frames[f]);
        assert InWindow(s'.frames[f]);
      }
    }
  }

  lemma InvKept(s: Session, a: Action)
    requires Inv(s) && Enabled(s, a)
    ensures Inv(Step(s, a)) && Step(s, a).core.max == s.core.max
  {
    hide ReaderOk, PromisesOk, QueueOk, WriterOk, WrittenOk, Covered, Answer;
    CoveredKept(s, a);
    QueueKept(s, a);
    if OfReader(a) {
      if Early(a) { ReaderKeptEarly(s, a); } else { ReaderKeptLate(s, a); }
      PromisesKeptByReader(s, a);
      if a.TryWrite? { TryWriteKeepsWriter(s, a.f); } else { WriterKeptByReader(s, a); }
    } else {
      ReaderKept(s, a);
      PromisesKept(s, a);
      if a.Write? { WriteKeepsWriter(s, a); } else { WriterKept(s, a); }
    }
    if a.Write? { WriteKeepsWritten(s, a); } else { WrittenKept(s, a); }
  }

  lemma {:induction false} RunKeepsInv(s: Session, acts: seq<Action>, s': Session)
    requires Run(s, acts, s') && Inv(s)
    ensures Inv(s') && s'.core.max == s.core.max
    decreases |acts|
  {
    hide Inv, Step, Enabled;
    if acts != [] {
      InvKept(s, acts[0]);
      RunKeepsInv(Step(s, acts[0]), acts[1..], s');
    }
  }

  ghost predicate Reachable(max: int, s: Session) {
    exists acts :: Run(Init(max), acts, s)
  }

  lemma ReachableInv(max: int, s: Session)
    requires Reachable(max, s)
    ensures Inv(s) && s.core.max == max
  {
    hide Run;
    var acts :| Run(Init(max), acts, s);
    RunKeepsInv(Init(max), acts, s);
  }

  // ---------- the theorems ----------

  /**
   * Section 9.3.2 of RFC 9112: whatever order the handlers finish in, the responses written are the
   * answers to the first requests, one each and in the order of arrival; two writers are never busy.
   */
  lemma ResponsesInRequestOrder(max: int, s: Session)
    requires Reachable(max, s)
    ensures |s.written| <= |s.arrived|
    ensures forall k :: 0 <= k < |s.written| ==>
              s.written[k].index == k && IsAnswer(s, k, s.written[k].response)
    ensures forall v, w :: 0 <= v < |s.writers| && 0 <= w < |s.writers| && Busy(s.writers[v]) && Busy(s.writers[w]) ==>
              v == w
  {
    hide Run, IsAnswer;
    ReachableInv(max, s);
  }

  /** While the session is open, a queued response has a busy writer or an OnRead about to try for the token. */
  lemma NoStrandedResponse(max: int, s: Session)
    requires Reachable(max, s) && s.core.active && s.core.pending != []
    ensures (exists w :: 0 <= w < |s.writers| && Busy(s.writers[w]))
            || (exists f :: 0 <= f < |s.frames| && InWindow(s.frames[f]))
  {
    hide Run;
    ReachableInv(max, s);
    if s.core.token {
      assert Busy(s.writers[|s.writers| - 1]);
    }
  }

  /** Once every handler of an open session has returned, every request that arrived has been answered. */
  lemma QuietSessionHasAnsweredAll(max: int, s: Session)
    requires Reachable(max, s) && s.core.active
    requires forall f :: 0 <= f < |s.frames| ==> s.frames[f].Returned?
    requires forall w :: 0 <= w < |s.writers| ==> s.writers[w].Halted?
    ensures |s.written| == |s.arrived|
  {
    hide Run;
    ReachableInv(max, s);
    if s.core.pending != [] {
      NoStrandedResponse(max, s);
      assert false;
    }
  }

  /** The most responses one connection can carry. */
  function MostResponses(max: int): int {
    if max <= 1 then 1 else max + 1
  }

  /** At most max_requests + 1 responses are written, and none after the first one marked as not kept alive. */
  lemma KeepAliveBound(max: int, s: Session)
    requires Reachable(max, s)
    ensures |s.written| <= MostResponses(max)
    ensures forall k :: 0 <= k < |s.written| && !s.written[k].keepAlive ==> k == |s.written| - 1
  {
    hide Run;
    ReachableInv(max, s);
    if |s.written| >= 2 {
      assert s.written[0].keepAlive && s.written[|s.written| - 2].keepAlive;
    }
  }

  /** A response is kept alive exactly if fewer than max_requests are counted and the session has not expired. */
  lemma ResponseMarked(s: Session, w: nat, serialized: bool, expired: bool)
    requires Enabled(s, Write(w, serialized, expired))
    ensures var s' := Step(s, Write(w, serialized, expired));
            && (|s'.written| == |s.written| + 1 <==> serialized && s.promises[s.writers[w].index].Value?)
            && (|s'.written| == |s.written| + 1 ==>
                  && s'.written[..|s.written|] == s.written
                  && (s'.written[|s.written|].keepAlive <==> s.core.handled < s.core.max && !expired))
  {
  }

  // ---------- the end of a session ----------

  /** The writer has gone and kept the token. */
  predicate WriterGone(s: Session) {
    s.core.token && forall w :: 0 <= w < |s.writers| ==> s.writers[w].Halted?
  }

  /** What a writer cannot go on from: no answer, no serialization, a failed write, a response not kept alive. */
  predicate EndsWriter(s: Session, a: Action)
    requires Enabled(s, a)
  {
    || (a.Write? && (!a.serialized || s.promises[s.writers[a.w].index].Broken?))
    || (a.WriteDone? && (!a.ok || !s.writers[a.w].keepAlive))
  }

  lemma WriterEnds(s: Session, a: Action)
    requires WriterOk(s) && Enabled(s, a) && EndsWriter(s, a)
    ensures WriterGone(Step(s, a)) && !Step(s, a).core.active && Step(s, a).written == s.written
  {
  }

  lemma GoneForGood(s: Session, a: Action)
    requires WriterGone(s) && Enabled(s, a)
    ensures WriterGone(Step(s, a)) && Step(s, a).written == s.written
  {
    hide Answer;
  }

  /** A closed session stays closed, and starts no read: at most the read under way brings one more request. */
  lemma ClosedForGood(s: Session, a: Action)
    requires Enabled(s, a) && !s.core.active
    ensures var s' := Step(s, a);
            !s'.core.active && |s'.arrived| + s'.reading <= |s.arrived| + s.reading
  {
    hide Answer;
  }

  /** Read errors, failed submissions, everything that ends the writer, and Stop close the session. */
  lemma FailuresClose(s: Session, a: Action)
    requires Enabled(s, a)
    requires a.ReadFails? || a.CloseAfterFailure? || a.Stop? || EndsWriter(s, a)
    ensures !Step(s, a).core.active
  {
  }

  lemma {:induction false} RunAfterEnd(s: Session, acts: seq<Action>, s': Session)
    requires Run(s, acts, s')
    ensures WriterGone(s) ==> WriterGone(s') && s'.written == s.written
    ensures !s.core.active ==> !s'.core.active && |s'.arrived| + s'.reading <= |s.arrived| + s.reading
    decreases |acts|
  {
    hide Step, Enabled, WriterGone;
    if acts != [] {
      if WriterGone(s) { GoneForGood(s, acts[0]); }
      if !s.core.active { ClosedForGood(s, acts[0]); }
      RunAfterEnd(Step(s, acts[0]), acts[1..], s');
    }
  }

  /**
   * After a failed write, a response that cannot be made, or one not kept alive, nothing is ever written
   * again; after any failure and after Stop the session stays closed and reads at most one more request.
   */
  lemma NothingAfterTheEnd(max: int, s: Session, a: Action, acts: seq<Action>, s': Session)
    requires Reachable(max, s) && Enabled(s, a) && Run(Step(s, a), acts, s')
    ensures EndsWriter(s, a) ==> s'.written == s.written
    ensures a.ReadFails? || a.CloseAfterFailure? || a.Stop? || EndsWriter(s, a) ==>
              !s'.core.active && |s'.arrived| <= |s.arrived| + 1
  {
    hide Run, Reachable, WriterGone, Step, ReaderOk, PromisesOk, QueueOk, WriterOk, WrittenOk, Covered, Enabled,
         EndsWriter;
    ReachableInv(max, s);
    InvKept(s, a);
    OneReadAtMost(Step(s, a));
    RunAfterEnd(Step(s, a), acts, s');
    if a.ReadFails? || a.CloseAfterFailure? || a.Stop? || EndsWriter(s, a) {
      FailuresClose(s, a);
      NoArrival(s, a);
    }
    if EndsWriter(s, a) { WriterEnds(s, a); }
  }

  lemma OneReadAtMost(s: Session)
    requires ReaderOk(s)
    ensures s.reading <= 1
  {
  }

  lemma NoArrival(s: Session, a: Action)
    requires Enabled(s, a) && (a.ReadFails? || a.CloseAfterFailure? || a.Stop? || EndsWriter(s, a))
    ensures Step(s, a).arrived == s.arrived
  {
  }

  // ---------- the bound is reached ----------

  lemma {:induction false} RunThen(s: Session, acts: seq<Action>, s': Session, a: Action)
    requires Run(s, acts, s') && Enabled(s', a)
    ensures Run(s, acts + [a], Step(s', a))
    decreases |acts|
  {
    hide Step, Enabled;
    if acts == [] {
      assert Run(Step(s', a), [], Step(s', a));
      assert ([a])[1..] == [];
    } else {
      RunThen(Step(s, acts[0]), acts[1..], s', a);
      assert (acts + [a])[1..] == acts[1..] + [a];
    }
  }

  lemma Reaches(max: int, s: Session, a: Action) returns (s': Session)
    requires Reachable(max, s) && Enabled(s, a)
    ensures s' == Step(s, a) && Reachable(max, s')
  {
    hide Run, Step, Enabled;
    var acts :| Run(Init(max), acts, s);
    RunThen(Init(max), acts, s, a);
    s' := Step(s, a);
  }

  /** k requests read and counted, k responses written, the last write still under way. */
  predicate Steady(s: Session, k: nat, max: int) {
    && s.core == Core(true, [], true, k, max) && s.reading == 1
    && |s.frames| == k && |s.arrived| == k && |s.promises| == k && s.submitted == {}
    && s.writers == [Writing(true)] && |s.written| == k
  }

  lemma InitReachable(max: int)
    ensures Reachable(max, Init(max))
  {
    assert Run(Init(max), [], Init(max));
  }

  /** A request is read, queued, handed over and answered before its OnRead counts it. */
  lemma ReadOne(max: int, s: Session, k: nat) returns (s': Session)
    requires Reachable(max, s) && s.reading == 1 && s.submitted == {}
    requires |s.frames| == k && |s.arrived| == k && |s.promises| == k
    ensures Reachable(max, s') && s'.reading == 0 && s'.submitted == {}
    ensures |s'.frames| == k + 1 && |s'.arrived| == k + 1 && |s'.promises| == k + 1
    ensures s'.frames[k] == Handed && s'.promises[k].Value?
    ensures s'.core == s.core.Push(k) && s'.writers == s.writers && s'.written == s.written
  {
    hide Reachable;
    s' := Reaches(max, s, Arrive(Proto([])));
    s' := Reaches(max, s', Push(k));
    s' := Reaches(max, s', Submit(k, true));
    s' := Reaches(max, s', Complete(k, ReturnsNull));
  }

  lemma CountAndRead(max: int, s: Session, k: nat) returns (s': Session)
    requires Reachable(max, s) && s.reading == 0 && s.core.active && FrameAt(s, k, Handed)
    ensures Reachable(max, s') && s'.reading == 1 && FrameAt(s', k, Reread) && |s'.frames| == |s.frames|
    ensures s' == s.(core := s.core.Count(), reading := 1, frames := s'.frames)
  {
    hide Reachable;
    s' := Reaches(max, s, Count(k));
    s' := Reaches(max, s', ReadAgain(k));
  }

  /** The only queued response is taken and written. */
  lemma WriteOne(max: int, s: Session, k: nat) returns (s': Session)
    requires Reachable(max, s) && s.writers == [Taking] && s.core.pending == [k]
    requires k < |s.promises| && s.promises[k].Value?
    ensures Reachable(max, s') && |s'.written| == |s.written| + 1
    ensures s' == s.(core := s.core.(pending := []), writers := [Writing(s.core.KeepAlive(false))],
                     written := s'.written)
  {
    hide Reachable;
    s' := Reaches(max, s, Take(0));
    s' := Reaches(max, s', Write(0, true, false));
  }

  lemma FirstRound(max: int) returns (s: Session)
    ensures Reachable(max, s) && |s.written| == 1 && (max >= 2 ==> Steady(s, 1, max))
  {
    hide Reachable;
    InitReachable(max);
    s := ReadOne(max, Init(max), 0);
    s := CountAndRead(max, s, 0);
    s := Reaches(max, s, TryWrite(0));
    s := WriteOne(max, s, 0);
  }

  /** The next request is queued and its response written before it is counted. */
  lemma UncountedWrite(max: int, s: Session, k: nat) returns (s': Session)
    requires Reachable(max, s) && Steady(s, k, max)
    ensures Reachable(max, s') && |s'.written| == k + 1
    ensures s'.core == s.core && s'.reading == 0 && s'.submitted == {} && s'.writers == [Writing(k < max)]
    ensures |s'.frames| == k + 1 && |s'.arrived| == k + 1 && |s'.promises| == k + 1 && s'.frames[k] == Handed
  {
    hide Reachable;
    s' := ReadOne(max, s, k);
    s' := Reaches(max, s', WriteDone(0, true));
    s' := WriteOne(max, s', k);
  }

  lemma NextRound(max: int, s: Session, k: nat) returns (s': Session)
    requires Reachable(max, s) && Steady(s, k, max) && k < max
    ensures Reachable(max, s') && Steady(s', k + 1, max)
  {
    hide Reachable;
    s' := UncountedWrite(max, s, k);
    s' := CountAndRead(max, s', k);
    s' := Reaches(max, s', TryWrite(k));
  }

  lemma {:induction false} ManyRounds(max: int, k: nat) returns (s: Session)
    requires 1 <= k <= max && max >= 2
    ensures Reachable(max, s) && Steady(s, k, max)
  {
    hide Reachable, Steady;
    if k == 1 {
      s := FirstRound(max);
    } else {
      s := ManyRounds(max, k - 1);
      s := NextRound(max, s, k - 1);
    }
  }

  /** The bound cannot be lowered for any setting of max_requests. */
  lemma KeepAliveBoundReached(max: int) returns (s: Session)
    ensures Reachable(max, s) && |s.written| == MostResponses(max)
  {
    hide Reachable;
    if max <= 1 {
      s := FirstRound(max);
    } else {
      s := ManyRounds(max, max);
      s := UncountedWrite(max, s, max);
    }
  }
}
