/**
 * Exact reads and writes over a TLS library that may transfer any part of a request, ask the caller
 * to wait, or fail (src/common/network/tls/src/TlsConnection.cpp), and the message transfer on top.
 * The library and the socket are a script: every finite behaviour is some script.
 */
module TlsConnection {
  import opened Bytes
  import opened Framing

  datatype TlsError =
    | NoError
    | WantRead
    | WantWrite
    | ConnectionClosed
    | SyscallError
    | SslError
    | Timeout

  datatype LinkState = Connected | Disconnected | Failed

  /** What the library does with the next call; a transfer of n bytes is cut to what is possible. */
  datatype IoEvent =
    | Transfer(n: nat)
    | WouldBlockOnRead
    | WouldBlockOnWrite
    | PeerClosed
    | SyscallFailure
    | SslFailure

  /** One end of a connection: bytes still to be read, bytes written so far, and the behaviour to come. */
  datatype Link = Link(
    state: LinkState,
    incoming: seq<byte>,
    outgoing: seq<byte>,
    script: seq<IoEvent>,
    waits: seq<bool>)

  // ---------- one call into the library ----------

  function Clamp(n: nat, limit: nat): (k: nat)
    requires limit > 0
    ensures 0 < k <= limit
  {
    if n == 0 then 1 else if n <= limit then n else limit
  }

  /** The library's answer when it transfers nothing. */
  function Failure(l: Link, ev: IoEvent): (TlsError, Link) {
    match ev
    case WouldBlockOnRead => (WantRead, l)
    case WouldBlockOnWrite => (WantWrite, l)
    case Transfer(_) => (WantRead, l)
    case PeerClosed => (ConnectionClosed, l.(state := Disconnected))
    case SyscallFailure => (SyscallError, l.(state := Failed))
    case SslFailure => (SslError, l.(state := Failed))
  }

  /** One Read of at most length bytes: error, number of bytes taken from incoming, new link. */
  function ReadOnce(l: Link, length: nat): (TlsError, nat, Link) {
    if l.state != Connected || length == 0 then (SslError, 0, l)
    else if l.script == [] then (ConnectionClosed, 0, l.(state := Disconnected))
    else
      var ev, l1 := l.script[0], l.(script := l.script[1..]);
      if ev.Transfer? && l.incoming != [] then
        var k := Clamp(ev.n, if length <= |l.incoming| then length else |l.incoming|);
        (NoError, k, l1.(incoming := l.incoming[k..]))
      else
        var (e, l2) := Failure(l1, ev);
        (e, 0, l2)
  }

  /** One Write of data: error, number of bytes appended to outgoing, new link. */
  function WriteOnce(l: Link, data: seq<byte>): (TlsError, nat, Link) {
    if l.state != Connected || data == [] then (SslError, 0, l)
    else if l.script == [] then (ConnectionClosed, 0, l.(state := Disconnected))
    else
      var ev, l1 := l.script[0], l.(script := l.script[1..]);
      if ev.Transfer? then
        var k := Clamp(ev.n, |data|);
        (NoError, k, l1.(outgoing := l.outgoing + data[..k]))
      else
        var (e, l2) := Failure(l1, ev);
        (e, 0, l2)
  }

  /** Waiting for the socket: whether it became ready in time. */
  function Wait(l: Link): (bool, Link) {
    if l.waits == [] then (false, l) else (l.waits[0], l.(waits := l.waits[1..]))
  }

  // ---------- exact transfers ----------

  function ReadExactly(l: Link, length: nat): (TlsError, Link)
    decreases |l.script|, |l.waits|
  {
    if length == 0 then (NoError, l)
    else
      var (e, k, l1) := ReadOnce(l, length);
      if e == NoError then ReadExactly(l1, length - k)
      else if e != WantRead then (e, l1)
      else
        var (ready, l2) := Wait(l1);
        if ready then ReadExactly(l2, length) else (Timeout, l2)
  }

  function WriteExactly(l: Link, data: seq<byte>): (TlsError, Link)
    decreases |l.script|, |l.waits|
  {
    if data == [] then (NoError, l)
    else
      var (e, k, l1) := WriteOnce(l, data);
      if e == NoError then WriteExactly(l1, data[k..])
      else if e != WantWrite then (e, l1)
      else
        var (ready, l2) := Wait(l1);
        if ready then WriteExactly(l2, data) else (Timeout, l2)
  }

  /** l' is l after n incoming bytes have been taken. */
  predicate Consumed(l: Link, l': Link, n: int) {
    && 0 <= n <= |l.incoming|
    && l'.incoming == l.incoming[n..]
    && l'.outgoing == l.outgoing
  }

  function Taken(l: Link, l': Link): int {
    |l.incoming| - |l'.incoming|
  }

  lemma ReadOnceSound(l: Link, length: nat)
    requires length > 0
    ensures var (e, k, l') := ReadOnce(l, length);
            && Consumed(l, l', k)
            && (if e == NoError then 0 < k <= length else k == 0)
            && (e == NoError || e == WantRead ==> |l'.script| < |l.script|)
  {
  }

  lemma ConsumedTrans(l: Link, l1: Link, l2: Link, k: nat, n: nat)
    requires Consumed(l, l1, k) && Consumed(l1, l2, n)
    ensures Consumed(l, l2, k + n)
  {
    assert l.incoming[k..][n..] == l.incoming[k + n..];
  }

  /** Reading takes a prefix of the incoming bytes: all that was asked for, or less together with an error. */
  lemma {:induction false} ReadExactlySound(l: Link, length: nat)
    ensures var (e, l') := ReadExactly(l, length);
            && Consumed(l, l', Taken(l, l'))
            && (if e == NoError then Taken(l, l') == length else Taken(l, l') < length)
    decreases |l.script|, |l.waits|
  {
    hide ReadOnce;
    if length > 0 {
      var (e, k, l1) := ReadOnce(l, length);
      ReadOnceSound(l, length);
      if e == NoError {
        var l2 := ReadExactly(l1, length - k).1;
        ReadExactlySound(l1, length - k);
        ConsumedTrans(l, l1, l2, k, Taken(l1, l2));
      } else if e == WantRead {
        var (ready, l2) := Wait(l1);
        if ready { ReadExactlySound(l2, length); }
      }
    }
  }

  lemma ReadNothing(l: Link)
    ensures ReadExactly(l, 0) == (NoError, l)
  {
  }

  lemma WriteNothing(l: Link)
    ensures WriteExactly(l, []) == (NoError, l)
  {
  }

  lemma WriteOnceSound(l: Link, data: seq<byte>)
    requires data != []
    ensures var (e, k, l') := WriteOnce(l, data);
            && l'.incoming == l.incoming
            && (if e == NoError then 0 < k <= |data| else k == 0)
            && l'.outgoing == l.outgoing + data[..k]
            && (e == NoError || e == WantWrite ==> |l'.script| < |l.script|)
  {
  }

  /** One turn of the write loop. */
  lemma WriteTurn(l: Link, data: seq<byte>)
    requires data != []
    ensures var (e, k, l1) := WriteOnce(l, data);
            && k <= |data|
            && (e == NoError ==> WriteExactly(l, data) == WriteExactly(l1, data[k..]))
            && (e != NoError && e != WantWrite ==> WriteExactly(l, data) == (e, l1))
            && (e == WantWrite ==>
                  var (ready, l2) := Wait(l1);
                  WriteExactly(l, data) == if ready then WriteExactly(l2, data) else (Timeout, l2))
  {
  }

  /** Writing appends a prefix of the data: all of it, or less together with an error. */
  lemma {:induction false} WriteExactlySound(l: Link, data: seq<byte>)
    ensures var (e, l') := WriteExactly(l, data);
            && l'.incoming == l.incoming
            && |l.outgoing| <= |l'.outgoing|
            && var n := |l'.outgoing| - |l.outgoing|;
               && n <= |data|
               && l'.outgoing == l.outgoing + data[..n]
               && (e == NoError <==> n == |data|)
    decreases |l.script|, |l.waits|
  {
    if data != [] {
      hide WriteOnce, WriteExactly;
      var (e, k, l1) := WriteOnce(l, data);
      WriteOnceSound(l, data);
      WriteTurn(l, data);
      if e == NoError {
        WriteExactlySound(l1, data[k..]);
        var n := |WriteExactly(l, data).1.outgoing| - |l.outgoing|;
        assert data[..k] + data[k..][..n - k] == data[..n];
      } else if e == WantWrite {
        var (ready, l2) := Wait(l1);
        if ready { WriteExactlySound(l2, data); }
      }
    }
  }

  /** The behaviour to come only transfers or asks to wait for reading, and every wait succeeds. */
  predicate Benign(l: Link) {
    && l.state == Connected
    && (forall i :: 0 <= i < |l.script| ==> l.script[i].Transfer? || l.script[i].WouldBlockOnRead?)
    && |l.script| <= |l.waits|
    && (forall i :: 0 <= i < |l.waits| ==> l.waits[i])
  }

  function Transfers(script: seq<IoEvent>): nat {
    if script == [] then 0 else (if script[0].Transfer? then 1 else 0) + Transfers(script[1..])
  }

  /** However the transfers are cut, enough of them over enough bytes complete an exact read. */
  lemma {:induction false} ReadExactlyCompletes(l: Link, length: nat)
    requires Benign(l) && length <= |l.incoming| && length <= Transfers(l.script)
    ensures var (e, l') := ReadExactly(l, length);
            e == NoError && Benign(l') && Transfers(l'.script) + length >= Transfers(l.script)
    decreases |l.script|
  {
    if length > 0 {
      var (e, k, l1) := ReadOnce(l, length);
      if e == NoError {
        ReadExactlyCompletes(l1, length - k);
      } else {
        ReadExactlyCompletes(Wait(l1).1, length);
      }
    }
  }

  /** The writing counterpart: the behaviour to come only transfers or asks to wait for writing. */
  predicate BenignWriter(l: Link) {
    && l.state == Connected
    && (forall i :: 0 <= i < |l.script| ==> l.script[i].Transfer? || l.script[i].WouldBlockOnWrite?)
    && |l.script| <= |l.waits|
    && (forall i :: 0 <= i < |l.waits| ==> l.waits[i])
  }

  /** However the transfers are cut, enough of them complete an exact write. */
  lemma {:induction false} WriteExactlyCompletes(l: Link, data: seq<byte>)
    requires BenignWriter(l) && |data| <= Transfers(l.script)
    ensures var (e, l') := WriteExactly(l, data);
            e == NoError && BenignWriter(l') && Transfers(l'.script) + |data| >= Transfers(l.script)
    decreases |l.script|
  {
    if data != [] {
      var (e, k, l1) := WriteOnce(l, data);
      if e == NoError {
        WriteExactlyCompletes(l1, data[k..]);
      } else {
        WriteExactlyCompletes(Wait(l1).1, data);
      }
    }
  }

  // ---------- failures ----------

  /** How a call that cannot go on ends: the error reported, and the state the connection is in. */
  predicate EndsAs(ev: IoEvent, error: TlsError, state: LinkState) {
    match ev
    case PeerClosed => error == ConnectionClosed && state == Disconnected
    case SyscallFailure => error == SyscallError && state == Failed
    case SslFailure => error == SslError && state == Failed
    case WouldBlockOnRead => error == WantRead && state == Connected
    case WouldBlockOnWrite => error == WantWrite && state == Connected
    case Transfer(_) => false
  }

  /** A single call that meets anything but a transfer moves no byte and ends as that event demands. */
  lemma CallEndsAs(l: Link, length: nat, data: seq<byte>)
    requires l.state == Connected && l.script != [] && !l.script[0].Transfer? && length > 0 && data != []
    ensures var (e, k, l') := ReadOnce(l, length);
            k == 0 && EndsAs(l.script[0], e, l'.state) && l' == l.(state := l'.state, script := l.script[1..])
    ensures var (e, k, l') := WriteOnce(l, data);
            k == 0 && EndsAs(l.script[0], e, l'.state) && l' == l.(state := l'.state, script := l.script[1..])
  {
  }

  /** The first k events let a reader go on, and so do the waits they may lead to. */
  predicate GoesOn(l: Link, k: nat, reading: bool) {
    && l.state == Connected && k <= |l.script| && k <= |l.waits|
    && (forall i :: 0 <= i < k ==>
          l.script[i].Transfer? || (if reading then l.script[i].WouldBlockOnRead? else l.script[i].WouldBlockOnWrite?))
    && (forall i :: 0 <= i < k ==> l.waits[i])
  }

  lemma ReadGoesOn(l: Link, length: nat, k: nat)
    requires GoesOn(l, k, true) && 0 < k && length > 0
    ensures var (e, n, l1) := ReadOnce(l, length);
            var next := if e == NoError then l1 else Wait(l1).1;
            && n <= length && GoesOn(next, k - 1, true) && next.script == l.script[1..]
            && ReadExactly(l, length) == ReadExactly(next, length - n)
            && (!l.script[0].Transfer? ==> n == 0)
  {
  }

  lemma WriteGoesOn(l: Link, data: seq<byte>, k: nat)
    requires GoesOn(l, k, false) && 0 < k && data != []
    ensures var (e, n, l1) := WriteOnce(l, data);
            var next := if e == NoError then l1 else Wait(l1).1;
            && n <= |data| && GoesOn(next, k - 1, false) && next.script == l.script[1..]
            && WriteExactly(l, data) == WriteExactly(next, data[n..])
            && (!l.script[0].Transfer? ==> n == 0)
  {
  }

  lemma TransferEndsAs(l: Link, length: nat, data: seq<byte>)
    requires l.state == Connected && l.script != [] && !l.script[0].Transfer? && length > 0 && data != []
    ensures !l.script[0].WouldBlockOnRead? ==>
              var (e, l') := ReadExactly(l, length); e != NoError && EndsAs(l.script[0], e, l'.state)
    ensures !l.script[0].WouldBlockOnWrite? ==>
              var (e, l') := WriteExactly(l, data); e != NoError && EndsAs(l.script[0], e, l'.state)
  {
  }

  predicate NoTransfer(script: seq<IoEvent>, k: nat)
    requires k <= |script|
  {
    forall i :: 0 <= i < k ==> !script[i].Transfer?
  }

  /**
   * An exact read that meets an event it cannot go on from, with every wait before it successful: it either
   * had all its bytes before, or ends with exactly that event's error and state. It has not had them when
   * fewer are to come, or when nothing was transferred.
   */
  lemma {:induction false} ReadExactlyEndsAs(l: Link, length: nat, k: nat)
    requires GoesOn(l, k, true) && k < |l.script|
    requires !l.script[k].Transfer? && !l.script[k].WouldBlockOnRead?
    ensures var (e, l') := ReadExactly(l, length);
            && (e == NoError || EndsAs(l.script[k], e, l'.state))
            && (|l.incoming| < length || (length > 0 && NoTransfer(l.script, k)) ==> e != NoError)
    decreases k
  {
    hide ReadExactly, ReadOnce, EndsAs, Wait;
    ReadExactlySound(l, length);
    if length == 0 {
      ReadNothing(l);
    } else if k == 0 {
      TransferEndsAs(l, length, [0]);
    } else {
      ReadGoesOn(l, length, k);
      var (e, n, l1) := ReadOnce(l, length);
      ReadExactlyEndsAs(if e == NoError then l1 else Wait(l1).1, length - n, k - 1);
    }
  }

  /** The same for an exact write. */
  lemma {:induction false} WriteExactlyEndsAs(l: Link, data: seq<byte>, k: nat)
    requires GoesOn(l, k, false) && k < |l.script|
    requires !l.script[k].Transfer? && !l.script[k].WouldBlockOnWrite?
    ensures var (e, l') := WriteExactly(l, data);
            && (e == NoError || EndsAs(l.script[k], e, l'.state))
            && (data != [] && NoTransfer(l.script, k) ==> e != NoError)
    decreases k
  {
    hide WriteExactly, WriteOnce, EndsAs, Wait;
    if data == [] {
      WriteNothing(l);
    } else if k == 0 {
      TransferEndsAs(l, 1, data);
    } else {
      WriteGoesOn(l, data, k);
      var (e, n, l1) := WriteOnce(l, data);
      WriteExactlyEndsAs(if e == NoError then l1 else Wait(l1).1, data[n..], k - 1);
    }
  }

  /** A wait that fails turns into a timeout at once; nothing was moved by this call. */
  lemma WaitTimesOut(l: Link, length: nat, data: seq<byte>)
    requires l.state == Connected && l.script != [] && length > 0 && data != []
    requires l.waits == [] || !l.waits[0]
    ensures l.script[0].WouldBlockOnRead? ==>
              var (e, l') := ReadExactly(l, length); e == Timeout && l'.incoming == l.incoming && l'.state == Connected
    ensures l.script[0].WouldBlockOnWrite? ==>
              var (e, l') := WriteExactly(l, data); e == Timeout && l'.outgoing == l.outgoing && l'.state == Connected
  {
    if !l.script[0].Transfer? { CallEndsAs(l, length, data); }
  }

  /** On a connection that has ended every transfer is refused and moves nothing. */
  lemma EndedForGood(l: Link, length: nat, data: seq<byte>)
    requires l.state != Connected && length > 0 && data != []
    ensures ReadExactly(l, length) == (SslError, l)
    ensures WriteExactly(l, data) == (SslError, l)
  {
  }

  /** The bytes got so far and the bytes left make up the source. */
  predicate Filled(source: seq<byte>, left: seq<byte>, got: seq<byte>) {
    got + left == source
  }

  lemma FilledMore(source: seq<byte>, left: seq<byte>, got: seq<byte>, k: nat)
    requires Filled(source, left, got) && k <= |left|
    ensures Filled(source, left[k..], got + left[..k])
  {
    assert left == left[..k] + left[k..];
  }

  lemma SplitAt(buffer: array<byte>, a: nat, n: nat)
    requires a + n <= buffer.Length
    ensures buffer[..a + n] == buffer[..a] + buffer[a..a + n]
  {
  }

  /** The connection object: its methods run the same transfers in place. */
  class TlsConnection {
    var state: LinkState
    var incoming: seq<byte>
    var outgoing: seq<byte>
    var script: seq<IoEvent>
    var waits: seq<bool>

    ghost function Value(): Link
      reads this
    {
      Link(state, incoming, outgoing, script, waits)
    }

    constructor (incoming: seq<byte>, script: seq<IoEvent>, waits: seq<bool>)
      ensures Value() == Link(Connected, incoming, [], script, waits)
    {
      state, this.incoming, outgoing := Connected, incoming, [];
      this.script, this.waits := script, waits;
    }

    method HandleFailure(ev: IoEvent) returns (error: TlsError)
      modifies this`state
      ensures (error, Value()) == Failure(old(Value()), ev)
    {
      match ev
      case WouldBlockOnRead => error := WantRead;
      case WouldBlockOnWrite => error := WantWrite;
      case Transfer(_) => error := WantRead;
      case PeerClosed => error, state := ConnectionClosed, Disconnected;
      case SyscallFailure => error, state := SyscallError, Failed;
      case SslFailure => error, state := SslError, Failed;
    }

    method Read(buffer: array<byte>, from: nat, length: nat) returns (error: TlsError, bytesRead: nat)
      requires from + length <= buffer.Length
      modifies this, buffer
      ensures (error, bytesRead, Value()) == ReadOnce(old(Value()), length)
      ensures bytesRead <= length && bytesRead <= |old(incoming)|
      ensures buffer[..from] == old(buffer[..from])
      ensures buffer[from..from + bytesRead] == old(incoming)[..bytesRead]
    {
      bytesRead := 0;
      if state != Connected || length == 0 {
        return SslError, 0;
      }
      if script == [] {
        state := Disconnected;
        return ConnectionClosed, 0;
      }
      var ev := script[0];
      script := script[1..];
      if ev.Transfer? && incoming != [] {
        bytesRead := Clamp(ev.n, if length <= |incoming| then length else |incoming|);
        forall i | 0 <= i < bytesRead {
          buffer[from + i] := incoming[i];
        }
        incoming := incoming[bytesRead..];
        error := NoError;
      } else {
        error := HandleFailure(ev);
      }
    }

    method Write(data: seq<byte>) returns (error: TlsError, bytesWritten: nat)
      modifies this
      ensures (error, bytesWritten, Value()) == WriteOnce(old(Value()), data)
      ensures bytesWritten <= |data|
    {
      bytesWritten := 0;
      if state != Connected || data == [] {
        return SslError, 0;
      }
      if script == [] {
        state := Disconnected;
        return ConnectionClosed, 0;
      }
      var ev := script[0];
      script := script[1..];
      if ev.Transfer? {
        bytesWritten := Clamp(ev.n, |data|);
        outgoing := outgoing + data[..bytesWritten];
        error := NoError;
      } else {
        error := HandleFailure(ev);
      }
    }

    method WaitForIO() returns (ready: bool)
      modifies this`waits
      ensures (ready, Value()) == Wait(old(Value()))
    {
      if waits == [] {
        return false;
      }
      ready := waits[0];
      waits := waits[1..];
    }

    /** One turn of the ReadExact loop: go on with the buffer filled by n more bytes, or stop with an error. */
    method ReadTurn(buffer: array<byte>, from: nat, length: nat) returns (again: bool, error: TlsError, n: nat)
      requires 0 < length && from + length <= buffer.Length
      modifies this, buffer
      ensures n <= length && n <= |old(incoming)| && incoming == old(incoming)[n..]
      ensures buffer[..from] == old(buffer[..from])
      ensures buffer[from..from + n] == old(incoming)[..n]
      ensures if again
              then |script| < |old(script)| && ReadExactly(old(Value()), length) == ReadExactly(Value(), length - n)
              else error != NoError && (error, Value()) == ReadExactly(old(Value()), length)
    {
      error, n := Read(buffer, from, length);
      if error != NoError && error != WantRead {
        return false, error, n;
      }
      if error == WantRead {
        var ready := WaitForIO();
        if !ready {
          return false, Timeout, n;
        }
      }
      again := true;
    }

    /** Fills the first length bytes of the buffer with the next length incoming bytes, or reports why not. */
    method ReadExact(buffer: array<byte>, length: nat) returns (error: TlsError)
      requires length <= buffer.Length
      modifies this, buffer
      ensures (error, Value()) == ReadExactly(old(Value()), length)
      ensures error == NoError ==> buffer[..length] + incoming == old(incoming)
    {
      hide ReadExactly;
      var totalRead: nat := 0;
      ghost var outcome := ReadExactly(Value(), length);
      while totalRead < length
        invariant totalRead <= length
        invariant Filled(old(incoming), incoming, buffer[..totalRead])
        invariant outcome == ReadExactly(Value(), length - totalRead)
        decreases |script|
      {
        ghost var got, left := buffer[..totalRead], incoming;
        var again, e, bytesRead := ReadTurn(buffer, totalRead, length - totalRead);
        if !again {
          return e;
        }
        FilledMore(old(incoming), left, got, bytesRead);
        SplitAt(buffer, totalRead, bytesRead);
        totalRead := totalRead + bytesRead;
      }
      ReadNothing(Value());
      return NoError;
    }

    /** Hands all of data to the peer, or reports why not. */
    method WriteExact(data: seq<byte>) returns (error: TlsError)
      modifies this
      ensures (error, Value()) == WriteExactly(old(Value()), data)
    {
      hide WriteExactly, WriteOnce;
      var totalWritten: nat := 0;
      while totalWritten < |data|
        invariant totalWritten <= |data|
        invariant WriteExactly(old(Value()), data) == WriteExactly(Value(), data[totalWritten..])
        decreases |script|, |waits|
      {
        WriteTurn(Value(), data[totalWritten..]);
        WriteOnceSound(Value(), data[totalWritten..]);
        var e, bytesWritten := Write(data[totalWritten..]);
        if e != NoError && e != WantWrite {
          return e;
        }
        if e == WantWrite {
          var ready := WaitForIO();
          if !ready {
            return Timeout;
          }
          continue;
        }
        assert data[totalWritten..][bytesWritten..] == data[totalWritten + bytesWritten..];
        totalWritten := totalWritten + bytesWritten;
      }
      assert data[totalWritten..] == [];
      WriteNothing(Value());
      return NoError;
    }
  }
}
