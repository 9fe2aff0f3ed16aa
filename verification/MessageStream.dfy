/**
 * Messages over a connection: SendMessage and ReceiveMessage of the coordinator's client
 * (src/coordinator/network/node_client/src/NodeTcpClient.cpp) and of the node's server
 * (src/node/network/src/NodeTcpServer.cpp), and what a whole stream of them delivers.
 */
module MessageStream {
  import opened Bytes
  import opened Framing
  import opened TlsConnection

  /** Header first, then the body bytes if there are any. */
  function SendRun(l: Link, header: seq<byte>, body: seq<byte>): (bool, Link) {
    var (e, l1) := WriteExactly(l, header);
    if e != NoError then (false, l1)
    else if body == [] then (true, l1)
    else
      var (e2, l2) := WriteExactly(l1, body);
      (e2 == NoError, l2)
  }

  datatype Outcome =
    | Received(m: NetworkMessage)
    | IoFailed(error: TlsError)
    | Invalid(why: ValidationResult)

  function ReceiveRun(l: Link): (Outcome, Link) {
    var (e, l1) := ReadExactly(l, HEADER_SIZE);
    ReadExactlySound(l, HEADER_SIZE);
    if e != NoError then (IoFailed(e), l1)
    else
      var h := DecodeHeader(l.incoming[..HEADER_SIZE]);
      if h.ValidateBasic() != OK then (Invalid(h.ValidateBasic()), l1)
      else
        var (e2, l2) := ReadExactly(l1, h.bodyLength);
        ReadExactlySound(l1, h.bodyLength);
        if e2 != NoError then (IoFailed(e2), l2)
        else
          var m := NetworkMessage(h, l1.incoming[..h.bodyLength]);
          if m.Validate() != OK then (Invalid(m.Validate()), l2) else (Received(m), l2)
  }

  /** The client sends as many body bytes as its header announces. */
  method ClientSendMessage(connection: TlsConnection, m: NetworkMessage) returns (ok: bool)
    requires m.header.bodyLength <= |m.body|
    modifies connection
    ensures (ok, connection.Value()) ==
            SendRun(old(connection.Value()), EncodeHeader(m.header), m.body[..m.header.bodyLength])
  {
    var error := connection.WriteExact(EncodeHeader(m.header));
    if error != NoError {
      return false;
    }
    if m.header.bodyLength > 0 {
      error := connection.WriteExact(m.body[..m.header.bodyLength]);
      if error != NoError {
        return false;
      }
    }
    return true;
  }

  /** The node sends its whole body unless the header announces none. */
  method NodeSendMessage(connection: TlsConnection, m: NetworkMessage) returns (ok: bool)
    modifies connection
    ensures (ok, connection.Value()) ==
            SendRun(old(connection.Value()), EncodeHeader(m.header), if m.header.bodyLength > 0 then m.body else [])
  {
    var error := connection.WriteExact(EncodeHeader(m.header));
    if error != NoError {
      return false;
    }
    if m.header.bodyLength > 0 && m.body != [] {
      error := connection.WriteExact(m.body);
      if error != NoError {
        return false;
      }
    }
    return true;
  }

  /** Both ends receive alike: header, basic check, body, full check. */
  method ReceiveMessage(connection: TlsConnection) returns (outcome: Outcome)
    modifies connection
    ensures (outcome, connection.Value()) == ReceiveRun(old(connection.Value()))
  {
    ghost var start := connection.Value();
    var headerBytes := new byte[HEADER_SIZE];
    var error := connection.ReadExact(headerBytes, HEADER_SIZE);
    if error != NoError {
      return IoFailed(error);
    }
    Prefix(headerBytes[..HEADER_SIZE], connection.incoming, start.incoming);
    var header := DecodeHeader(headerBytes[..HEADER_SIZE]);
    var validation := header.ValidateBasic();
    if validation != OK {
      return Invalid(validation);
    }
    ghost var middle := connection.Value();
    var body := new byte[header.bodyLength];
    error := connection.ReadExact(body, header.bodyLength);
    if error != NoError {
      return IoFailed(error);
    }
    Prefix(body[..header.bodyLength], connection.incoming, middle.incoming);
    var m := NetworkMessage(header, body[..header.bodyLength]);
    validation := m.Validate();
    if validation != OK {
      return Invalid(validation);
    }
    return Received(m);
  }

  lemma Prefix(a: seq<byte>, b: seq<byte>, whole: seq<byte>)
    requires a + b == whole
    ensures |a| <= |whole| && whole[..|a|] == a
  {
  }

  lemma PrefixOfFrame(m: NetworkMessage, k: nat)
    ensures k <= HEADER_SIZE ==> Frame(m)[..k] == EncodeHeader(m.header)[..k]
    ensures k <= |m.body| ==> Frame(m)[..HEADER_SIZE + k] == EncodeHeader(m.header) + m.body[..k]
  {
    hide EncodeHeader;
  }

  lemma SendBody(l: Link, l1: Link, m: NetworkMessage)
    requires m.body != [] && l1.outgoing == l.outgoing + EncodeHeader(m.header)
    ensures var (e, l2) := WriteExactly(l1, m.body);
            && |l.outgoing| <= |l2.outgoing|
            && var n := |l2.outgoing| - |l.outgoing|;
               && n <= |Frame(m)|
               && l2.outgoing == l.outgoing + Frame(m)[..n]
               && (e == NoError <==> n == |Frame(m)|)
  {
    hide WriteExactly, EncodeHeader;
    WriteExactlySound(l1, m.body);
    var k := |WriteExactly(l1, m.body).1.outgoing| - |l1.outgoing|;
    PrefixOfFrame(m, k);
    assert l.outgoing + EncodeHeader(m.header) + m.body[..k] == l.outgoing + (EncodeHeader(m.header) + m.body[..k]);
  }

  /** A sender puts the frame of a consistent message on the wire: all of it, or a proper prefix and a failure. */
  lemma SendSound(l: Link, m: NetworkMessage)
    requires m.Consistent()
    ensures var (ok, l') := SendRun(l, EncodeHeader(m.header), m.body);
            && |l.outgoing| <= |l'.outgoing|
            && var n := |l'.outgoing| - |l.outgoing|;
               && n <= |Frame(m)|
               && l'.outgoing == l.outgoing + Frame(m)[..n]
               && (ok <==> n == |Frame(m)|)
  {
    hide WriteExactly, EncodeHeader;
    var h := EncodeHeader(m.header);
    var (e, l1) := WriteExactly(l, h);
    WriteExactlySound(l, h);
    var k := |l1.outgoing| - |l.outgoing|;
    PrefixOfFrame(m, k);
    assert h[..|h|] == h;
    if e == NoError && m.body != [] { SendBody(l, l1, m); }
  }

  /** A receiver decides exactly as the parser does on the bytes before it, unless I/O fails first. */
  lemma ReceiveMatchesParse(l: Link)
    ensures var (outcome, l') := ReceiveRun(l);
            match outcome
            case Received(m) => Parse(l.incoming) == Message(m, l'.incoming)
            case Invalid(why) => Parse(l.incoming) == Rejected(why)
            case IoFailed(_) => true
  {
    var (e, l1) := ReadExactly(l, HEADER_SIZE);
    ReadExactlySound(l, HEADER_SIZE);
    if e == NoError {
      var h := DecodeHeader(l.incoming[..HEADER_SIZE]);
      if h.ValidateBasic() == OK {
        var n := HEADER_SIZE + h.bodyLength;
        var (e2, l2) := ReadExactly(l1, h.bodyLength);
        ReadExactlySound(l1, h.bodyLength);
        if e2 == NoError {
          assert l1.incoming[..h.bodyLength] == l.incoming[HEADER_SIZE..n];
          assert l2.incoming == l.incoming[n..];
        }
      }
    }
  }

  /** I/O fails for a receiver only where one of its exact reads fails, and with that read's error. */
  lemma ReceiveFailsAsItsRead(l: Link)
    ensures var (outcome, l') := ReceiveRun(l); var (e, l1) := ReadExactly(l, HEADER_SIZE);
            && (e != NoError ==> outcome == IoFailed(e) && l' == l1)
            && (outcome.IoFailed? ==> outcome.error != NoError)
            && (outcome.IoFailed? && e == NoError ==> exists n: nat :: ReadExactly(l1, n) == (outcome.error, l'))
  {
    hide ReadExactly;
    ReadExactlySound(l, HEADER_SIZE);
    var (e, l1) := ReadExactly(l, HEADER_SIZE);
    if e == NoError {
      var n := DecodeHeader(l.incoming[..HEADER_SIZE]).bodyLength;
      assert ReadExactly(l1, n) == ReadExactly(l1, n);
    }
  }

  // ---------- whole streams ----------

  /** Sends the messages in turn until one fails. */
  function SendAll(l: Link, ms: seq<NetworkMessage>): (bool, Link)
    decreases |ms|
  {
    if ms == [] then (true, l)
    else
      var (ok, l1) := SendRun(l, EncodeHeader(ms[0].header), ms[0].body);
      if ok then SendAll(l1, ms[1..]) else (false, l1)
  }

  /** Receives up to n messages, stopping at the first that is not received. */
  function ReceiveAll(l: Link, n: nat): (seq<NetworkMessage>, Link, bool)
    decreases n
  {
    if n == 0 then ([], l, true)
    else
      var (outcome, l1) := ReceiveRun(l);
      if outcome.Received? then
        var (rest, l2, complete) := ReceiveAll(l1, n - 1);
        ([outcome.m] + rest, l2, complete)
      else ([], l1, false)
  }

  predicate AllValid(ms: seq<NetworkMessage>) {
    forall i :: 0 <= i < |ms| ==> ms[i].Validate() == OK
  }

  predicate AllConsistent(ms: seq<NetworkMessage>) {
    forall i :: 0 <= i < |ms| ==> ms[i].Consistent()
  }

  /** A sender that fails leaves a proper prefix of the framed stream on the wire. */
  lemma {:induction false} SendAllSound(l: Link, ms: seq<NetworkMessage>)
    requires AllConsistent(ms)
    ensures var (ok, l') := SendAll(l, ms);
            && l.outgoing <= l'.outgoing <= l.outgoing + Frames(ms)
            && (ok <==> l'.outgoing == l.outgoing + Frames(ms))
    decreases |ms|
  {
    if ms != [] {
      var (ok, l1) := SendRun(l, EncodeHeader(ms[0].header), ms[0].body);
      SendSound(l, ms[0]);
      assert l.outgoing + Frames(ms) == l.outgoing + Frame(ms[0]) + Frames(ms[1..]);
      if ok {
        SendAllSound(l1, ms[1..]);
        assert l1.outgoing == l.outgoing + Frame(ms[0]);
      } else {
        assert |l1.outgoing| < |l.outgoing + Frames(ms)|;
      }
    }
  }

  lemma NextMessage(s: seq<byte>, ms: seq<NetworkMessage>)
    requires AllConsistent(ms) && s <= Frames(ms) && Parse(s).Message?
    ensures ms != [] && Parse(s).m == ms[0] && Parse(s).rest <= Frames(ms[1..])
  {
    hide Parse, EncodeHeader;
    var m, rest := Parse(s).m, Parse(s).rest;
    var more := Frames(ms)[|s|..];
    ParseSound(s);
    assert Frames(ms) == Frame(m) + (rest + more) by { assert s + more == Frames(ms); }
    assert ms != [];
    ParseFrame(m, rest + more);
    ParseFrame(ms[0], Frames(ms[1..]));
  }

  /**
   * Reading any prefix of a framed stream, however it is cut and whatever fails, yields a prefix of the
   * messages, all of them valid; what a complete reader leaves unread is what the messages did not use.
   */
  lemma {:induction false} ReceiveAllSound(l: Link, n: nat, ms: seq<NetworkMessage>)
    requires AllConsistent(ms) && l.incoming <= Frames(ms)
    ensures var (got, l', complete) := ReceiveAll(l, n);
            && got <= ms && AllValid(got)
            && (complete ==> |got| == n && Frames(got) + l'.incoming == l.incoming)
    decreases n
  {
    hide Parse, ReceiveRun, EncodeHeader;
    if n > 0 {
      var (outcome, l1) := ReceiveRun(l);
      ReceiveMatchesParse(l);
      if outcome.Received? {
        NextMessage(l.incoming, ms);
        ParseSound(l.incoming);
        ReceiveAllSound(l1, n - 1, ms[1..]);
        var (rest, l2, complete) := ReceiveAll(l1, n - 1);
        OneMore(ms, rest, l1.incoming, l2.incoming);
      }
    }
  }

  lemma OneMore(ms: seq<NetworkMessage>, rest: seq<NetworkMessage>, s1: seq<byte>, s2: seq<byte>)
    requires ms != [] && rest <= ms[1..]
    ensures [ms[0]] + rest <= ms
    ensures Frames(rest) + s2 == s1 ==> Frames([ms[0]] + rest) + s2 == Frame(ms[0]) + s1
  {
    assert ([ms[0]] + rest)[1..] == rest && ms == [ms[0]] + ms[1..];
  }

  lemma ReceiveUndisturbed(l: Link, m: NetworkMessage, tail: seq<byte>)
    requires m.Validate() == OK && l.incoming == Frame(m) + tail
    requires Benign(l) && |l.incoming| <= Transfers(l.script)
    ensures var (outcome, l') := ReceiveRun(l);
            outcome == Received(m) && l'.incoming == tail && Benign(l') && |tail| <= Transfers(l'.script)
  {
    hide DecodeHeader, EncodeHeader, ReadExactly, Benign, Transfers;
    var f := EncodeHeader(m.header);
    ReadExactlyCompletes(l, HEADER_SIZE);
    ReadExactlySound(l, HEADER_SIZE);
    var l1 := ReadExactly(l, HEADER_SIZE).1;
    assert l.incoming[..HEADER_SIZE] == f && l1.incoming == m.body + tail;
    HeaderRoundTrip(m.header);
    ReadExactlyCompletes(l1, m.header.bodyLength);
    ReadExactlySound(l1, m.header.bodyLength);
    var l2 := ReadExactly(l1, m.header.bodyLength).1;
    assert l1.incoming[..|m.body|] == m.body && l2.incoming == tail;
  }

  /** A reader whose transfers suffice gets every message of a valid stream that reached it whole. */
  lemma {:induction false} ReceiveAllCompletes(l: Link, ms: seq<NetworkMessage>)
    requires AllValid(ms) && l.incoming == Frames(ms)
    requires Benign(l) && |l.incoming| <= Transfers(l.script)
    ensures ReceiveAll(l, |ms|).2
    decreases |ms|
  {
    hide ReceiveRun, EncodeHeader, Benign;
    if ms != [] {
      ReceiveUndisturbed(l, ms[0], Frames(ms[1..]));
      ReceiveAllCompletes(ReceiveRun(l).1, ms[1..]);
    }
  }

  lemma SendCompletes(l: Link, m: NetworkMessage)
    requires m.Consistent() && BenignWriter(l) && |Frame(m)| <= Transfers(l.script)
    ensures var (ok, l') := SendRun(l, EncodeHeader(m.header), m.body);
            ok && BenignWriter(l') && Transfers(l'.script) + |Frame(m)| >= Transfers(l.script)
  {
    hide WriteExactly, EncodeHeader, Transfers, BenignWriter;
    var h := EncodeHeader(m.header);
    WriteExactlyCompletes(l, h);
    if m.body != [] { WriteExactlyCompletes(WriteExactly(l, h).1, m.body); }
  }

  /** A writer whose transfers suffice sends every message. */
  lemma {:induction false} SendAllCompletes(l: Link, ms: seq<NetworkMessage>)
    requires AllConsistent(ms) && BenignWriter(l) && |Frames(ms)| <= Transfers(l.script)
    ensures SendAll(l, ms).0
    decreases |ms|
  {
    hide SendRun, Frame, EncodeHeader, BenignWriter, Transfers;
    if ms != [] {
      SendCompletes(l, ms[0]);
      SendAllCompletes(SendRun(l, EncodeHeader(ms[0].header), ms[0].body).1, ms[1..]);
    }
  }

  /**
   * Both libraries only transfer or ask to wait, and transfer often enough; the messages are valid, and
   * what was written has arrived.
   */
  predicate Undisturbed(w: Link, r: Link, ms: seq<NetworkMessage>) {
    && AllValid(ms)
    && BenignWriter(w) && |Frames(ms)| <= Transfers(w.script)
    && r.incoming == SendAll(w, ms).1.outgoing
    && Benign(r) && |r.incoming| <= Transfers(r.script)
  }

  /**
   * The frame-stream round trip. Whatever the two scripts do, and however much of what was sent has
   * arrived, the reader gets a prefix of the messages sent, and a reader that completes gets exactly that
   * list with no byte left over; if neither script disturbs, all is sent and the reader completes.
   */
  lemma StreamRoundTrip(w: Link, r: Link, ms: seq<NetworkMessage>)
    requires AllConsistent(ms) && w.outgoing == []
    requires r.incoming <= SendAll(w, ms).1.outgoing
    ensures var (got, r', complete) := ReceiveAll(r, |ms|);
            && got <= ms && AllValid(got)
            && (complete ==> got == ms && r'.incoming == [])
            && (Undisturbed(w, r, ms) ==> SendAll(w, ms).0 && complete)
  {
    hide Benign, BenignWriter, Transfers;
    SendAllSound(w, ms);
    assert [] + Frames(ms) == Frames(ms);
    ReceiveAllSound(r, |ms|, ms);
    if Undisturbed(w, r, ms) {
      SendAllCompletes(w, ms);
      ReceiveAllCompletes(r, ms);
    }
  }
}
