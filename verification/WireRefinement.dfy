/**
 * Why a message may enter and leave a wire in one step: what SendMessage and ReceiveMessage do to a
 * connection, byte by byte, is what Put, PutFails and Take do to its wire, and a frame under way that is
 * not complete changes nothing for a reader.
 */
module WireRefinement {
  import opened Bytes
  import opened Framing
  import opened TlsConnection
  import opened MessageStream
  import C = Correlation

  /** Everything written is what the reader has taken and what is on the wire. */
  ghost predicate Carries(w: C.Wire, writer: Link, taken: seq<byte>) {
    w.open && writer.outgoing == taken + w.bytes
  }

  /** A send that succeeds is a Put; one that fails is a PutFails after the bytes that went out. */
  lemma SendIsPut(w: C.Wire, l: Link, taken: seq<byte>, m: NetworkMessage)
    requires Carries(w, l, taken) && m.Consistent()
    ensures var (ok, l') := SendRun(l, EncodeHeader(m.header), m.body);
            && |l.outgoing| <= |l'.outgoing|
            && var k := |l'.outgoing| - |l.outgoing|;
               && (ok ==> Carries(w.Put(m), l', taken))
               && (!ok ==> k < |Frame(m)| && l'.outgoing == taken + w.PutFails(m, k).bytes && !w.PutFails(m, k).open)
  {
    hide SendRun, EncodeHeader;
    var (ok, l') := SendRun(l, EncodeHeader(m.header), m.body);
    SendSound(l, m);
    var k := |l'.outgoing| - |l.outgoing|;
    assert taken + w.bytes + Frame(m)[..k] == taken + (w.bytes + Frame(m)[..k]);
    assert Frame(m)[..|Frame(m)|] == Frame(m);
  }

  /** A receive that gets a message is a Take of that message; a rejection is the parser's; else I/O failed. */
  lemma ReceiveIsTake(w: C.Wire, r: Link)
    requires r.incoming == w.bytes
    ensures var (outcome, r') := ReceiveRun(r);
            match outcome
            case Received(m) => Parse(w.bytes).Message? && m == Parse(w.bytes).m && r'.incoming == w.Take().bytes
            case Invalid(why) => Parse(w.bytes) == Rejected(why)
            case IoFailed(_) => true
  {
    hide ReceiveRun, Parse;
    ReceiveMatchesParse(r);
  }

  /** With the beginning of a further frame behind it, a wire offers its reader the same message, or none. */
  lemma TornTailUnseen(w: C.Wire, m: NetworkMessage, k: nat)
    requires C.WireOk(w) && w.open && m.Consistent() && k < |Frame(m)|
    ensures var tail := Frame(m)[..k];
            && (Parse(w.bytes + tail).Message? <==> Parse(w.bytes).Message?)
            && (Parse(w.bytes).Message? ==>
                  Parse(w.bytes + tail) == Message(Parse(w.bytes).m, Parse(w.bytes).rest + tail))
  {
    hide Parse, Frame;
    var tail := Frame(m)[..k];
    if w.sent == [] {
      assert w.bytes == [] && w.bytes + tail == tail;
      TornFrame(m, k);
      NothingParses();
    } else {
      var first, rest := w.sent[0], Frames(w.sent[1..]);
      assert first in w.sent;
      ParseFrame(first, rest);
      ParseFrame(first, rest + tail);
      assert w.bytes + tail == Frame(first) + (rest + tail);
    }
  }

  lemma NothingParses()
    ensures Parse([]) == Incomplete
  {
  }
}
